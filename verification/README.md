# RepoFabric verification model

A Dafny model of the parts of RepoFabric's Linux admin server (`linux/admin`, and the settings save and setup scripts
around it) whose behaviour is easiest to get wrong, with machine-checked properties of that model.
`dafny verify dfyconfig.toml` checks everything.

## What is modelled

| Part | Files | Source |
|---|---|---|
| Bandwidth ledger: raw request table, daily summary, nightly rollup | `Tally`, `Ledger`, `LedgerRuns`, `LedgerTightness`, `Metrics`, `RollupSchedule` | `metrics.js` |
| The four dashboard views over it | `Dashboard`, `DashboardLaws`, `Views`, `Savings`, `DashboardQueries` | `metrics.js`, `routes.js` |
| MS-PCCRC v1.0 Content Information: hash tree, encoder, a decoder, a client that rebuilds the file, the sidecar cache | `Bytes`, `ContentInfo`, `PeerDist`, `PeerDistClient`, `Sidecar`, `ServerState` | `peerdist.js` |
| The installer server that answers with it and fills the ledger | `Numerals`, `Subnet`, `SubnetLaws`, `SubnetForms`, `InstallerServer`, `InstallerServerLaws`, `InstallerRequests` | `installers.js`, `metrics.js` |
| Markdown block parser of the documentation pages | `Text`, `Markdown`, `MarkdownRender`, `MarkdownHtml`, `MarkdownText`, `MarkdownBlocks`, `MarkdownShown` | `docs.js` |
| Deployment configuration: wizard token and save, text-mode setup, settings save, Entra connect, confirmations, graduation, re-entry, restart, container start | `Solution`, `Deployment`, `DeploymentRuns`, `ConnectEffects` | `setup.js`, `entra-connect.js`, `upgrade.js`, `config.js`, `entra-helper.js`, `routes.js`, `WebRouter.ps1`, `Invoke-RfSetupCli.ps1`, `entrypoint.sh` |
| Role decision at sign-in | `Access` | `auth.js`, `graph.js` |
| Quoting of operator text in generated scripts | `Quoting` | `clientconfig.js`, `entra-helper.js` |
| Edit mode of the custom-package page | `EditForm`, `EditFormRoundTrip`, `ManifestForms`, `EditPage`, `EditPageLaws` | `publish-custom.js`, `publish-custom.html` |

Times are milliseconds since the Unix epoch. SHA-256 and the password hash are function parameters: nothing is assumed
about SHA-256, and where a property depends on it the conclusion names the collision. Each HTTP request, timer firing
and handler runs as one atomic step; a restart is a step of its own, so that the configuration a process runs with can
lag behind the files. Probes, Graph lookups, whether a file can be read or written, the clock and random bytes are
inputs of those steps.

Loops and handlers are methods with loop invariants, proved equal to functions on values; the properties are lemmas
about those functions over all inputs and all runs. What the functions compute is also stated without them, in plain
terms: ages of rows and status codes (`Metrics`, `Views`), the text of a request (`InstallerRequests`), of an address
(`SubnetForms`) and of a line of Markdown (`MarkdownText`, `MarkdownBlocks`, `MarkdownShown`), the fields of a body and
of the document (`ConnectEffects`).

## What the proofs found

- **Rendering can hang.** A documentation page does not come back when a line starts with three backticks but is no
  fence (an info string with a space), or is shaped like a heading but holds a lone CR, outside a fenced block or
  table: the outer loop of `docs.js` then leaves its cursor where it is. `MarkdownRender.TerminatesIff` is exact;
  `MarkdownRender.HangingDocuments` has the two smallest documents.
- **A rollup at the wrong time of day breaks "once a day".** A timer that fires after midnight but before its time of
  day is due again the same day (`RollupSchedule.DueAgainSameDayIff`): because it was delayed past midnight, because
  it fired a moment early, or because the clock was set back. Two cutoffs then fall inside one day, and the bound of
  two becomes the general bound of `LedgerRuns.BoundedReinflation`, which is reached for every number of cutoffs
  (`LedgerTightness.BoundAttained`).
- **The sidecar tolerance is on floored times.** Two versions 1000.5 ms apart can be taken for one
  (`Sidecar.FractionsCanHideAGap`).
- **`computeSubnet` files by spelling, not by /64.** It takes the first four colon-separated parts as text, although
  its comment promises the /64 prefix. An address is filed with its network exactly when those parts are the four
  network groups in their usual form (`SubnetLaws.FiledByNetworkIff`, `SubnetLaws.SpelledIff`). Otherwise hosts of one
  /64 are filed apart (`SubnetLaws.OneNetworkFiledApart`, `SubnetLaws.ShortAddressesFiledAlone`) and hosts of
  different /64s together (`SubnetLaws.TwoNetworksFiledTogether`).
- **The sidecar guard reads the path before it is decoded.** A stored file is delivered exactly when the path as it
  was sent does not end like a sidecar's and the decoded one is no dot file (`InstallerServerLaws.DeliveredIff`);
  every sidecar has a spelling with one escaped letter for which the first holds
  (`InstallerServerLaws.EscapedSidecarDelivered`).
- **Two dots in a name switch peer caching and the metrics off.** The test meant for parent directories also stops
  names such as `a..exe`: such a file is served, but never as Content Information, and its downloads are filed with
  size 0, which no dashboard view counts (`InstallerServerLaws.TwoDotsFallThrough`,
  `InstallerServerLaws.TwoDotsInNoView`).
- **A dot file can be announced but not fetched.** Content Information is negotiated for it like for any other file,
  while the static layer answers the ranged GET for its blocks with 403 (`InstallerServerLaws.EncodedIff`,
  `InstallerServerLaws.FallbackSuffices`).
- **A download across midnight shows savings on both days.** Each day books what the other day sent, although the
  headline shows none (`Savings.MidnightSavings`); `Savings.NoDailySavingsIff` says when the days show nothing that
  was not saved.
- **One failed read replaces the server secret.** The first call after a restart takes an unreadable secret file for a
  missing one, draws a new secret and overwrites the old (`ServerState.SecretNeverChangesIff`,
  `ServerState.StoredSecretReplacedIff`).
- **An all-blank user list clears the allow-list.** The comment on `mergeEntraAuth` says that only non-empty lists
  overwrite; a list of blanks is supplied, cleaned to nothing and stored (`Solution.BlankUsersClearTheList`).
- **The upgrade panel overwrites an unparseable `solution.yaml`.** `/connect` and the settings save refuse such a
  file; `/confirm`, and `/complete` when its checks pass on what the environment supplies, read it as empty and write
  it back (`DeploymentRuns.CorruptFiles`). A restart reaches that state (`DeploymentRuns.CorruptFilesReached`).
- **The guard in `/connect` is not quite impossible.** Between a rebuild of the document, by the wizard or the
  text-mode setup, and the restart it can trip (`DeploymentRuns.GuardAfterRebuild`), and only then
  (`DeploymentRuns.GuardNeverTrips`).
- **A graduated document is not frozen.** The settings save of the admin surface keeps rewriting `auth`, `targets`,
  `notifications` and `container`; nothing else but a rebuild can change it
  (`DeploymentRuns.GraduatedChangesOnlySettings`).
- **A container start undoes re-entering the wizard.** By its comment `reEnterSetupMode` takes effect once the
  operator restarts the container. A respawned process does enter setup mode, but the entrypoint of a starting
  container deletes the flag and the token once setup was ever completed (`DeploymentRuns.ReEntry`).
- **Typographic quotes are not doubled.** PowerShell also takes U+2018 to U+201B for single quotes. A quoted value is
  read back exactly when it holds none of them (`Quoting.PsQuoteInverts`, `Quoting.VerbatimInverts`,
  `Quoting.SameNameInBoth`).
- **Saving an untouched edit form is not neutral.** Seven installer fields the page shows are never filled from the
  manifest and so are dropped; an absent scope or installer locale is added (`EditPageLaws.UntouchedSaveDrops`,
  `EditPageLaws.UntouchedSaveAdds`).

## Model

| member | source | states |
|---|---|---|
| Metrics.MetricsDb.RecordInstallerRequest | linux/admin/src/metrics.js:95-111 | inserts one raw row and leaves the summary alone |
| Metrics.MetricsDb.RollupAndPrune | linux/admin/src/metrics.js:130-161 | in whatever order the groups are upserted: exactly the rows at most that many days old stay, each as often as before, and the number of the others is returned; every day, subnet and installer gains what its older deliveries (status 200 or 206, with a size and bytes sent) amount to, egress and counts added, size by maximum |
| LedgerRuns.Conservation | linux/admin/src/metrics.js:95-161 | for every interleaving of requests and rollups with any cutoffs, and every day, subnet and path: summary egress plus the bytes of the remaining raw deliveries (status 200 or 206, with a size and bytes sent) is all bytes ever delivered, and file size likewise by maximum |
| LedgerRuns.RollupTwice | linux/admin/src/metrics.js:130-161 | rolling up at two cutoffs in order leaves the raw table, egress and sizes of rolling up once at the later one |
| LedgerRuns.RollupCounts | linux/admin/src/metrics.js:130-161 | how one rollup changes the stored distinct counts: it adds the clients since the previous cutoff and counts again exactly those seen before it |
| LedgerRuns.RunKeepsInvariant | linux/admin/src/metrics.js:130-161 | every orderly run keeps: raw rows are those no cutoff has passed, and every stored count lies between the true distinct count and its bound |
| LedgerRuns.BoundedReinflation | linux/admin/src/metrics.js:113-161 | installs (and peer installs) stored for a key are at least the true distinct clients rolled up, at most (1 + cutoffs strictly inside that UTC day) times as many, and exact if and only if no client straddles a cutoff |
| LedgerTightness.BoundAttained | linux/admin/src/metrics.js:113-161 | the bound is reached: for every number of cutoffs that fit inside a UTC day there is an orderly run with one true client that is stored as one more than that many |
| RollupSchedule.NextFire | linux/admin/src/metrics.js:173-181 | the next target is the least instant strictly after now with the given UTC time of day |
| RollupSchedule.RollupTimer.Start | linux/admin/src/metrics.js:167-194 | a second start while a timer is armed is ignored |
| RollupSchedule.RollupTimer.Fire | linux/admin/src/metrics.js:182-194 | a firing, early, late or on time, rolls up what is older than the retention (90 days unless another is given) at its own time, unless the transaction fails, and re-arms from the time it finished |
| RollupSchedule.DaysIncrease | linux/admin/src/metrics.js:167-194 | no two firings share a UTC day, unless one ran early or between midnight and its time of day |
| RollupSchedule.DueAgainSameDayIff | linux/admin/src/metrics.js:173-181 | a timer re-armed after a firing is due again on the same UTC day if and only if that firing ran before the time of day |
| RollupSchedule.OneCutoffPerDay | linux/admin/src/metrics.js:130-137 | cutoffs on distinct days put at most one cutoff inside any UTC day |
| RollupSchedule.AtMostDouble | linux/admin/src/metrics.js:130-194 | rolled up by the timer once a day, every stored count is between the true one and twice the true one |
| Tally.SumRegroup | linux/admin/src/metrics.js:307-395 | totals of groups add up to the grand total for every grouping |
| Tally.SumClamp | linux/admin/src/metrics.js:261-263 | clamping savings part by part never shows less than clamping the totals |
| Tally.Total | linux/admin/src/metrics.js:265-305 | the outer SELECT's loop over groups computes the sum of the table, in any order |
| Dashboard.GroupsKeepEgress | linux/admin/src/metrics.js:265-395 | no grouping loses egress or counts it twice |
| Dashboard.GroupsCountPairs | linux/admin/src/metrics.js:265-395 | per-group distinct clients add up to the distinct (client, group) pairs |
| Dashboard.PerGroupTotal | linux/admin/src/metrics.js:307-395 | the rows of a two-level view add up to the totals of its inner grouping, column by column |
| Dashboard.ClampedSavings | linux/admin/src/metrics.js:261-263 | the clamped savings of a view add up to at least the clamped saving of its totals |
| Dashboard.PairsOfOnePath | linux/admin/src/metrics.js:307-369 | within one path a finer grouping counts at least the distinct clients, and exactly those when the client fixes the group |
| Dashboard.TwoLevelTotals | linux/admin/src/metrics.js:265-395 | how installs, baseline and egress of any finer grouping compare with grouping by path alone, including exactly when the baselines agree |
| DashboardLaws.SubnetsAgree | linux/admin/src/metrics.js:334-369 | subnet rows sum to the headline's installs, peer installs and egress; their baseline is never larger, and equal if and only if every subnet saw each file at full size; then their savings sum to at least the headline's |
| DashboardLaws.DaysAgree | linux/admin/src/metrics.js:307-332 | day rows keep the egress; their installs and, with constant sizes, baseline and savings are at least the headline's |
| DashboardLaws.InstallersAgree | linux/admin/src/metrics.js:371-395 | all installer rows together carry the headline's installs, baseline and egress, and show at least its saving |
| Views.InstallsAreDistinctPairs | linux/admin/src/metrics.js:214-305 | over the raw rows: installs are the distinct (installer, client) pairs of rows since the cutoff with status 200 or 206, a size and bytes sent, and egress is what exactly those rows sent |
| Views.WindowIs | linux/admin/src/metrics.js:251-259 | the rows a query reads are exactly the deliveries whose age, cut to whole milliseconds, is at most the number of days asked for |
| Views.HeadlineShows | linux/admin/src/metrics.js:265-305 | the headline shows the distinct pairs of the window, with and without peerdist, one full pull of the largest reported size for each as its baseline, the bytes sent, and what is left of the baseline |
| Views.SubnetShows | linux/admin/src/metrics.js:334-369 | there is a row for a subnet if and only if the window has a delivery filed under it, and it shows those deliveries as the headline would |
| Views.DayShows | linux/admin/src/metrics.js:307-332 | the same for a UTC day |
| Views.InstallerShows | linux/admin/src/metrics.js:371-395 | the same for an installer |
| Savings.NoPeersNoSavings | linux/admin/src/metrics.js:214-395 | when every client pulled at least the size of every file it has, nothing is shown as saved, in total, per installer or, with the subnets the server files, per subnet |
| Savings.NoDailySavingsIff | linux/admin/src/metrics.js:307-332 | no day shows a saving if every client pulled at least the whole file on each day it appears, and only if, as long as nobody pulled more than the whole file on one day |
| Savings.MidnightSavings | linux/admin/src/metrics.js:307-332 | one full download in two pieces on two days shows as saved on each day what the other sent, while the headline shows none |
| DashboardLaws.RatioBelowOne | linux/admin/src/metrics.js:290-303 | the savings ratio lies in [0, 1), and peer installs never exceed installs |
| Views.RatioIs | linux/admin/src/metrics.js:290-303 | the ratio times the baseline is the saving, and without a baseline it is 0 |
| DashboardLaws.WindowAfterRollup | linux/admin/src/routes.js:287-303 | a window clamped to at most 90 days never reaches behind a 90-day rollup that ran before the query |
| DashboardLaws.WindowDays | linux/admin/src/routes.js:287-303 | the window asked for, clamped to 1 to 90 days; the default where none, no number or 0 is asked for |
| DashboardLaws.RollupsInvisible | linux/admin/src/metrics.js:130-161 | a window behind which no rollup reached reads the rows it would have read had there been none |
| DashboardLaws.ViewsOfHistory | linux/admin/src/routes.js:287-303 | after any run of requests and 90-day rollups all four views equal those of the full history, for every later query and whatever number of days it asks for |
| DashboardLaws.FanOutInvisible | linux/admin/src/metrics.js:220-248 | recording one delivery as any number of positive pieces, spread over its day on one side of the cutoff and interleaved with other requests in any way, changes none of the four views |
| DashboardQueries.Rank | linux/admin/src/metrics.js:365-368 | the listing holds every key once, in descending order of weight |
| DashboardQueries.GetHeadlineSummary | linux/admin/src/metrics.js:265-305 | shows the deliveries of the clamped window as the headline of exactly those, and its ratio times the baseline is the saving |
| DashboardQueries.GetTimeSeries | linux/admin/src/metrics.js:307-332 | in order of day, one row for each day of the window with a delivery, which shows the deliveries of that day |
| DashboardQueries.GetSubnetEffectiveness | linux/admin/src/metrics.js:334-369 | most saved first, one row for each subnet of the window with a delivery, which shows the deliveries of that subnet |
| DashboardQueries.GetTopInstallers | linux/admin/src/metrics.js:371-395 | at most the limit of rows, each showing the deliveries of its installer, and nothing left out saves more than what is shown |
| Bytes.WriteLE | linux/admin/src/peerdist.js:229-246 | writes exactly the little-endian bytes at the offset and nothing else |
| Bytes.ReadsBack | linux/admin/src/peerdist.js:229-246 | a number that fits its slot is read back from its little-endian bytes |
| Bytes.WritesBack | linux/admin/src/peerdist.js:229-246 | bytes read as a number fit the slot and are written back |
| ContentInfo.ParsesPrinted | linux/admin/src/peerdist.js:199-221 | parsing a printed structure (sections 2.3, 2.3.1.1 and 2.3.1.2 of MS-PCCRC) recovers every field and consumes all of it |
| ContentInfo.PrintsParsed | linux/admin/src/peerdist.js:199-221 | whatever parses is exactly the layout of what was read, so no two byte strings mean the same structure |
| ContentInfo.PrintedLength | linux/admin/src/peerdist.js:199-265 | 18 bytes, plus 84 per segment, plus 32 per block |
| PeerDist.ReadAt | linux/admin/src/peerdist.js:124-133 | a positioned read fills the buffer from the file and reports fewer bytes when the file ends early |
| PeerDist.HashSegment | linux/admin/src/peerdist.js:113-142 | one segment's loop hashes each of its blocks in order, or reports a short read |
| PeerDist.ComputePeerDistHashes | linux/admin/src/peerdist.js:107-155 | succeeds if and only if the file is within 2 GB and all its bytes could be read, and is then the two-level hash tree of those bytes |
| PeerDist.Tiling | linux/admin/src/peerdist.js:41-44 | segments tile [0, size) in order, only the last may be short, and an empty file has one empty segment |
| PeerDist.BlockTiling | linux/admin/src/peerdist.js:113-142 | blocks tile each segment in order, and only its last may be short |
| PeerDist.Bounds | linux/admin/src/peerdist.js:41-44 | within the 2 GB limit: at most 64 segments of at most 512 blocks, with offsets that fit |
| PeerDist.EncodeContentInformation | linux/admin/src/peerdist.js:222-265 | throws exactly on trees it cannot encode or a secret that is not 32 bytes, and otherwise writes the structure that describes the tree |
| PeerDistClient.EncodedFits | linux/admin/src/peerdist.js:222-265 | whatever the encoder accepts fits its 16-, 32- and 64-bit slots |
| PeerDistClient.BlobDescribesFile | linux/admin/src/peerdist.js:107-265 | every file of up to 2^31 bytes encodes and its blob parses back to the file's own description with nothing left over: it begins with version 1.0, SHA-256 and a whole-file range, each hash of hashes is taken over the block hashes side by side, each segment secret over that and the server secret, and the length is the documented one |
| PeerDistClient.Reconstruction | linux/admin/src/peerdist.js:107-265 | for every file of up to 2^31 bytes: a client that decodes the blob, accepts only blocks with the announced hashes and places them has the file byte for byte, or one of its blocks is an explicit SHA-256 collision |
| PeerDistClient.TrueBlocksRebuild | linux/admin/src/peerdist.js:107-265 | conversely, the true blocks are always accepted, and placed where the blob puts them they make up the file |
| PeerDistClient.SecretOnlyInItsSlots | linux/admin/src/peerdist.js:191-197 | blobs of one file under two secrets are equally long and differ only inside the 32-byte Kp slots |
| Sidecar.Installer.ReadStored | linux/admin/src/peerdist.js:157-171 | a sidecar is used only with the current schema and size and a time within 1000 ms |
| Sidecar.Installer.LoadOrCompute | linux/admin/src/peerdist.js:180-189 | serves the sidecar or a fresh tree, rewrites it only on a miss, and survives a failing write |
| Sidecar.ServedIsClose | linux/admin/src/peerdist.js:157-189 | over any run of rewrites, touches and lookups, the served tree is that of some version of the current size whose time is within 1000 ms of the current one |
| Sidecar.ServedIsFresh | linux/admin/src/peerdist.js:157-189 | it is what a fresh computation would give when different versions of one size are more than 1000 whole milliseconds apart |
| Sidecar.StaleIff | linux/admin/src/peerdist.js:157-189 | after a lookup and a rewrite the old hashes are served if and only if the size is the same and the floored times are at most 1000 apart |
| Sidecar.FractionsCanHideAGap | linux/admin/src/peerdist.js:166 | a gap of 1000.5 ms can still be taken for none |
| ServerState.KillSwitch.Enabled | linux/admin/src/installers.js:41-50 | reads the setting at most once per three seconds and keeps the last good value when it cannot |
| ServerState.SettingWithinTtl | linux/admin/src/installers.js:36-50 | every answer is the setting as it was at a call less than 3000 ms earlier, if it could be read then, and it is read again only when the last reading is that old |
| ServerState.SecretStore.GetServerSecret | linux/admin/src/peerdist.js:75-103 | gives the cached secret, else a stored one of 32 bytes that it could read, else a new one that it tries to store |
| ServerState.SecretNeverChangesIff | linux/admin/src/peerdist.js:72-103 | over any run of calls and restarts, every call gives the stored secret if and only if no first call after a restart fails to read it and draws another |
| ServerState.StoredSecretReplacedIff | linux/admin/src/peerdist.js:75-103 | a call replaces the stored secret if and only if it is a first call that cannot read the file, can write it and draws another; otherwise the next restart gives the stored one again |
| ServerState.SettledIff | linux/admin/src/peerdist.js:72-103 | a newly drawn secret survives a restart if and only if it could be written |
| ServerState.RunInTwo | linux/admin/src/peerdist.js:72-103 | the answers and the state of a run are those of its parts, one after the other |
| SubnetLaws.NameIsUnique | linux/admin/src/metrics.js:397-411 | the names of two networks, a /24 or a /64, are equal if and only if the networks are |
| SubnetForms.QuadFiledUnder | linux/admin/src/metrics.js:397-411 | a dotted quad, with or without `::ffff:` in either case in front, is filed under its first three groups and `.0/24`, and stands for that network |
| SubnetForms.ColonsFiledUnder | linux/admin/src/metrics.js:397-411 | any text with three or more colons is filed under its first four parts and `::/64`, whatever they are |
| SubnetForms.OthersFiledUnder | linux/admin/src/metrics.js:397-411 | any other text without a dot is filed under itself, and no address at all under `0.0.0.0/24` |
| SubnetForms.GroupsIff | linux/admin/src/metrics.js:397-411 | which texts are IPv6 addresses: eight groups, or at most seven around one `::` that stands for the missing zeros, as section 2.2 of RFC 4291 has it |
| SubnetForms.NetworkOfGroups | linux/admin/src/metrics.js:397-411 | the /64 of a text without dots is given by the first four of its eight groups, if it has them |
| SubnetLaws.FiledByNameIff | linux/admin/src/metrics.js:397-411 | an address is filed under the name of its network if and only if the text in front spells that network |
| SubnetLaws.SameSubnetIffSameNetwork | linux/admin/src/metrics.js:397-411 | two addresses that spell their networks are filed together if and only if they are in one network |
| SubnetLaws.FiledByNetworkIff | linux/admin/src/metrics.js:397-411 | an address is filed with exactly the usually written addresses of its network if and only if its own text spells the network |
| SubnetLaws.SpelledIff | linux/admin/src/metrics.js:397-411 | for an IPv6 address without the IPv4-mapped prefix that condition is: no `::` among the first four parts, and each of them in its usual hexadecimal form |
| SubnetLaws.SpelledMappedIff | linux/admin/src/metrics.js:397-411 | for an IPv6 address with that prefix, which is stripped, it is: the parts that follow have one of three forms, which repeat the network's own groups |
| SubnetLaws.OneNetworkFiledApart | linux/admin/src/metrics.js:397-411 | `x::y:z` and `x::y:w` are in one /64, and are filed together if and only if `z` and `w` are the same text |
| SubnetLaws.TwoNetworksFiledTogether | linux/admin/src/metrics.js:397-411 | `x::a:b:c:d:e` and `x::a:b:c` are always filed together, and are in one /64 if and only if `a` is zero |
| SubnetLaws.ShortAddressesFiledAlone | linux/admin/src/metrics.js:397-411 | an address `x::y` is filed under itself, although it has a /64 |
| InstallerServer.Server.Negotiate | linux/admin/src/installers.js:190-232 | answers with Content Information or falls through, guard by guard, the one on two adjacent dots in the decoded path included, and leaves on disk what the lookup stored |
| InstallerServer.Server.Handle | linux/admin/src/installers.js:94-232 | the reply, the files and the ledger after one request: the guard for sidecars on the path as it was sent, everything else on the decoded one, a failed decoding, and one row for each GET or HEAD that is not noise, of size 0 where the path holds two adjacent dots |
| InstallerServerLaws.EncodedIff | linux/admin/src/installers.js:190-232 | over any history of an installer, the request for it gets Content Information if and only if the switch is on, it is a GET or HEAD without a range whose Accept-Encoding spells `peerdist` in any case or whose X-P2P-PeerDist is not empty, the path as sent does not end like a sidecar's, the decoded one holds no two adjacent dots, and the file has 1 to 2^31 bytes; and the reply describes a version of the current size within the tolerance, announces its length, and parses with nothing left over |
| InstallerRequests.BrowserGetsTheFile | linux/admin/src/installers.js:190-232 | a GET with `Accept-Encoding: gzip, deflate, br` for a stored file gets the file, whatever the switch |
| InstallerRequests.PeerClientGetsInformation | linux/admin/src/installers.js:190-232 | a GET with `Accept-Encoding: identity, peerdist` and no other header gets Content Information if and only if the switch is on |
| InstallerServerLaws.FilesFollowHistory | linux/admin/src/installers.js:190-232 | what the server does to its files is, for the file a request names, one lookup of the sidecar cache or nothing, and changes no other file |
| InstallerServerLaws.RepliesWithCurrent | linux/admin/src/installers.js:210-226 | over any history in which different versions of one size are more than the tolerance apart, a Content Information reply to GET is the blob of the current file |
| InstallerServerLaws.ClientRebuilds | linux/admin/src/installers.js:15-26 | a client of the server that accepts only announced blocks and places them has the current file, or a collision |
| InstallerServerLaws.FallbackSuffices | linux/admin/src/installers.js:22-26 | a ranged GET for any block is never answered with Content Information, and returns the true block if and only if the file is withheld neither as a sidecar nor as a dot file |
| InstallerServerLaws.FiledRows | linux/admin/src/installers.js:118-177 | filed rows carry the subnet of their client, and HEAD never counts as a delivery |
| InstallerRequests.FiledRow | linux/admin/src/installers.js:104-177 | which replies are filed, and every column of the row: time, path, agent and duration of the request, its client and subnet, the size of the file, the bytes of the body, the status, and whether the request spoke PeerDist |
| InstallerRequests.FiledSize | linux/admin/src/installers.js:130-141 | the size filed is that of the file the decoded path names, or 0 where that path holds two adjacent dots |
| InstallerRequests.RangedDelivery | linux/admin/src/installers.js:118-177 | the answer to a ranged GET of a stored file is filed with status 206, the size of the file and exactly the bytes of the range as sent |
| InstallerRequests.WholeDelivery | linux/admin/src/installers.js:118-177 | a plain GET of a stored file is filed with status 200 and all its bytes as sent, and without peerdist |
| InstallerRequests.DeliveryCounts | linux/admin/src/metrics.js:251-259 | a row with status 200 or 206, a size and bytes sent is one more delivery of every window that reaches back to it |
| InstallerServerLaws.EncodedRow | linux/admin/src/installers.js:118-177 | a Content Information reply to GET is filed as a delivery with peerdist negotiated, of as many bytes as its own length and of the size of the current file |
| InstallerServerLaws.SubnetRowsAddUp | linux/admin/src/metrics.js:334-369 | on any ledger the server filled, subnet rows sum to the headline with no further condition |
| InstallerServerLaws.DeliveredIff | linux/admin/src/installers.js:94-102 | a plain GET that decodes to a stored file, a sidecar or not, gets that file if and only if the path as it was sent does not end like a sidecar's and the decoded one is no dot file |
| InstallerServerLaws.GuardedIs404 | linux/admin/src/installers.js:94-102 | a path that as it was sent ends like a sidecar gets status 404 and the body `Not found`, empty for HEAD, whatever is stored |
| InstallerServerLaws.MalformedPath | linux/admin/src/installers.js:190-201 | a path that does not decode fails with status 500 if and only if the request asks for Content Information while the switch is on; otherwise the static layer answers |
| InstallerServerLaws.UnescapedIsGuarded | linux/admin/src/installers.js:94-102 | a path sent without escapes is what it decodes to, so the guard keeps sidecars private then |
| InstallerServerLaws.EscapedSidecarDelivered | linux/admin/src/installers.js:94-102 | a sidecar that is not found under its own name is delivered under a spelling with one escaped letter, if and only if it is no dot file |
| InstallerServerLaws.TwoDotsFallThrough | linux/admin/src/installers.js:118-200 | a request for a path with two adjacent dots is left to the static layer, stores no sidecar and is filed, if at all, with size 0 and so as no delivery |
| InstallerServerLaws.TwoDotsInNoView | linux/admin/src/installers.js:118-177 | whatever the ledger held before, such a request changes none of the four views |
| InstallerServerLaws.TwoDotsName | linux/admin/src/installers.js:118-200 | `/a..exe` is such a path: plain, no sidecar and no dot file |
| Markdown.EmptyRunIff | linux/admin/src/docs.js:188-204 | a turn finds no line for its own run if and only if the line stops a paragraph but starts no block |
| Markdown.TurnProgress | linux/admin/src/docs.js:92-204 | a turn leaves the cursor where it was if and only if the line is such a line |
| MarkdownRender.CollectRun | linux/admin/src/docs.js:101-104 | an inner loop pushes one item per line while its guard holds |
| MarkdownRender.TakeTurn | linux/admin/src/docs.js:93-205 | one turn of the outer loop, guard by guard in order |
| MarkdownRender.RenderMarkdown | linux/admin/src/docs.js:88-207 | the pieces of a document in order, or the line at which the loop stands still |
| MarkdownRender.PiecesAreTurns | linux/admin/src/docs.js:88-207 | every emitted block is one turn that moved, and the loop stands still only at a line that stops a paragraph but starts no block |
| MarkdownRender.LinesConserved | linux/admin/src/docs.js:88-207 | the lines owned by the emitted blocks concatenate to the input in order, up to the line where the loop stands still, if any |
| MarkdownRender.OneItemPerLine | linux/admin/src/docs.js:98-204 | each list, quote, paragraph, table and code block has one item for each source line of its run, in order, and the run is as long as it can be |
| MarkdownBlocks.Shapes | linux/admin/src/docs.js:54-207 | which lines have which shape, in terms of their text alone: fence, heading, rule, quote, bullet, number, table row, delimiter row |
| MarkdownBlocks.BlocksAreTheirLines | linux/admin/src/docs.js:88-207 | what every block is made of: the branch is the first whose shape the line has; a fenced body and a paragraph hold their lines as they are, a bullet or numbered item, a quoted line and a heading the text behind the marker, a table row the trimmed cells between its pipes, and each run ends exactly where its lines no longer go on |
| MarkdownBlocks.ContinuesIff | linux/admin/src/docs.js:98-204 | over which lines each inner loop goes on, in terms of their text |
| MarkdownShown.TitleShown | linux/admin/src/docs.js:118-127 | a heading of n hashes shows its text, without the surrounding white space, under the tag of level n |
| MarkdownShown.ParagraphShown | linux/admin/src/docs.js:188-204 | a paragraph shows its source lines joined by spaces |
| MarkdownShown.QuoteShown | linux/admin/src/docs.js:152-161 | a quote shows what follows the mark of each of its lines, joined by spaces |
| MarkdownShown.ListShown | linux/admin/src/docs.js:163-183 | a list shows one item for each of its lines, with the text behind the marker |
| MarkdownShown.CodeShown | linux/admin/src/docs.js:95-116 | a fenced block shows its source lines as they are, and names the language of its fence |
| MarkdownShown.TableShown | linux/admin/src/docs.js:129-147 | a table shows the cells of its header and of every line of its body, with the class that the delimiter row gives each column |
| MarkdownShown.ClassOfColumn | linux/admin/src/docs.js:75-83 | a column is centred with a colon on both sides of its delimiter cell, right-aligned with one on the right, and has no class otherwise or beyond the delimiter row |
| MarkdownShown.HelloWorld | linux/admin/src/docs.js:88-207 | the document `Hello world` renders as that paragraph |
| MarkdownRender.TerminatesIff | linux/admin/src/docs.js:88-207 | rendering comes back if and only if every line that starts with three backticks but is no fence, and every heading-shaped line that is no heading, starts a table or lies inside a fenced block or a table, as a scan of the line shapes from left to right tells |
| MarkdownRender.TerminatesWithoutStuckLines | linux/admin/src/docs.js:88-207 | a document without such lines always renders |
| MarkdownRender.HangingDocuments | linux/admin/src/docs.js:97-204 | two one-line documents on which the loop stands still at once |
| MarkdownHtml.EscapeInverts | linux/admin/src/docs.js:52-54 | unescaping gives the text back, and escaped text holds no quote, apostrophe or angle bracket |
| MarkdownHtml.PageBalanced | linux/admin/src/docs.js:88-207 | the block-level tags of every document nest and are all closed |
| MarkdownHtml.PageInParts | linux/admin/src/docs.js:88-207 | a page is what its blocks push, in order |
| MarkdownHtml.PageTagsPair | linux/admin/src/docs.js:88-207 | from the start of a page to any point no tag is closed more often than opened, and on the whole page exactly as often |
| MarkdownHtml.CodeComesBack | linux/admin/src/docs.js:97-117 | unescaping a fenced body and splitting it gives its source lines exactly |
| MarkdownHtml.DocumentLines | linux/admin/src/docs.js:88-90 | no line of a document holds a line feed, so the previous property holds of every fenced block of every document |
| MarkdownHtml.NewlinesNormalized | linux/admin/src/docs.js:88-90 | parts without CR LF that were joined by CR LF come out joined by LF |
| Solution.OneMerge | linux/admin/src/entra-helper.js:256-277 | what one merge does to each auth field and each other key |
| Solution.LastMergeWins | linux/admin/src/entra-helper.js:249-277 | after any number of merges the last credentials stand, each allow-list is the cleaned form of the last one supplied non-empty, and everything else is as it was |
| Solution.BlankUsersClearTheList | linux/admin/src/entra-helper.js:256-277 | a supplied user list leaves an empty allow-list if and only if all its entries are blank |
| ConnectEffects.ConnectStores | linux/admin/src/entra-connect.js:113-166 | a connect that succeeds stores the trimmed tenant, client and secret of its body; of a supplied user list the trimmed, lower-cased form of every entry that is not blank and nothing else; of a supplied group list the id and name of every entry with an id and nothing else |
| ConnectEffects.ConnectTakesEffect | linux/admin/src/config.js:51-145 | after a connect the next start outside setup mode signs in with the credentials of that body, whatever the environment says |
| ConnectEffects.LoadsCredentials | linux/admin/src/config.js:51-145 | which tenant, client and secret a start loads: those of the document where it gives them and the process is not in setup mode, else those of the environment |
| ConnectEffects.SetupStores | linux/admin/src/setup.js:125-200 | what a wizard save or a text-mode setup leaves: the sections of its form, for a sandbox with a local password the account with the hash of that password, and no other key of the document before |
| Solution.ConfirmSetsOneKey | linux/admin/src/upgrade.js:148-160 | a confirmation sets or clears exactly its own key, stores every confirmed key once and touches no other top-level key |
| Solution.LastSettingsWin | linux/src/Private/WebUI/WebRouter.ps1:1351-1390 | after any number of settings saves auth, container, the SMTP section and each target field are the last ones supplied, or what was there before, and everything else is as it was |
| Solution.SettingsEffect | linux/src/Private/WebUI/WebRouter.ps1:1351-1390 | what one settings save does to each key: auth and container as a whole, the nine target fields by their names in the form, the SMTP section, and nothing else |
| Deployment.ReadyIff | linux/admin/src/upgrade.js:103-135 | all checks pass if and only if tenant, client and secret are set and accepted, and every other gap is closed, where an operator's word counts only where nothing could be measured |
| Deployment.Server.constructor | linux/admin/src/config.js:51-95 | a process starts with the configuration that files and environment give |
| Deployment.Server.HandleConnect | linux/admin/src/entra-connect.js:113-176 | writes the merge and answers 200 exactly when tenant, client and secret are not blank, the document parses, the probe accepts, the break-glass account stays and the file can be written; each other status says which of these failed first, and then nothing changed |
| Deployment.Server.HandleConfirm | linux/admin/src/upgrade.js:148-160 | the document after a confirmation, or the status that refused it |
| Deployment.Server.RunChecks | linux/admin/src/upgrade.js:103-135 | pushes the four checks in order |
| Deployment.Server.HandleComplete | linux/admin/src/upgrade.js:165-180 | refuses with 409 if and only if some gap is open, and otherwise makes the document a production one |
| Deployment.Server.HandleSettingsSave | linux/src/Private/WebUI/WebRouter.ps1:1271-1460 | writes the merge of the form and answers 200 exactly when the document parses, the assembled configuration passes its schema and the file can be written |
| Deployment.Server.HandleVerifyToken | linux/admin/src/setup.js:57-64 | opens the session if and only if the trimmed token is the trimmed stored one, which is not blank; else 409 without a stored token and 403 with a wrong one |
| Deployment.Server.HandleSave | linux/admin/src/setup.js:125-221 | 401 without an opened session, which changes nothing; else the document rebuilt from the form and the flags, as far as the writes got |
| Deployment.Server.ReEnterSetupMode | linux/admin/src/config.js:330-342 | sets the flag and a new token while the running process keeps its configuration |
| Deployment.Server.Respawn | linux/admin/src/config.js:51-95 | a respawned process has the configuration of the files as they now are, and no open session |
| DeploymentRuns.DocumentPreserved | linux/admin/src/entra-connect.js:113-166 | from a parseable document, any sequence of steps that do not rebuild it (connects, confirmations, completions, settings saves, token checks, re-entries, restarts, container starts), whatever the probes answer, keeps every top-level key except those the steps own, and with it the local admin; without settings saves that is all but auth, graduation and deployment_profile |
| DeploymentRuns.CorruptFiles | linux/admin/src/upgrade.js:93-180 | on an unparseable document a confirmation, and a completion exactly when its checks pass with nothing confirmed, write a document that holds nothing else, while connect and the settings save change nothing |
| DeploymentRuns.GuardNeverTrips | linux/admin/src/entra-connect.js:150-158 | since the last start, as long as nothing rebuilds the document, the break-glass guard of connect never trips |
| DeploymentRuns.GuardAfterRebuild | linux/admin/src/entra-connect.js:150-158 | from a rebuild to the next start, whatever steps that rebuild nothing come in between, the guard trips if and only if there was a break-glass account and the new document has none: a form without a local password, or any text-mode setup |
| DeploymentRuns.MaySaveIff | linux/admin/src/setup.js:32-64 | over any run, a session may save if and only if that session presented the token that was valid at that moment and the process has not restarted since |
| DeploymentRuns.SavesAgain | linux/admin/src/setup.js:32-64 | a session that saved can save again until the process ends, although its first save deleted the token |
| DeploymentRuns.ReEntry | linux/entrypoint.sh:109-140 | after re-entering and any steps that rebuild nothing, a respawned process is in setup mode; a container start is so only if setup was never completed, and otherwise deletes flag and token |
| DeploymentRuns.ContainerStart | linux/entrypoint.sh:109-140 | a container start with setup.complete closes the wizard and deletes the token; without it, it opens the wizard under the token that is there or else a new one |
| DeploymentRuns.SetupModeKeepsAll | linux/admin/src/config.js:51-95 | in setup mode, until the process ends and short of a wizard save or a text-mode setup, nothing but the list of opened sessions changes |
| DeploymentRuns.GraduationIsGated | linux/admin/src/upgrade.js:165-180 | no step of the deployment, settings saves and setups included, but a completion whose checks all pass makes a document a production one |
| DeploymentRuns.GraduationSticks | linux/admin/src/config.js:85-95 | unless something rebuilds it the document stays graduated, and every start outside setup mode loads a configuration that is no sandbox, whatever the environment says |
| DeploymentRuns.RebuildUndoesGraduation | linux/src/Public/Invoke-RfSetupCli.ps1:73-99 | after a wizard save or a text-mode setup, and any further steps but a completion, a restart is a sandbox if and only if the environment says so |
| DeploymentRuns.GraduatedChangesOnlySettings | linux/admin/src/routes.js:260-268 | once a graduated deployment has started, connect, confirm and complete stay out of reach, and until something rebuilds it the document is the graduated one with the saved settings merged in order: no key but auth, targets, notifications and container differs |
| Access.MatchesGroups | linux/admin/src/auth.js:524-538 | the first configured claim, else the first group Graph confirms, else none |
| Access.Authorize | linux/admin/src/auth.js:519-561 | the role, with a reason that names a member of the list the role belongs to, by name or by a group that really matched |
| Access.MatchesWhoItShouldIff | linux/admin/src/auth.js:524-538 | a sign-in matches every list of group entries, with or without ids, exactly as its groups say if and only if neither its token nor Graph's answers name a group by the empty id |
| Access.RoleIff | linux/admin/src/auth.js:519-561 | whatever the lists hold: admin exactly for users named on the admin list or in an admin group or when nothing is configured, read-only for the rest of those named on the read-only list or in a read-only group, else denied |
| Access.OrderDoesNotMatter | linux/admin/src/auth.js:519-561 | neither the order of lists and claims nor repetitions in them change the role |
| Access.FailuresNeverRaise | linux/admin/src/auth.js:531-537 | lookups that fail or deny never raise a role |
| Quoting.PsQuoteInverts | linux/admin/src/clientconfig.js:30-34 | a value is refused if and only if it holds CR, LF or NUL; otherwise PowerShell reads the literal back as the value and leaves the rest untouched, if and only if the value holds no typographic quote and the rest does not start with a quote |
| Quoting.VerbatimInverts | linux/admin/src/entra-helper.js:77-83 | in the PowerShell variant the redirect URI, line breaks included, is read back as it is and leaves the rest of the script untouched, if and only if it holds no typographic quote and the rest does not start with a quote |
| Quoting.BashQuoteInverts | linux/admin/src/entra-helper.js:77-83 | a POSIX shell reads the quoted word as the value, and leaves the rest untouched where the rest ends the word |
| Quoting.SameNameInBoth | linux/admin/src/entra-helper.js:72-78 | the POSIX shell reads the display name cut at its apostrophes and put together again, and PowerShell the same one if and only if the name holds none of U+2018 to U+201B |
| Quoting.CommentIsSafe | linux/admin/src/clientconfig.js:39-43 | a comment value holds no comment closer, CR, LF or NUL, and is unchanged if and only if it held none |
| Quoting.RunsBecomeSpaces | linux/admin/src/clientconfig.js:39-43 | each whole run of CR, LF and NUL in a comment value becomes one space |
| Quoting.ClosersBecomeParted | linux/admin/src/clientconfig.js:39-43 | each comment closer in it is parted by a space |
| Quoting.BlockClosesAtItsEnd | linux/admin/src/clientconfig.js:107-120 | whatever the display name, the comment block of the generated script closes at its own terminator and nowhere before |
| EditForm.DecimalReadsBack | linux/admin/static/publish-custom.js:496-498 | the decimal text of a success code is read back as that integer, starts with a minus sign if and only if it is negative, and holds only digits and that sign |
| EditFormRoundTrip.TextSurvivesIff | linux/admin/static/publish-custom.js:798-807 | a text comes back from its control if and only if it is trimmed, non-empty where the key is optional, free of line breaks the control drops, and offered by a choice |
| EditFormRoundTrip.BreaksVanish | linux/admin/static/publish-custom.js:692-767 | an input drops the line breaks of the text it is filled with and keeps the rest |
| EditFormRoundTrip.BreaksBecomeLf | linux/admin/static/publish-custom.js:692-767 | a text area holds each CR LF, and each CR on its own, as LF |
| EditFormRoundTrip.ItemsSurviveIff | linux/admin/static/publish-custom.js:490-505 | a list comes back if and only if it is non-empty and its items are non-empty, trimmed, on one line and free of commas |
| EditFormRoundTrip.CodesSurviveIff | linux/admin/static/publish-custom.js:496-498 | integer success codes come back if and only if there are any |
| EditFormRoundTrip.SurvivesIff | linux/admin/static/publish-custom.js:490-523 | for every kind of control, filling and saving gives a value back, or leaves an absent one out, if and only if it survives that control |
| ManifestForms.Form.Fill | linux/admin/static/publish-custom.js:692-767 | the controls of a fresh form after filling: what is written, and the page's own value elsewhere |
| ManifestForms.Form.Save | linux/admin/static/publish-custom.js:442-505 | a key for every control that holds something, and no other |
| ManifestForms.FormRoundTrip | linux/admin/static/publish-custom.js:442-523 | a whole form gives its entry back if and only if every control's value survives |
| EditPage.Card.BuildEntry | linux/admin/static/publish-custom.js:490-521 | the entry of one card, with the digest echoed and the URL echoed in edit mode |
| EditPage.Page.Populate | linux/admin/static/publish-custom.js:692-794 | after filling, the page shows the manifest: one fresh card per installer, in order |
| EditPage.Page.BuildPayload | linux/admin/static/publish-custom.js:442-488 | saving a page that shows a manifest gives the rebuilt manifest |
| EditPageLaws.BinariesKept | linux/admin/static/publish-custom.js:442-521 | saving keeps the installers, their order and their digests, and in edit mode the URLs they had; any other URL is the placeholder that publishing rewrites |
| EditPageLaws.FieldComesBackIff | linux/admin/static/publish-custom.js:490-521 | one field of one installer comes back, or stays absent, if and only if it survives its control |
| EditPageLaws.InstallerValueKeptIff | linux/admin/static/publish-custom.html:865-967 | field by field, which values of an installer an untouched save brings back: of a select those it offers, of an input trimmed one-line texts, of a list input clean items, of codes and JSON all but none, of the seven unfilled fields nothing |
| EditPageLaws.TextValueKeptIff | linux/admin/static/publish-custom.js:692-767 | the same for the texts of the default locale: those saved even when empty, the three text areas, the tags and the inputs |
| EditPageLaws.ManifestRoundTrip | linux/admin/static/publish-custom.js:442-521 | saving an untouched edit page returns the same manifest if and only if every value survives its control, every installer has a URL and the two manifests name one default locale |
| EditPageLaws.UntouchedSaveDrops | linux/admin/static/publish-custom.html:930-965 | the seven installer fields that are never filled come back only when they were absent |
| EditPageLaws.UntouchedSaveAdds | linux/admin/static/publish-custom.html:887-894 | an absent field stays absent, except that scope becomes machine and the installer locale en-US |
| EditPageLaws.UntouchedSaveAddsTexts | linux/admin/static/publish-custom.js:442-488 | of absent texts an untouched save adds only those that are saved even when empty, the licence as `Undefined` |

## Left out

- RollupSchedule.AtMostDouble: is about firings that did happen; that the process is up at 03:30 is not modelled.
- DashboardQueries.Rank: orders rows of equal weight in some fixed but unspecified way, as the engine does.
- Sidecar.Installer.LoadOrCompute: the file does not change while it is being hashed; `PeerDist.ComputePeerDistHashes` covers a file that shrinks after `stat`.
- InstallerServer.Server.Handle: the `/healthz` and `/setup.ps1` routes in front of it are left out; the decoder and `express.static` are parameters, and what a law needs of them is a condition of that law. A lookup of the sidecar cache and a request are one step. Conditional request headers, file names with a backslash or NUL, and an installers root that is not an absolute normalised path are not part of this model.
- InstallerServerLaws.EscapedSidecarDelivered: the decoder it names covers escapes of ASCII characters; multi-byte escapes and path normalisation are not part of this model.
- MarkdownRender.RenderMarkdown: emits blocks, not HTML text; `renderInline` and `slugify` stay opaque, so inline tags are not claimed to nest.
- Solution.LastMergeWins: lower-casing covers ASCII letters only.
- Deployment.Server.HandleSave: takes the sanitised form; `service.yaml` and the `str`/`int`/`arr`/`clamp` defaults are not modelled.
- Deployment.Server.HandleSettingsSave: covers `solution.yaml`; the `service.yaml` half, the backups and the schema itself are not modelled (whether the schema accepts is an input).
- Subnet.ComputeSubnet: IPv6 zone indices and a trailing dotted quad other than the IPv4-mapped prefix are no addresses in this model; they are filed by the same text rule.
- EditPage.Page.Populate: values have the types of the manifest schema; JSON travels through an assumed inverse pair, `Number` is modelled on integers, and manifest keys without a form control, an empty `InstallerSwitches` object and the additional locale cards are not part of this model.
- SQLite, the filesystem, Express, sessions, MSAL and Graph: only the tables, files and answers they carry are modelled.
- 64-bit overflow of SQL sums: counts and sums are unbounded.
- JSON and Base64 of the sidecar file: an encoder and a parser that reads back what it wrote; an unreadable sidecar is an absent one.
- YAML documents whose root is not a mapping, and object spread of strings and lists beyond the empty result.
- `redirectUriFor`, the remaining text of generated scripts, the page chrome and the HTTP proxies: constant text or thin wrappers.
