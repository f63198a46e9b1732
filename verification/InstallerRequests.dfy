/** Single requests to the installer server, from the text of the request to the row in the ledger. */
module InstallerRequests {
  import opened Prelude
  import opened Bytes
  import opened PeerDist
  import opened Sidecar
  import opened Subnet
  import opened InstallerServer
  import opened InstallerServerLaws
  import opened Dashboard
  import opened Views
  import Ledger

  // ----- Two everyday requests

  /** A browser that asks for a stored installer gets the file itself. */
  lemma BrowserGetsTheFile(site: Site, enabled: bool, req: Request, files: map<string, File>, p: string)
    requires ServesFiles(site) && site.decode(req.path) == Some(p) && p in files
    requires req.verb == Get && req.range == Whole && req.acceptEncoding == "gzip, deflate, br" && req.p2pHeader == ""
    requires !EndsLikeSidecar(req.path) && !DotFile(p)
    ensures var reply := Answer(site, enabled, req, files);
      reply.status == 200 && !reply.encoded && reply.body == files[p].content
  {
    NoPeerdistIn(req.acceptEncoding);
    hide *;
    NothingSpoken(req);
    DeliveredIff(site, enabled, req, files, p);
    PlainReply(site, enabled, req, files, p);
  }

  lemma NoPeerdistIn(header: string)
    requires header == "gzip, deflate, br"
    ensures !SpellsPeerdist(header)
  {
    assert |header| == 17;
    forall i: int | 0 <= i <= |header| - 8
      ensures !PeerdistAt(header, i)
    {
      assert header[i] == 'p' || header[i] == 'P' ==> i == 3;
      assert header[4] == ',';
    }
    hide PeerdistAt;
  }

  lemma NothingSpoken(req: Request)
    ensures SpeaksPeerdist(req) <==> SpellsPeerdist(req.acceptEncoding) || req.p2pHeader != ""
  {
    hide SpellsPeerdist;
  }

  lemma PlainReply(site: Site, enabled: bool, req: Request, files: map<string, File>, p: string)
    requires ServesFiles(site) && !SpeaksPeerdist(req)
    ensures !Answer(site, enabled, req, files).encoded
  {
    NegotiatesIff(req);
    hide Negotiates, SpeaksPeerdist, Private, HoldsTwoDots, Served, DiskAt, Serves;
  }

  /** A client that only says `identity, peerdist`, as BITS does, gets Content Information while the feature is on. */
  lemma PeerClientGetsInformation(site: Site, req: Request, files: map<string, File>, p: string, disk: Disk,
                                  events: seq<Event>)
    requires FromVersion(site.h, disk.sidecar, {Current(disk)}) && |site.secret| == 32 && Plain(site.layer)
    requires Names(site, req, files, p, Run(site.h, disk, events))
    requires req.verb == Get && req.range == Whole && req.acceptEncoding == "identity, peerdist" && req.p2pHeader == ""
    requires !EndsLikeSidecar(req.path) && !AdjacentDots(p)
    requires 0 < |Run(site.h, disk, events).content| <= 0x8000_0000
    ensures Answer(site, true, req, files).encoded && !Answer(site, false, req, files).encoded
  {
    PeerdistIn(req.acceptEncoding);
    hide *;
    NothingSpoken(req);
    EncodedIff(site, true, req, files, p, disk, events);
    EncodedIff(site, false, req, files, p, disk, events);
  }

  lemma PeerdistIn(header: string)
    requires header == "identity, peerdist"
    ensures SpellsPeerdist(header)
  {
    assert |header| == 18 && PeerdistAt(header, 10);
  }

  // ----- The row that is filed

  /** What the finish hook files of a request and its reply. */
  lemma FiledRow(req: Request, size: nat, reply: Reply, now: nat, durationMs: nat)
    ensures var row := RowOf(req, size, reply, now, durationMs);
      && (row.Some? <==> (req.verb == Get || req.verb == Head) && (size > 0 || |reply.body| >= 200))
      && (row.Some? ==>
            var r := row.value;
            && r.ts == now && r.path == req.path && r.ua == req.ua && r.durationMs == durationMs
            && r.ip == (if req.ip == "" then "0.0.0.0" else req.ip) && r.subnet == ComputeSubnet(r.ip)
            && r.size == size && r.sent == |reply.body| && r.status == reply.status
            && (r.peerdist <==> SpeaksPeerdist(req)))
  {
    NegotiatesIff(req);
    hide Negotiates, SpeaksPeerdist, ComputeSubnet;
  }

  /** The size it files is that of the file the request names, unless its path holds two adjacent dots. */
  lemma FiledSize(site: Site, req: Request, files: map<string, File>, p: string)
    requires site.decode(req.path) == Some(p) && p in files
    ensures SizeOf(site, req, files) == if AdjacentDots(p) then 0 else |files[p].content|
  {
    TwoDotsIff(p);
    hide HoldsTwoDots, AdjacentDots;
  }

  /** The answer to a ranged GET, as BITS sends them, is filed as a delivery of exactly the bytes of the range. */
  lemma RangedDelivery(site: Site, enabled: bool, req: Request, files: map<string, File>, p: string, now: nat,
                       durationMs: nat)
    requires ServesFiles(site) && site.decode(req.path) == Some(p) && p in files && IsSlice(req, files[p].content)
    requires !EndsLikeSidecar(req.path) && !DotFile(p) && !AdjacentDots(p)
    ensures var row := RowOf(req, SizeOf(site, req, files), Answer(site, enabled, req, files), now, durationMs);
      && row.Some? && row.value.status == 206 && row.value.size == |files[p].content| > 0
      && row.value.sent == req.range.last - req.range.first + 1
  {
    var disk := NamedDisk(site, req, files, p);
    PrivateIff(req.path);
    SliceShape(req, files[p].content);
    hide *;
    AnswerNamed(site, enabled, req, files, p, disk);
    RangedReply(site, enabled, req, p, disk);
    FiledSize(site, req, files, p);
    FiledRow(req, SizeOf(site, req, files), Answer(site, enabled, req, files), now, durationMs);
    RangedStatus(site, enabled, req, p, disk);
  }

  lemma NamedDisk(site: Site, req: Request, files: map<string, File>, p: string) returns (disk: Disk)
    requires site.decode(req.path) == Some(p) && p in files
    ensures Names(site, req, files, p, disk) && disk.content == files[p].content
  {
    disk := DiskAt(site, files, p).value;
  }

  lemma SliceShape(req: Request, content: Bytes)
    ensures IsSlice(req, content) ==>
      req.verb == Get && req.range.Slice? && req.range.first <= req.range.last < |content|
  {}

  lemma RangedStatus(site: Site, enabled: bool, req: Request, p: string, disk: Disk)
    requires ServesFiles(site) && IsSlice(req, disk.content) && site.decode(req.path) == Some(p) && !DotFile(p)
    ensures Dispatch(site, enabled, req, p, Some(disk)).status == 206
  {
    RangedReply(site, enabled, req, p, disk);
    hide *;
  }

  /** And the whole file, sent to a client that does not speak PeerDist, as one of all its bytes. */
  lemma WholeDelivery(site: Site, enabled: bool, req: Request, files: map<string, File>, p: string, now: nat,
                      durationMs: nat)
    requires ServesFiles(site) && site.decode(req.path) == Some(p) && p in files && |files[p].content| > 0
    requires req.verb == Get && req.range == Whole && !SpeaksPeerdist(req)
    requires !EndsLikeSidecar(req.path) && !DotFile(p) && !AdjacentDots(p)
    ensures var row := RowOf(req, SizeOf(site, req, files), Answer(site, enabled, req, files), now, durationMs);
      && row.Some? && row.value.status == 200 && !row.value.peerdist
      && row.value.size == row.value.sent == |files[p].content|
  {
    hide *;
    DeliveredIff(site, enabled, req, files, p);
    FiledSize(site, req, files, p);
    FiledRow(req, SizeOf(site, req, files), Answer(site, enabled, req, files), now, durationMs);
  }

  /** Such rows count: the headline's egress grows by what they sent, as long as they are in the window. */
  lemma DeliveryCounts(rows: seq<Ledger.Row>, row: Ledger.Row, now: nat, days: real)
    requires (row.status == 200 || row.status == 206) && row.size > 0 && row.sent > 0 && 0.0 <= days
    requires row.ts as real >= now as real - days * 86_400_000.0
    ensures DeliveredIn(rows + [row], now, days) == DeliveredIn(rows, now, days) + [row]
  {
    Ledger.WhereSnoc(rows, row, CountedIn(now, days));
    hide Ledger.Where;
  }
}
