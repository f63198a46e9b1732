/** What installer clients and the dashboards get from the request handler, over any history of one installer. */
module InstallerServerLaws {
  import opened Prelude
  import opened Bytes
  import opened ContentInfo
  import opened PeerDist
  import opened PeerDistClient
  import opened Sidecar
  import opened Subnet
  import opened InstallerServer
  import opened Numerals
  import opened Text
  import opened Tally
  import opened Dashboard
  import opened DashboardLaws
  import Ledger

  // ----- Content Information replies

  lemma SameSegmentsSameInfo(h: Bytes -> Digest, t1: Tree, t2: Tree, secret: Bytes)
    requires t1.segments == t2.segments
    ensures Encodable(t1, secret) <==> Encodable(t2, secret)
    ensures Encodable(t1, secret) ==> InfoOf(h, t1, secret) == InfoOf(h, t2, secret)
  {
    hide DescribableSegment, ListableSegment, DescriptionsOf, BlocksOf;
  }

  /** The static layer never sends Content Information. */
  ghost predicate Plain(layer: StaticLayer) {
    forall req: Request, content: Option<Bytes> :: !layer(req, content).encoded
  }

  /** The request names `p`, whose file is the outcome of `events`. */
  ghost predicate Names(site: Site, req: Request, files: map<string, File>, p: string, now: Disk) {
    site.decode(req.path) == Some(p) && DiskAt(site, files, p) == Some(now)
  }

  /** Some eight characters of the header spell `peerdist`, in whatever case. */
  predicate SpellsPeerdist(header: string) {
    exists i :: 0 <= i <= |header| - 8 && PeerdistAt(header, i)
  }

  predicate PeerdistAt(header: string, i: nat)
    requires i + 8 <= |header|
  {
    && (header[i] == 'p' || header[i] == 'P') && (header[i + 1] == 'e' || header[i + 1] == 'E')
    && (header[i + 2] == 'e' || header[i + 2] == 'E') && (header[i + 3] == 'r' || header[i + 3] == 'R')
    && (header[i + 4] == 'd' || header[i + 4] == 'D') && (header[i + 5] == 'i' || header[i + 5] == 'I')
    && (header[i + 6] == 's' || header[i + 6] == 'S') && (header[i + 7] == 't' || header[i + 7] == 'T')
  }

  /** What the client says about itself: it takes peerdist encoding, or it sends the X-P2P-PeerDist header. */
  predicate SpeaksPeerdist(req: Request) {
    SpellsPeerdist(req.acceptEncoding) || req.p2pHeader != ""
  }

  predicate EndsLikeSidecar(path: string) {
    || (|path| >= 9 && path[|path| - 9..] == ".peerdist")
    || (|path| >= 13 && path[|path| - 13..] == ".peerdist.tmp")
  }

  predicate AdjacentDots(p: string) {
    exists i :: 0 < i < |p| && p[i - 1] == '.' && p[i] == '.'
  }

  lemma MentionsSpells(header: string)
    ensures Mentions(header, "peerdist") <==> SpellsPeerdist(header)
  {
    forall i: int | 0 <= i <= |header| - 8
      ensures MentionsAt(header, "peerdist", i) <==> PeerdistAt(header, i)
    {
      MentionsWord(header, i);
      hide MentionsAt, PeerdistAt;
    }
    assert |"peerdist"| == 8;
    hide MentionsAt, PeerdistAt;
  }

  lemma MentionsWord(header: string, i: nat)
    requires i + 8 <= |header|
    ensures MentionsAt(header, "peerdist", i) <==> PeerdistAt(header, i)
  {
    LowerIs(header[i], 'p');
    LowerIs(header[i + 1], 'e');
    LowerIs(header[i + 2], 'e');
    LowerIs(header[i + 3], 'r');
    LowerIs(header[i + 4], 'd');
    LowerIs(header[i + 5], 'i');
    LowerIs(header[i + 6], 's');
    LowerIs(header[i + 7], 't');
    EightCharacters(header, i);
    hide ToLower, MentionsAt;
  }

  lemma LowerIs(c: char, small: char)
    requires 'a' <= small <= 'z'
    ensures ToLower(c) == small <==> c == small || c == small - 'a' + 'A'
  {}

  lemma EightCharacters(header: string, i: nat)
    requires i + 8 <= |header|
    ensures MentionsAt(header, "peerdist", i) <==>
      && ToLower(header[i]) == 'p' && ToLower(header[i + 1]) == 'e' && ToLower(header[i + 2]) == 'e'
      && ToLower(header[i + 3]) == 'r' && ToLower(header[i + 4]) == 'd' && ToLower(header[i + 5]) == 'i'
      && ToLower(header[i + 6]) == 's' && ToLower(header[i + 7]) == 't'
  {
    var word := "peerdist";
    assert word[0] == 'p' && word[1] == 'e' && word[2] == 'e' && word[3] == 'r' && word[4] == 'd' && word[5] == 'i';
    assert word[6] == 's' && word[7] == 't' && |word| == 8;
    hide ToLower;
    if MentionsAt(header, word, i) {
      assert ToLower(header[i + 0]) == word[0] && ToLower(header[i + 1]) == word[1];
      assert ToLower(header[i + 2]) == word[2] && ToLower(header[i + 3]) == word[3];
      assert ToLower(header[i + 4]) == word[4] && ToLower(header[i + 5]) == word[5];
      assert ToLower(header[i + 6]) == word[6] && ToLower(header[i + 7]) == word[7];
    }
  }

  lemma NegotiatesIff(req: Request)
    ensures Negotiates(req) <==> SpeaksPeerdist(req)
  {
    MentionsSpells(req.acceptEncoding);
    hide Mentions, SpellsPeerdist;
  }

  lemma PrivateIff(path: string)
    ensures Private(path) <==> EndsLikeSidecar(path)
  {
    assert SUFFIX + ".tmp" == ".peerdist.tmp" && |SUFFIX| == 9;
  }

  lemma TwoDotsIff(p: string)
    ensures HoldsTwoDots(p) <==> AdjacentDots(p)
  {
    if HoldsTwoDots(p) {
      var i :| 0 <= i < |p| - 1 && p[i] == p[i + 1] == '.';
      assert p[i + 1 - 1] == '.';
    }
  }

  /** The guards of the negotiation in terms of the request and the file alone. */
  lemma GuardsIff(enabled: bool, req: Request, p: string, disk: Disk)
    ensures !Private(req.path) && Qualifies(enabled, req, p, Some(disk)) <==>
      && enabled && (req.verb == Get || req.verb == Head) && req.range == Whole && SpeaksPeerdist(req)
      && !EndsLikeSidecar(req.path) && !AdjacentDots(p) && 0 < |disk.content| <= 0x8000_0000
  {
    NegotiatesIff(req);
    PrivateIff(req.path);
    TwoDotsIff(p);
    hide Negotiates, SpeaksPeerdist, Private, EndsLikeSidecar, HoldsTwoDots, AdjacentDots;
  }

  /** After any history that starts without a foreign sidecar, a request is answered with Content Information exactly
      when it passes the guards: the try block never throws. The reply describes a version of the current size whose
      time is within the tolerance, and its body parses with nothing left over (a HEAD reply announces its length). */
  lemma EncodedIff(site: Site, enabled: bool, req: Request, files: map<string, File>, p: string, disk: Disk,
                   events: seq<Event>)
    requires FromVersion(site.h, disk.sidecar, {Current(disk)}) && |site.secret| == SERVER_SECRET_BYTES
    requires Plain(site.layer) && Names(site, req, files, p, Run(site.h, disk, events))
    ensures var now := Run(site.h, disk, events); var reply := Answer(site, enabled, req, files);
      && (reply.encoded <==>
            && enabled && (req.verb == Get || req.verb == Head) && req.range == Whole && SpeaksPeerdist(req)
            && !EndsLikeSidecar(req.path) && !AdjacentDots(p) && 0 < |now.content| <= 0x8000_0000)
      && (reply.encoded ==> exists v :: v in Versions(site.h, disk, events) && CloseTo(v, now)
                                     && BlobFor(site.h, site.secret, req, reply, v))
  {
    var now := Run(site.h, disk, events);
    hide *;
    GuardsIff(enabled, req, p, now);
    AnswerNamed(site, enabled, req, files, p, now);
    NotFoundIsPlain(req.verb);
    if !Private(req.path) {
      QualifiedIff(site.h, enabled, site.secret, req, p, disk, events);
      EncodedOrPlain(site, enabled, req, p, now);
    }
  }

  lemma NotFoundIsPlain(verb: Verb)
    ensures !NotFound(verb).encoded
  {}

  lemma AnswerNamed(site: Site, enabled: bool, req: Request, files: map<string, File>, p: string, now: Disk)
    requires Names(site, req, files, p, now)
    ensures Answer(site, enabled, req, files)
      == if Private(req.path) then NotFound(req.verb) else Dispatch(site, enabled, req, p, Some(now))
  {
    hide Private, NotFound, Dispatch, DiskAt;
  }

  lemma EncodedOrPlain(site: Site, enabled: bool, req: Request, p: string, now: Disk)
    requires Plain(site.layer)
    ensures var encoded := Encoded(site.h, enabled, site.secret, req, p, Some(now));
      var reply := Dispatch(site, enabled, req, p, Some(now));
      (reply.encoded <==> encoded.Some?) && (reply.encoded ==> reply == encoded.value)
  {
    hide Qualifies, Served, Encodable, Print, InfoOf;
  }

  lemma QualifiedIff(h: Bytes -> Digest, enabled: bool, secret: Bytes, req: Request, p: string, disk: Disk,
                     events: seq<Event>)
    requires FromVersion(h, disk.sidecar, {Current(disk)}) && |secret| == SERVER_SECRET_BYTES
    ensures var now := Run(h, disk, events); var reply := Encoded(h, enabled, secret, req, p, Some(now));
      && (reply.Some? <==> Qualifies(enabled, req, p, Some(now)))
      && (reply.Some? ==> exists v :: v in Versions(h, disk, events) && CloseTo(v, now)
                                    && BlobFor(h, secret, req, reply.value, v))
  {
    var now := Run(h, disk, events);
    ServedIsClose(h, disk, events);
    hide Qualifies, CloseTo, Versions, Run, FromVersion;
    if Qualifies(enabled, req, p, Some(now)) {
      Hashable(h, enabled, req, p, now);
      var v :| v in Versions(h, disk, events) && CloseTo(v, now) && TreeFrom(h, Served(h, now).value, v);
      SameSize(v, now);
      ServedSize(h, now, v);
      BlobParses(h, v, secret);
      EncodedBlob(h, enabled, secret, req, p, now, v);
      hide Encoded, BlobFor, TreeFrom, Served;
      assert BlobFor(h, secret, req, Encoded(h, enabled, secret, req, p, Some(now)).value, v);
    }
    hide Served, TreeFrom, BlobFor;
  }

  lemma ServedSize(h: Bytes -> Digest, d: Disk, v: Version)
    requires Served(h, d).Some? && TreeFrom(h, Served(h, d).value, v)
    ensures |v.content| <= MAX_HASHABLE_SIZE && Served(h, d).value == TreeOf(h, v.content, v.mtimeMs.Floor)
  {
    hide Served, TreeOf;
  }

  lemma BlobParses(h: Bytes -> Digest, v: Version, secret: Bytes)
    requires |v.content| <= MAX_HASHABLE_SIZE && |secret| == SERVER_SECRET_BYTES
    ensures var tree := TreeOf(h, v.content, v.mtimeMs.Floor);
      Encodable(tree, secret) && Parse(Print(InfoOf(h, tree, secret))) == Some(InfoOf(h, tree, secret))
  {
    hide *;
    TreeEncodable(h, v.content, v.mtimeMs.Floor, secret);
    EncodedFits(h, TreeOf(h, v.content, v.mtimeMs.Floor), secret);
    ParsesPrinted(InfoOf(h, TreeOf(h, v.content, v.mtimeMs.Floor), secret));
  }

  lemma EncodedBlob(h: Bytes -> Digest, enabled: bool, secret: Bytes, req: Request, p: string, d: Disk, v: Version)
    requires Qualifies(enabled, req, p, Some(d)) && |v.content| == |d.content|
    requires Served(h, d) == Some(TreeOf(h, v.content, v.mtimeMs.Floor))
    requires var tree := TreeOf(h, v.content, v.mtimeMs.Floor);
      Encodable(tree, secret) && Parse(Print(InfoOf(h, tree, secret))) == Some(InfoOf(h, tree, secret))
    ensures var reply := Encoded(h, enabled, secret, req, p, Some(d));
      reply.Some? && BlobFor(h, secret, req, reply.value, v)
  {
    hide Qualifies, Served, TreeOf, InfoOf, Print, Parse, Encodable;
  }

  lemma Hashable(h: Bytes -> Digest, enabled: bool, req: Request, p: string, d: Disk)
    requires Qualifies(enabled, req, p, Some(d))
    ensures Served(h, d).Some?
  {
    hide Asks, HoldsTwoDots;
  }

  lemma SameSize(v: Version, d: Disk)
    requires CloseTo(v, d)
    ensures |v.content| == |d.content|
  {}

  /** The reply of size `|v.content|` whose full body parses to the description of `v`. */
  ghost predicate BlobFor(h: Bytes -> Digest, secret: Bytes, req: Request, reply: Reply, v: Version) {
    && reply.status == 200 && reply.encoded && reply.announced == Some(|v.content|)
    && Encodable(TreeOf(h, v.content, v.mtimeMs.Floor), secret)
    && var info := InfoOf(h, TreeOf(h, v.content, v.mtimeMs.Floor), secret);
    && reply.contentLength == |Print(info)|
    && if req.verb == Head then reply.body == [] else Parse(reply.body) == Some(info)
  }

  /** Reading back a stored sidecar. */
  ghost predicate Faithful(codec: Codec) {
    forall tree :: codec.parse(codec.encode(tree)) == Some(tree)
  }

  lemma SuffixGrows(p: string)
    ensures p + SUFFIX != p && |SUFFIX| > 0
  {
    assert |p + SUFFIX| == |p| + |SUFFIX|;
  }

  /** A request moves the file it names one lookup along its history, or leaves it alone; no other file's content or
      time changes, and nothing is removed. */
  lemma FilesFollowHistory(site: Site, enabled: bool, req: Request, files: map<string, File>, writable: bool,
                           stamp: real, p: string)
    requires Faithful(site.codec) && site.decode(req.path) == Some(p) && p in files
    ensures var after := FilesAfter(site, enabled, req, files, writable, stamp);
      && DiskAt(site, after, p) == Some(if !Private(req.path) && Qualifies(enabled, req, p, DiskAt(site, files, p))
                                        then Apply(site.h, DiskAt(site, files, p).value, Lookup(writable))
                                        else DiskAt(site, files, p).value)
      && (forall q :: q in files && q != p + SUFFIX ==> q in after && after[q] == files[q])
  {
    SuffixGrows(p);
    hide SUFFIX, Private, Qualifies, Served, ReadSidecar;
  }

  // ----- A whole download

  predicate IsSlice(req: Request, content: Bytes) {
    req.verb == Get && req.range.Slice? && req.range.first <= req.range.last < |content|
  }

  /** Some segment of the path starts with a dot. */
  predicate DotFile(p: string) {
    exists part :: part in Split(p, '/') && |part| > 1 && part[0] == '.'
  }

  /** What the static layer does with a GET that names a file: dot files are denied, of any other the whole or a
      satisfiable range is sent. */
  ghost predicate Serves(site: Site, req: Request, content: Bytes) {
    var p, reply := site.decode(req.path), site.layer(req, Some(content));
    p.Some? && req.verb == Get ==>
      if DotFile(p.value) then reply.status == 403
      else
        && (req.range == Whole ==> reply == Reply(200, false, None, |content|, content))
        && (IsSlice(req, content) ==>
              reply.status == 206 && reply.body == content[req.range.first..req.range.last + 1])
  }

  ghost predicate ServesFiles(site: Site) {
    Plain(site.layer) && forall req: Request, content: Bytes :: Serves(site, req, content)
  }

  /** A client that decodes the reply, takes only blocks with the announced hashes, from whomever, and places them has
      the current file byte for byte, or holds a SHA-256 collision; as long as no two versions of one size were less
      than the tolerance apart. */
  lemma ClientRebuilds(site: Site, enabled: bool, req: Request, files: map<string, File>, p: string, disk: Disk,
                       events: seq<Event>, info: Info, chunks: seq<seq<Bytes>>, out: Bytes)
    requires FromVersion(site.h, disk.sidecar, {Current(disk)}) && Separated(Versions(site.h, disk, events))
    requires |site.secret| == SERVER_SECRET_BYTES && Plain(site.layer) && req.verb == Get
    requires Names(site, req, files, p, Run(site.h, disk, events))
    ensures var now := Run(site.h, disk, events); var reply := Answer(site, enabled, req, files);
      reply.encoded && Rebuilt(site.h, reply.body, info, chunks, out) ==>
        out == now.content || SomeCollision(site.h, now.content, chunks)
  {
    var now := Run(site.h, disk, events);
    if Answer(site, enabled, req, files).encoded {
      RepliesWithCurrent(site, enabled, req, files, p, disk, events);
      hide *;
      Reconstruction(site.h, now.content, now.mtimeMs.Floor, site.secret, info, chunks, out);
    }
  }

  /** A Content Information reply is the blob of the current file. */
  lemma RepliesWithCurrent(site: Site, enabled: bool, req: Request, files: map<string, File>, p: string, disk: Disk,
                           events: seq<Event>)
    requires FromVersion(site.h, disk.sidecar, {Current(disk)}) && Separated(Versions(site.h, disk, events))
    requires |site.secret| == SERVER_SECRET_BYTES && Plain(site.layer) && req.verb == Get
    requires Names(site, req, files, p, Run(site.h, disk, events))
    ensures var now := Run(site.h, disk, events); var reply := Answer(site, enabled, req, files);
      reply.encoded ==>
        && 0 < |now.content| <= MAX_HASHABLE_SIZE
        && Encodable(TreeOf(site.h, now.content, now.mtimeMs.Floor), site.secret)
        && reply.body == Print(InfoOf(site.h, TreeOf(site.h, now.content, now.mtimeMs.Floor), site.secret))
  {
    var now := Run(site.h, disk, events);
    ServedIsFresh(site.h, disk, events);
    hide Run, Versions, Separated, FromVersion, Served, Print, Encodable, DiskAt, Private, TreeOf;
    if Answer(site, enabled, req, files).encoded {
      EncodedReply(site, enabled, req, p, now);
      var tree, current := Served(site.h, now).value, TreeOf(site.h, now.content, now.mtimeMs.Floor);
      SameSegmentsSameInfo(site.h, tree, current, site.secret);
      hide InfoOf, Negotiates;
    }
  }

  /** Where an encoded reply comes from. */
  lemma EncodedReply(site: Site, enabled: bool, req: Request, p: string, now: Disk)
    requires Plain(site.layer) && Dispatch(site, enabled, req, p, Some(now)).encoded && req.verb == Get
    ensures 0 < |now.content| <= MAX_HASHABLE_SIZE && Served(site.h, now).Some?
    ensures Encodable(Served(site.h, now).value, site.secret)
    ensures Dispatch(site, enabled, req, p, Some(now)).body
      == Print(InfoOf(site.h, Served(site.h, now).value, site.secret))
  {
    hide Served, Print, InfoOf, Encodable, Asks, HoldsTwoDots;
  }

  /** Block `b` of segment `s` as the blob places it, last byte included. */
  function BlockRange(info: Info, s: nat, b: nat): Range
    requires s < |info.segments| && 0 < info.segments[s].blockSize
    requires b * info.segments[s].blockSize < info.segments[s].length
  {
    var seg := info.segments[s];
    var left := seg.length - b * seg.blockSize;
    Slice(Place(info, s, b), Place(info, s, b) + (if left <= seg.blockSize then left else seg.blockSize) - 1)
  }

  /** A block that no peer has can be had from the server itself: a ranged GET is never answered with Content
      Information, and unless the server withholds the file, as a sidecar or as a dot file, its body is the true block,
      so it carries the announced hash. */
  lemma FallbackSuffices(site: Site, enabled: bool, req: Request, files: map<string, File>, p: string, disk: Disk,
                         info: Info, s: nat, b: nat)
    requires ServesFiles(site) && req.verb == Get && Names(site, req, files, p, disk)
    requires Describes(site.h, info, disk.content) && |disk.content| > 0
    requires s < |info.blocks| && b < |info.blocks[s]|
    ensures 0 < info.segments[s].blockSize && b * info.segments[s].blockSize < info.segments[s].length
    ensures var reply := Answer(site, enabled, req.(range := BlockRange(info, s, b)), files);
      && !reply.encoded && (reply.status == 206 <==> !EndsLikeSidecar(req.path) && !DotFile(p))
      && (reply.status == 206 ==> reply.body == BlockAt(disk.content, s, b) && site.h(reply.body) == info.blocks[s][b])
  {
    hide *;
    SameRange(site.h, info, disk.content, s, b);
    TrueHash(site.h, info, disk.content, s, b);
    var ranged := req.(range := BlockRange(info, s, b));
    RangeOnly(site, req, files, p, disk, BlockRange(info, s, b));
    PrivateIff(req.path);
    AnswerNamed(site, enabled, ranged, files, p, disk);
    NotFoundIs404(req.verb);
    RangedReply(site, enabled, ranged, p, disk);
  }

  lemma RangeOnly(site: Site, req: Request, files: map<string, File>, p: string, disk: Disk, range: Range)
    requires req.verb == Get && Names(site, req, files, p, disk)
    requires range.Slice? && range.first <= range.last < |disk.content|
    ensures Names(site, req.(range := range), files, p, disk) && IsSlice(req.(range := range), disk.content)
    ensures site.decode(req.(range := range).path) == Some(p)
  {
    hide DiskAt;
  }

  lemma NotFoundIs404(verb: Verb)
    ensures NotFound(verb).status == 404 && !NotFound(verb).encoded
  {}

  lemma TrueHash(h: Bytes -> Digest, info: Info, file: Bytes, s: nat, b: nat)
    requires Describes(h, info, file) && s < |info.blocks| && b < |info.blocks[s]|
    ensures s < SegmentCount(|file|) && b < BlockCount(SegmentLength(|file|, s))
    ensures h(BlockAt(file, s, b)) == info.blocks[s][b]
  {
    hide BlockAt, SegmentCount, SegmentLength, BlockCount;
  }

  lemma RangedReply(site: Site, enabled: bool, req: Request, p: string, disk: Disk)
    requires ServesFiles(site) && IsSlice(req, disk.content) && site.decode(req.path) == Some(p)
    ensures var reply := Dispatch(site, enabled, req, p, Some(disk));
      && !reply.encoded && (reply.status == 206 <==> !DotFile(p))
      && (!DotFile(p) ==> reply.body == disk.content[req.range.first..req.range.last + 1])
  {
    assert Serves(site, req, disk.content);
    hide Negotiates, Served, HoldsTwoDots, DotFile;
  }

  lemma SameRange(h: Bytes -> Digest, info: Info, file: Bytes, s: nat, b: nat)
    requires Describes(h, info, file) && |file| > 0 && s < |info.blocks| && b < |info.blocks[s]|
    ensures s < |info.segments|
    ensures 0 < info.segments[s].blockSize && b * info.segments[s].blockSize < info.segments[s].length
    ensures var at, length := SegmentStart(s) + BlockStart(b), BlockLength(SegmentLength(|file|, s), b);
      && 0 < length && at + length <= |file| && BlockRange(info, s, b) == Slice(at, at + length - 1)
      && BlockAt(file, s, b) == file[at..at + length]
  {
    Tiling(|file|);
    BlockTiling(SegmentLength(|file|, s));
    hide SegmentCount, SegmentLength, BlockCount;
  }

  // ----- The ledger

  /** Every row is filed under the subnet of its client. */
  ghost predicate FiledBySubnet(rows: seq<Ledger.Row>) {
    forall r :: r in rows ==> r.subnet == ComputeSubnet(r.ip)
  }

  /** The static layer sends nothing in answer to HEAD. */
  ghost predicate SilentOnHead(layer: StaticLayer) {
    forall req: Request, content: Option<Bytes> :: req.verb == Head ==> layer(req, content).body == []
  }

  lemma HeadIsSilent(site: Site, enabled: bool, req: Request, files: map<string, File>)
    requires SilentOnHead(site.layer) && req.verb == Head
    ensures Answer(site, enabled, req, files).body == []
  {
    hide Private, Asks, Served, Print, Encodable, Qualifies, DiskAt;
  }

  /** Whatever the handler files keeps that, and a HEAD request never counts as a delivery. */
  lemma FiledRows(site: Site, enabled: bool, req: Request, files: map<string, File>, rows: seq<Ledger.Row>, now: nat,
                  durationMs: nat)
    requires FiledBySubnet(rows) && SilentOnHead(site.layer)
    ensures var reply := Answer(site, enabled, req, files);
      var row := RowOf(req, SizeOf(site, req, files), reply, now, durationMs);
      && FiledBySubnet(Filed(rows, row))
      && (row.Some? && req.verb == Head ==> !Ledger.Delivers(row.value))
  {
    if req.verb == Head {
      HeadIsSilent(site, enabled, req, files);
    }
    hide ComputeSubnet, Negotiates, Answer, SizeOf;
  }

  /** A Content Information reply counts as a delivery of exactly as many bytes as its structure has. */
  lemma EncodedRow(site: Site, enabled: bool, req: Request, files: map<string, File>, p: string, now: nat,
                   durationMs: nat)
    requires !EndsLikeSidecar(req.path) && site.decode(req.path) == Some(p) && req.verb == Get
    requires Encoded(site.h, enabled, site.secret, req, p, DiskAt(site, files, p)).Some?
    ensures var reply := Answer(site, enabled, req, files);
      var row := RowOf(req, SizeOf(site, req, files), reply, now, durationMs);
      && row.Some? && Ledger.Delivers(row.value) && row.value.peerdist
      && row.value.sent == reply.contentLength && p in files && row.value.size == |files[p].content|
  {
    BlobNotEmpty(site.h, DiskAt(site, files, p).value, site.secret);
    PrivateIff(req.path);
    hide Print, Private, EndsLikeSidecar, Served, Encodable, ComputeSubnet, Negotiates;
  }

  lemma BlobNotEmpty(h: Bytes -> Digest, d: Disk, secret: Bytes)
    ensures Served(h, d).Some? && Encodable(Served(h, d).value, secret) ==>
      |Print(InfoOf(h, Served(h, d).value, secret))| >= 18
  {
    if Served(h, d).Some? && Encodable(Served(h, d).value, secret) {
      PrintedLength(InfoOf(h, Served(h, d).value, secret));
      hide *;
    }
  }

  /** So on any ledger the handler filled, the dashboard's subnet rows add up to its headline, with no further
      condition. */
  lemma SubnetRowsAddUp(rows: seq<Ledger.Row>, cutoff: nat)
    requires FiledBySubnet(rows)
    ensures var view, head := Subnets(rows, cutoff), Headline(rows, cutoff);
      && Sum(ViewColumn(view, Installs)) == head.installs
      && Sum(ViewColumn(view, PeerInstalls)) == head.peerInstalls
      && Sum(ViewColumn(view, Egress)) == head.actual
  {
    assert SubnetFixedByIp(rows) by {
      hide ComputeSubnet;
    }
    SubnetsAgree(rows, cutoff);
    hide *;
  }

  // ----- Sidecars

  /** decodeURIComponent, on escapes of ASCII characters. */
  function PercentDecode(s: string): Option<string> {
    if s == "" then Some("")
    else if s[0] != '%' then (var rest := PercentDecode(s[1..]); if rest.None? then None else Some([s[0]] + rest.value))
    else if |s| < 3 || Escaped(s[1], s[2]).None? then None
    else (var rest := PercentDecode(s[3..]);
          if rest.None? then None else Some([Escaped(s[1], s[2]).value] + rest.value))
  }

  function Escaped(a: char, b: char): Option<char> {
    var high, low := DigitValue(Sixteen, a), DigitValue(Sixteen, b);
    if high.None? || low.None? || 16 * high.value + low.value >= 128 then None
    else Some((16 * high.value + low.value) as char)
  }

  lemma {:induction false} PlainStart(a: string, b: string)
    requires Without(a, '%')
    ensures PercentDecode(a + b) == if PercentDecode(b).None? then None else Some(a + PercentDecode(b).value)
  {
    if a == "" {
      assert a + b == b;
      assert PercentDecode(b).Some? ==> "" + PercentDecode(b).value == PercentDecode(b).value;
    } else {
      PlainStart(a[1..], b);
      assert (a + b)[1..] == a[1..] + b && [a[0]] + a[1..] == a;
      if PercentDecode(b).Some? {
        assert [a[0]] + (a[1..] + PercentDecode(b).value) == a + PercentDecode(b).value;
      }
    }
  }

  /** The guard for sidecars sees the path as it was sent, everything behind it the decoded one: a plain GET that
      decodes to a stored file, a sidecar or not, gets that file exactly when the path as it was sent does not end
      like a sidecar's and the decoded one is no dot file. */
  lemma DeliveredIff(site: Site, enabled: bool, req: Request, files: map<string, File>, p: string)
    requires ServesFiles(site) && req.verb == Get && req.range == Whole && !SpeaksPeerdist(req)
    requires site.decode(req.path) == Some(p) && p in files
    ensures var reply := Answer(site, enabled, req, files);
      (reply.status == 200 && reply.body == files[p].content) <==> !EndsLikeSidecar(req.path) && !DotFile(p)
  {
    assert Serves(site, req, files[p].content);
    PrivateIff(req.path);
    NegotiatesIff(req);
    hide Private, EndsLikeSidecar, Negotiates, SpeaksPeerdist, HoldsTwoDots, DotFile;
  }

  /** A path sent without escapes is what it decodes to, so then the guard does keep sidecars private. */
  lemma UnescapedIsGuarded(path: string)
    requires Without(path, '%')
    ensures PercentDecode(path) == Some(path)
  {
    PlainStart(path, "");
    assert path + "" == path;
    hide Without;
  }

  /** But every sidecar path has a spelling that the guard does not see: with its last letter escaped. */
  lemma EscapedIsNotGuarded(base: string)
    requires Without(base, '%')
    ensures var sent := base + ".peerdis%74";
      && PercentDecode(sent) == Some(base + ".peerdist")
      && EndsLikeSidecar(base + ".peerdist") && !EndsLikeSidecar(sent)
  {
    var sent, front := base + ".peerdis%74", base + ".peerdis";
    assert sent == front + "%74" && base + ".peerdist" == front + "t";
    PlainStart(front, "%74");
    LastEscape();
    NotASidecar(sent);
    assert sent[|sent| - 1] == '4';
    assert (base + ".peerdist")[|base|..] == ".peerdist";
    hide PercentDecode, Without;
  }

  lemma NotASidecar(path: string)
    requires path != "" && path[|path| - 1] != 't' && path[|path| - 1] != 'p'
    ensures !EndsLikeSidecar(path)
  {
    SidecarEnding(path);
    hide EndsLikeSidecar;
  }

  lemma SidecarEnding(path: string)
    ensures EndsLikeSidecar(path) ==> path != "" && (path[|path| - 1] == 't' || path[|path| - 1] == 'p')
  {
    if EndsLikeSidecar(path) {
      if path[|path| - 9..] == ".peerdist" {
        assert path[|path| - 9..][8] == path[|path| - 1];
      } else {
        assert path[|path| - 13..][12] == path[|path| - 1];
      }
    }
  }

  lemma GuardedIs404(site: Site, enabled: bool, req: Request, files: map<string, File>)
    requires EndsLikeSidecar(req.path)
    ensures var reply := Answer(site, enabled, req, files);
      && reply.status == 404 && !reply.encoded && reply.contentLength == 9
      && if req.verb == Head then reply.body == []
         else |reply.body| == 9 && forall i :: 0 <= i < 9 ==> reply.body[i] == "Not found"[i] as int
  {
    PrivateIff(req.path);
    hide Private, EndsLikeSidecar, Dispatch;
  }

  /** A path that does not decode reaches the static layer, except that a request which asks for Content Information
      fails: that decoding is outside the block whose errors are caught. */
  lemma MalformedPath(site: Site, enabled: bool, req: Request, files: map<string, File>, writable: bool, stamp: real)
    requires site.decode(req.path) == None && !EndsLikeSidecar(req.path)
    ensures var reply := Answer(site, enabled, req, files);
      if enabled && (req.verb == Get || req.verb == Head) && req.range == Whole && SpeaksPeerdist(req)
      then reply.status == 500 && !reply.encoded && reply.body == (if req.verb == Head then [] else site.errorPage)
      else reply == site.layer(req, None)
    ensures FilesAfter(site, enabled, req, files, writable, stamp) == files && SizeOf(site, req, files) == 0
  {
    PrivateIff(req.path);
    NegotiatesIff(req);
    hide Private, EndsLikeSidecar, Negotiates, SpeaksPeerdist, Dispatch, Qualifies, Stored, DiskAt;
  }

  /** So a sidecar that is not found under its own name is delivered under that spelling, unless it is a dot file. */
  lemma EscapedSidecarDelivered(site: Site, enabled: bool, req: Request, files: map<string, File>, base: string)
    requires ServesFiles(site) && req.verb == Get && req.range == Whole && !SpeaksPeerdist(req) && Without(base, '%')
    requires site.decode(base + ".peerdis%74") == PercentDecode(base + ".peerdis%74") && base + ".peerdist" in files
    ensures Answer(site, enabled, req.(path := base + ".peerdist"), files).status == 404
    ensures var reply := Answer(site, enabled, req.(path := base + ".peerdis%74"), files);
      (reply.status == 200 && reply.body == files[base + ".peerdist"].content) <==> !DotFile(base + ".peerdist")
  {
    hide *;
    EscapedIsNotGuarded(base);
    SamePlea(req, base + ".peerdis%74");
    GuardedIs404(site, enabled, req.(path := base + ".peerdist"), files);
    DeliveredIff(site, enabled, req.(path := base + ".peerdis%74"), files, base + ".peerdist");
  }

  lemma SamePlea(req: Request, path: string)
    ensures SpeaksPeerdist(req.(path := path)) <==> SpeaksPeerdist(req)
  {
    hide SpellsPeerdist;
  }

  // ----- Names with two dots

  /** A file whose decoded path holds two adjacent dots, as in `a..exe`, is still served, but never as Content
      Information, and its downloads are no deliveries: the ledger takes its size for 0. */
  lemma TwoDotsFallThrough(site: Site, enabled: bool, req: Request, files: map<string, File>, p: string, writable: bool,
                           stamp: real, now: nat, durationMs: nat)
    requires site.decode(req.path) == Some(p) && AdjacentDots(p) && !EndsLikeSidecar(req.path)
    ensures Answer(site, enabled, req, files) == site.layer(req, ContentOf(DiskAt(site, files, p)))
    ensures FilesAfter(site, enabled, req, files, writable, stamp) == files && SizeOf(site, req, files) == 0
    ensures var row := RowOf(req, SizeOf(site, req, files), Answer(site, enabled, req, files), now, durationMs);
      row.Some? ==> row.value.size == 0 && !Ledger.Delivers(row.value)
  {
    TwoDotsIff(p);
    PrivateIff(req.path);
    hide HoldsTwoDots, AdjacentDots, Private, EndsLikeSidecar, DiskAt, Asks, Served, Negotiates, ComputeSubnet;
  }

  /** So they show in none of the four views. */
  lemma TwoDotsInNoView(site: Site, enabled: bool, req: Request, files: map<string, File>, p: string, now: nat,
                        durationMs: nat, rows: seq<Ledger.Row>, cutoff: nat)
    requires site.decode(req.path) == Some(p) && AdjacentDots(p) && !EndsLikeSidecar(req.path)
    ensures var row := RowOf(req, SizeOf(site, req, files), Answer(site, enabled, req, files), now, durationMs);
      var filed := Filed(rows, row);
      && Headline(filed, cutoff) == Headline(rows, cutoff) && Subnets(filed, cutoff) == Subnets(rows, cutoff)
      && Days(filed, cutoff) == Days(rows, cutoff) && Installers(filed, cutoff) == Installers(rows, cutoff)
  {
    TwoDotsFallThrough(site, enabled, req, files, p, false, 0.0, now, durationMs);
    hide *;
    NoDeliveryNoView(rows, RowOf(req, SizeOf(site, req, files), Answer(site, enabled, req, files), now, durationMs),
                     cutoff);
  }

  lemma NoDeliveryNoView(rows: seq<Ledger.Row>, row: Option<Ledger.Row>, cutoff: nat)
    requires row.Some? ==> !Ledger.Delivers(row.value)
    ensures var filed := Filed(rows, row);
      && Headline(filed, cutoff) == Headline(rows, cutoff) && Subnets(filed, cutoff) == Subnets(rows, cutoff)
      && Days(filed, cutoff) == Days(rows, cutoff) && Installers(filed, cutoff) == Installers(rows, cutoff)
  {
    if row.Some? {
      Ledger.WhereSnoc(rows, row.value, Ledger.DeliveredSince(cutoff));
      assert Ledger.Window(rows + [row.value], cutoff) == Ledger.Window(rows, cutoff);
    }
    hide Ledger.Window, Ledger.GroupBy, Sum;
  }

  /** Such paths are plain: a package identifier may hold two dots. */
  lemma TwoDotsName()
    ensures var path := "/a..exe";
      AdjacentDots(path) && PercentDecode(path) == Some(path) && !EndsLikeSidecar(path) && !DotFile(path)
  {
    var path := "/a..exe";
    assert path[2] == path[3] == '.' && path[6] == 'e';
    NotASidecar(path);
    assert Without(path, '%');
    hide *;
    UnescapedIsGuarded(path);
    OneNameIsNoDotFile("a..exe");
    assert path == "/" + "a..exe";
  }

  lemma OneNameIsNoDotFile(name: string)
    requires name == "a..exe"
    ensures !DotFile("/" + name)
  {
    assert "/" + name == "" + ['/'] + name && Without(name, '/');
    SplitHead("", '/', name);
    SplitHead(name, '/', "");
    assert forall part :: part in [""] + [name] ==> part == "" || part == name;
    assert name[0] == 'a';
    hide Split;
  }

  lemma LastEscape()
    ensures PercentDecode("%74") == Some("t")
  {
    var s := "%74";
    assert s[3..] == "" && PercentDecode("") == Some("");
    assert DigitValue(Sixteen, s[1]) == Some(7) && DigitValue(Sixteen, s[2]) == Some(4);
    assert 't' as int == 116 && Escaped(s[1], s[2]) == Some('t');
    assert ['t'] + "" == "t";
  }
}
