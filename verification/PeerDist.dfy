/** The hash tree and encoder of peerdist.js.  SHA-256 is a parameter `h`; a digest travels as its 32 bytes. */
module PeerDist {
  import opened Prelude
  import opened Bytes
  import opened ContentInfo

  const MAX_HASHABLE_SIZE: nat := 0x8000_0000
  const SEGMENT_SIZE: nat := 0x200_0000
  const BLOCK_SIZE: nat := 0x1_0000
  const SIDECAR_SCHEMA_VERSION: nat := 2
  const HASH_ALGO_SHA256: nat := 0x800C
  const CONTENT_INFO_VERSION: nat := 0x0100
  const SERVER_SECRET_BYTES: nat := 32

  // Chunk arithmetic, with the two sizes written out to keep it linear.
  /** `Math.max(1, Math.ceil(size / SEGMENT_SIZE))`. */
  function SegmentCount(size: nat): nat {
    if size == 0 then 1 else (size + 0x1ff_ffff) / 0x200_0000
  }

  function SegmentStart(s: nat): nat { s * 0x200_0000 }

  function SegmentLength(size: nat, s: nat): nat
    requires s < SegmentCount(size)
  {
    var left := size - SegmentStart(s);
    if left <= SEGMENT_SIZE then left else SEGMENT_SIZE
  }

  /** `Math.max(1, Math.ceil(segLen / BLOCK_SIZE))`. */
  function BlockCount(length: nat): nat {
    if length == 0 then 1 else (length + 0xffff) / 0x1_0000
  }

  function BlockStart(b: nat): nat { b * 0x1_0000 }

  function BlockLength(length: nat, b: nat): nat
    requires b < BlockCount(length)
  {
    var left := length - BlockStart(b);
    if left <= BLOCK_SIZE then left else BLOCK_SIZE
  }

  /** The bytes of block `b` of segment `s`. */
  function BlockAt(file: Bytes, s: nat, b: nat): Bytes
    requires s < SegmentCount(|file|) && b < BlockCount(SegmentLength(|file|, s))
  {
    var at := SegmentStart(s) + BlockStart(b);
    file[at..at + BlockLength(SegmentLength(|file|, s), b)]
  }

  datatype Segment = Segment(offset: nat, length: nat, blockHashes: seq<Bytes>, hod: Bytes)

  /** The envelope written to the sidecar; the path and the constant fields are left out. */
  datatype Tree = Tree(schemaVersion: nat, fileSize: nat, mtimeMs: int, segments: seq<Segment>)

  function BlockHashes(h: Bytes -> Digest, file: Bytes, s: nat): seq<Digest>
    requires s < SegmentCount(|file|)
  {
    seq<Digest>(BlockCount(SegmentLength(|file|, s)),
                b requires 0 <= b < BlockCount(SegmentLength(|file|, s)) => h(BlockAt(file, s, b)))
  }

  function SegmentOf(h: Bytes -> Digest, file: Bytes, s: nat): Segment
    requires s < SegmentCount(|file|)
  {
    var hashes := BlockHashes(h, file, s);
    Segment(SegmentStart(s), SegmentLength(|file|, s), hashes, h(Flatten(hashes)))
  }

  function TreeOf(h: Bytes -> Digest, file: Bytes, mtimeMs: int): Tree {
    Tree(SIDECAR_SCHEMA_VERSION, |file|, mtimeMs,
         seq(SegmentCount(|file|), s requires 0 <= s < SegmentCount(|file|) => SegmentOf(h, file, s)))
  }

  // ----- Computing the tree

  datatype HashError = TooLarge(size: nat) | ShortRead(offset: nat, expected: nat, got: nat)

  /** fs.readSync at a position: fewer bytes when the file ends early. */
  method ReadAt(data: Bytes, buf: array<Byte>, len: nat, offset: nat) returns (read: nat)
    requires len <= buf.Length
    modifies buf
    ensures read == if offset + len <= |data| then len else if offset <= |data| then |data| - offset else 0
    ensures buf[..read] == if offset <= |data| then data[offset..offset + read] else []
  {
    read := if offset + len <= |data| then len else if offset <= |data| then |data| - offset else 0;
    forall i | 0 <= i < read {
      buf[i] := data[offset + i];
    }
  }

  /** The bytes a complete read of one block delivers. */
  lemma BlockRead(data: Bytes, size: nat, s: nat, b: nat)
    requires s < SegmentCount(size) && b < BlockCount(SegmentLength(size, s)) && size <= |data|
    ensures var at, len := SegmentStart(s) + BlockStart(b), BlockLength(SegmentLength(size, s), b);
      at + len <= size && data[at..at + len] == BlockAt(data[..size], s, b)
  {}

  /** The block loop of one segment. */
  method HashSegment(h: Bytes -> Digest, size: nat, data: Bytes, s: nat, buf: array<Byte>)
    returns (r: Result<Segment, HashError>)
    requires s < SegmentCount(size) && buf.Length == BLOCK_SIZE
    modifies buf
    ensures r.Ok? <==> SegmentStart(s) + SegmentLength(size, s) <= |data|
    ensures r.Ok? && size <= |data| ==> r.value == SegmentOf(h, data[..size], s)
    ensures r.Err? ==> r.error.ShortRead? && r.error.got < r.error.expected
  {
    var segOffset, segLen := SegmentStart(s), SegmentLength(size, s);
    var blockCount := BlockCount(segLen);
    var blockHashes: seq<Digest> := [];
    var b := 0;
    while b < blockCount
      invariant 0 <= b <= blockCount && |blockHashes| == b
      invariant b > 0 ==> segOffset + BlockStart(b - 1) + BlockLength(segLen, b - 1) <= |data|
      invariant size <= |data| ==> forall i :: 0 <= i < b ==> blockHashes[i] == h(BlockAt(data[..size], s, i))
    {
      hide SegmentCount, SegmentStart, SegmentLength, BlockCount, BlockStart;
      var blockOffset, len := segOffset + BlockStart(b), BlockLength(segLen, b);
      var read := ReadAt(data, buf, len, blockOffset);
      if read != len {
        return Err(ShortRead(blockOffset, len, read));
      }
      if size <= |data| {
        BlockRead(data, size, s, b);
      }
      blockHashes := blockHashes + [h(buf[..len])];
      b := b + 1;
    }
    var hod := h(Flatten(blockHashes));
    if size <= |data| {
      assert blockHashes == BlockHashes(h, data[..size], s);
    }
    r := Ok(Segment(segOffset, segLen, blockHashes, hod));
  }

  /** computePeerDistHashes: `size` and `mtimeMs` are what stat reported, `data` what the reads then see. */
  method ComputePeerDistHashes(h: Bytes -> Digest, size: nat, mtimeMs: real, data: Bytes)
    returns (r: Result<Tree, HashError>)
    ensures r.Ok? <==> size <= MAX_HASHABLE_SIZE && size <= |data|
    ensures r.Ok? ==> r.value == TreeOf(h, data[..size], mtimeMs.Floor)
    ensures r.Err? && size > MAX_HASHABLE_SIZE ==> r.error == TooLarge(size)
    ensures r.Err? && size <= MAX_HASHABLE_SIZE ==> r.error.ShortRead?
  {
    if size > MAX_HASHABLE_SIZE {
      return Err(TooLarge(size));
    }
    var segmentCount := SegmentCount(size);
    var segments: seq<Segment> := [];
    var buf := new Byte[BLOCK_SIZE];
    var s := 0;
    while s < segmentCount
      invariant 0 <= s <= segmentCount && |segments| == s
      invariant s > 0 ==> SegmentStart(s - 1) + SegmentLength(size, s - 1) <= |data|
      invariant size <= |data| ==> forall i :: 0 <= i < s ==> segments[i] == SegmentOf(h, data[..size], i)
    {
      var segment := HashSegment(h, size, data, s, buf);
      if segment.Err? {
        return Err(segment.error);
      }
      segments := segments + [segment.value];
      s := s + 1;
    }
    r := Ok(Tree(SIDECAR_SCHEMA_VERSION, size, mtimeMs.Floor, segments));
    assert size <= |data| && segments == TreeOf(h, data[..size], mtimeMs.Floor).segments;
  }

  // ----- Tiling

  /** Segments tile the file, blocks tile each segment, and only the file's last block may be short; an empty file is
      one empty block. */
  lemma Tiling(size: nat)
    ensures SegmentStart(0) == 0
    ensures forall s :: 0 <= s < SegmentCount(size) ==>
      && SegmentStart(s) + SegmentLength(size, s)
         == (if s + 1 < SegmentCount(size) then SegmentStart(s + 1) else size)
      && (s + 1 < SegmentCount(size) ==> SegmentLength(size, s) == SEGMENT_SIZE)
      && (size > 0 ==> 0 < SegmentLength(size, s))
      && SegmentLength(size, s) <= SEGMENT_SIZE
  {}

  lemma BlockTiling(length: nat)
    ensures BlockStart(0) == 0
    ensures forall b :: 0 <= b < BlockCount(length) ==>
      && BlockStart(b) + BlockLength(length, b) == (if b + 1 < BlockCount(length) then BlockStart(b + 1) else length)
      && (b + 1 < BlockCount(length) ==> BlockLength(length, b) == BLOCK_SIZE)
      && (length > 0 ==> 0 < BlockLength(length, b))
      && BlockLength(length, b) <= BLOCK_SIZE
    ensures length == SEGMENT_SIZE ==> forall b :: 0 <= b < BlockCount(length) ==> BlockLength(length, b) == BLOCK_SIZE
  {}

  /** Within the 2 GB limit: at most 64 segments of at most 512 blocks, and every number fits its slot. */
  lemma Bounds(size: nat)
    requires size <= MAX_HASHABLE_SIZE
    ensures 1 <= SegmentCount(size) <= 64
    ensures forall s :: 0 <= s < SegmentCount(size) ==>
      1 <= BlockCount(SegmentLength(size, s)) <= 512 && SegmentStart(s) < 0x8000_0000
  {}

  // ----- Encoding

  datatype EncodeError = BadSecret(length: nat) | BadHod(length: nat) | BadBlockHash(length: nat) | OutOfRange

  function SegmentSecret(h: Bytes -> Digest, hod: Bytes, secret: Bytes): Digest {
    h(hod + secret)
  }

  predicate DescribableSegment(seg: Segment) {
    |seg.hod| == 32 && seg.offset < Limit(8) && seg.length < Limit(4)
  }

  predicate ListableSegment(seg: Segment) {
    (forall b :: 0 <= b < |seg.blockHashes| ==> |seg.blockHashes[b]| == 32) && |seg.blockHashes| < Limit(4)
  }

  /** What the encoder accepts without throwing. */
  predicate Encodable(tree: Tree, secret: Bytes) {
    && |secret| == SERVER_SECRET_BYTES && |tree.segments| < Limit(4)
    && (forall s :: 0 <= s < |tree.segments| ==> DescribableSegment(tree.segments[s]))
    && (forall s :: 0 <= s < |tree.segments| ==> ListableSegment(tree.segments[s]))
  }

  function Describe(h: Bytes -> Digest, seg: Segment, secret: Bytes): Description
    requires DescribableSegment(seg)
  {
    Description(seg.offset, seg.length, BLOCK_SIZE, seg.hod, SegmentSecret(h, seg.hod, secret))
  }

  function HashesOf(seg: Segment): (hs: seq<Digest>)
    requires ListableSegment(seg)
    ensures hs == seg.blockHashes
  {
    seq<Digest>(|seg.blockHashes|, b requires 0 <= b < |seg.blockHashes| => var d: Digest := seg.blockHashes[b]; d)
  }

  /** The structure the encoder writes. */
  function InfoOf(h: Bytes -> Digest, tree: Tree, secret: Bytes): Info
    requires Encodable(tree, secret)
  {
    Info(CONTENT_INFO_VERSION, HASH_ALGO_SHA256, 0, 0, DescriptionsOf(h, tree.segments, secret),
         BlocksOf(tree.segments))
  }

  function DescriptionsOf(h: Bytes -> Digest, segs: seq<Segment>, secret: Bytes): seq<Description>
    requires forall s :: 0 <= s < |segs| ==> DescribableSegment(segs[s])
  {
    seq(|segs|, s requires 0 <= s < |segs| => Describe(h, segs[s], secret))
  }

  function BlocksOf(segs: seq<Segment>): seq<seq<Digest>>
    requires forall s :: 0 <= s < |segs| ==> ListableSegment(segs[s])
  {
    seq(|segs|, s requires 0 <= s < |segs| => HashesOf(segs[s]))
  }

  method EncodeHeader(segments: nat) returns (header: Bytes)
    requires segments < Limit(4)
    ensures header == LE(CONTENT_INFO_VERSION, 2) + LE(HASH_ALGO_SHA256, 4) + LE(0, 4) + LE(0, 4) + LE(segments, 4)
  {
    var buf := new Byte[18];
    WriteLE(buf, CONTENT_INFO_VERSION, 0, 2);
    WriteLE(buf, HASH_ALGO_SHA256, 2, 4);
    assert buf[..6] == LE(CONTENT_INFO_VERSION, 2) + LE(HASH_ALGO_SHA256, 4);
    WriteLE(buf, 0, 6, 4);
    assert buf[..10] == LE(CONTENT_INFO_VERSION, 2) + LE(HASH_ALGO_SHA256, 4) + LE(0, 4);
    WriteLE(buf, 0, 10, 4);
    assert buf[..14] == LE(CONTENT_INFO_VERSION, 2) + LE(HASH_ALGO_SHA256, 4) + LE(0, 4) + LE(0, 4);
    WriteLE(buf, segments, 14, 4);
    assert buf[..18] == buf[..14] + buf[14..18];
    header := buf[..];
    assert buf[..] == buf[..18];
  }

  method EncodeDescription(h: Bytes -> Digest, seg: Segment, secret: Bytes) returns (r: Result<Bytes, EncodeError>)
    ensures r.Ok? <==> DescribableSegment(seg)
    ensures r.Ok? ==> r.value == PrintDescription(Describe(h, seg, secret))
    ensures |seg.hod| != 32 ==> r == Err(BadHod(|seg.hod|))
    ensures r.Err? && |seg.hod| == 32 ==> r == Err(OutOfRange)
  {
    if |seg.hod| != 32 {
      return Err(BadHod(|seg.hod|));
    }
    if seg.offset >= Limit(8) || seg.length >= Limit(4) {
      return Err(OutOfRange);
    }
    var hod: Digest, kp := seg.hod, SegmentSecret(h, seg.hod, secret);
    var desc := new Byte[80];
    WriteLE(desc, seg.offset, 0, 8);
    WriteLE(desc, seg.length, 8, 4);
    assert desc[..12] == LE(seg.offset, 8) + LE(seg.length, 4);
    WriteLE(desc, BLOCK_SIZE, 12, 4);
    assert desc[..16] == desc[..12] + LE(BLOCK_SIZE, 4);
    CopyInto(hod, desc, 16);
    assert desc[..48] == desc[..16] + hod;
    CopyInto(kp, desc, 48);
    assert desc[..80] == desc[..48] + kp;
    assert desc[..] == desc[..80];
    r := Ok(desc[..]);
  }

  method EncodeBlocks(seg: Segment) returns (r: Result<Bytes, EncodeError>)
    ensures r.Ok? <==> ListableSegment(seg)
    ensures r.Ok? ==> r.value == LE(|seg.blockHashes|, 4) + PrintHashes(HashesOf(seg))
    ensures r.Err? ==> r.error.BadBlockHash? || r.error.OutOfRange?
    ensures r.Err? && r.error.BadBlockHash? ==> r.error.length != 32
  {
    var b := 0;
    while b < |seg.blockHashes|
      invariant 0 <= b <= |seg.blockHashes|
      invariant forall i :: 0 <= i < b ==> |seg.blockHashes[i]| == 32
    {
      if |seg.blockHashes[b]| != 32 {
        return Err(BadBlockHash(|seg.blockHashes[b]|));
      }
      b := b + 1;
    }
    if |seg.blockHashes| >= Limit(4) {
      return Err(OutOfRange);
    }
    var cBlocks := new Byte[4];
    WriteLE(cBlocks, |seg.blockHashes|, 0, 4);
    assert cBlocks[..] == cBlocks[0..0 + 4];
    r := Ok(cBlocks[..] + PrintHashes(HashesOf(seg)));
  }

  lemma {:induction false} PrintDescriptionsSnoc(ds: seq<Description>, d: Description)
    ensures PrintDescriptions(ds + [d]) == PrintDescriptions(ds) + PrintDescription(d)
  {
    if ds == [] {
      assert ds + [d] == [d] && [d][1..] == [];
    } else {
      assert (ds + [d])[1..] == ds[1..] + [d];
      PrintDescriptionsSnoc(ds[1..], d);
    }
  }

  lemma {:induction false} PrintBlocksSnoc(bs: seq<seq<Digest>>, b: seq<Digest>)
    ensures PrintBlocks(bs + [b]) == PrintBlocks(bs) + (LE(|b|, 4) + PrintHashes(b))
  {
    if bs == [] {
      assert bs + [b] == [b] && [b][1..] == [];
    } else {
      assert (bs + [b])[1..] == bs[1..] + [b];
      PrintBlocksSnoc(bs[1..], b);
    }
  }

  /** The SegmentDescription loop. */
  method EncodeDescriptions(h: Bytes -> Digest, segs: seq<Segment>, secret: Bytes)
    returns (r: Result<Bytes, EncodeError>)
    ensures r.Ok? <==> forall s :: 0 <= s < |segs| ==> DescribableSegment(segs[s])
    ensures r.Ok? ==> r.value == PrintDescriptions(DescriptionsOf(h, segs, secret))
  {
    hide PrintDescription, PrintDescriptions;
    var segDescs, s := [], 0;
    assert DescriptionsOf(h, segs[..0], secret) == [];
    assert PrintDescriptions([]) == [] by { PrintNone(); }
    while s < |segs|
      invariant 0 <= s <= |segs|
      invariant forall i :: 0 <= i < s ==> DescribableSegment(segs[i])
      invariant segDescs == PrintDescriptions(DescriptionsOf(h, segs[..s], secret))
    {
      var desc := EncodeDescription(h, segs[s], secret);
      if desc.Err? {
        return Err(desc.error);
      }
      PrintDescriptionsSnoc(DescriptionsOf(h, segs[..s], secret), Describe(h, segs[s], secret));
      assert DescriptionsOf(h, segs[..s + 1], secret)
          == DescriptionsOf(h, segs[..s], secret) + [Describe(h, segs[s], secret)];
      segDescs, s := segDescs + desc.value, s + 1;
    }
    assert segs[..s] == segs;
    r := Ok(segDescs);
  }

  lemma PrintNone()
    ensures PrintDescriptions([]) == [] && PrintBlocks([]) == []
  {}

  /** The SegmentContentBlocks loop. */
  method EncodeAllBlocks(segs: seq<Segment>) returns (r: Result<Bytes, EncodeError>)
    ensures r.Ok? <==> forall s :: 0 <= s < |segs| ==> ListableSegment(segs[s])
    ensures r.Ok? ==> r.value == PrintBlocks(BlocksOf(segs))
  {
    hide PrintBlocks, PrintHashes, ListableSegment, LE;
    var segBlocks, s := [], 0;
    assert BlocksOf(segs[..0]) == [];
    assert PrintBlocks([]) == [] by { PrintNone(); }
    while s < |segs|
      invariant 0 <= s <= |segs|
      invariant forall i :: 0 <= i < s ==> ListableSegment(segs[i])
      invariant segBlocks == PrintBlocks(BlocksOf(segs[..s]))
    {
      var block := EncodeBlocks(segs[s]);
      if block.Err? {
        return Err(block.error);
      }
      PrintBlocksSnoc(BlocksOf(segs[..s]), HashesOf(segs[s]));
      assert BlocksOf(segs[..s + 1]) == BlocksOf(segs[..s]) + [HashesOf(segs[s])];
      segBlocks, s := segBlocks + block.value, s + 1;
    }
    assert segs[..s] == segs;
    r := Ok(segBlocks);
  }

  /** encodeContentInformation: exactly the layout of the structure, or the error of the first check that fails. */
  method EncodeContentInformation(h: Bytes -> Digest, tree: Tree, secret: Bytes) returns (r: Result<Bytes, EncodeError>)
    ensures r.Ok? <==> Encodable(tree, secret)
    ensures r.Ok? ==> r.value == Print(InfoOf(h, tree, secret))
    ensures |secret| != SERVER_SECRET_BYTES ==> r == Err(BadSecret(|secret|))
  {
    if |secret| != SERVER_SECRET_BYTES {
      return Err(BadSecret(|secret|));
    }
    if |tree.segments| >= Limit(4) {
      return Err(OutOfRange);
    }
    hide Limit, LE, DescribableSegment, ListableSegment, PrintDescriptions, PrintBlocks;
    var header := EncodeHeader(|tree.segments|);
    var segDescs := EncodeDescriptions(h, tree.segments, secret);
    if segDescs.Err? {
      return segDescs;
    }
    var segBlocks := EncodeAllBlocks(tree.segments);
    if segBlocks.Err? {
      return segBlocks;
    }
    r := Ok(header + segDescs.value + segBlocks.value);
  }
}
