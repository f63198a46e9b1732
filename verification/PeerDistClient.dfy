/** What a client can rely on: a Content Information blob made from a file describes exactly that file. */
module PeerDistClient {
  import opened Prelude
  import opened Bytes
  import opened ContentInfo
  import opened PeerDist

  /** Whatever the encoder accepts, it prints a structure whose fields all fit. */
  lemma EncodedFits(h: Bytes -> Digest, tree: Tree, secret: Bytes)
    requires Encodable(tree, secret)
    ensures Fits(InfoOf(h, tree, secret))
  {
    Limits();
    hide Limit;
  }

  /** The tree of a file of up to 2^31 bytes always encodes, and its blob parses back to the file's own description with
      nothing left over; 18 + 84 * segments + 32 * blocks bytes. The first 14 bytes are version 1.0, SHA-256 and a
      whole file; each hash of hashes is taken over the block hashes side by side, and each segment secret over the
      hash of hashes and the server secret. */
  lemma BlobDescribesFile(h: Bytes -> Digest, file: Bytes, mtimeMs: int, secret: Bytes)
    requires |file| <= 0x8000_0000 && |secret| == 32
    ensures var tree := TreeOf(h, file, mtimeMs);
      && Encodable(tree, secret)
      && Parse(Print(InfoOf(h, tree, secret))) == Some(InfoOf(h, tree, secret))
      && |Print(InfoOf(h, tree, secret))|
         == 18 + 84 * SegmentCount(|file|) + 32 * BlockTotal(InfoOf(h, tree, secret).blocks)
    ensures var info := InfoOf(h, TreeOf(h, file, mtimeMs), secret);
      && Describes(h, info, file)
      && |Print(info)| >= 14 && Print(info)[..14] == [0, 1, 12, 128, 0, 0, 0, 0, 0, 0, 0, 0, 0, 0]
      && forall s :: 0 <= s < |info.segments| ==>
           HashesOver(h, info.segments[s].hod, info.blocks[s])
           && info.segments[s].secret == h(info.segments[s].hod + secret)
  {
    TreeEncodable(h, file, mtimeMs, secret);
    InfoDescribes(h, file, mtimeMs, secret);
    HeaderBytes(h, TreeOf(h, file, mtimeMs), secret);
    var info := InfoOf(h, TreeOf(h, file, mtimeMs), secret);
    HashLists(h, info, file);
    EncodedFits(h, TreeOf(h, file, mtimeMs), secret);
    ParsesPrinted(info);
    PrintedLength(info);
    hide Print, Parse, Fits, Encodable, BlockTotal, SegmentCount;
  }

  ghost predicate HashesOver(h: Bytes -> Digest, hod: Digest, hashes: seq<Digest>) {
    exists list :: SideBySide(list, hashes) && hod == h(list)
  }

  lemma HashLists(h: Bytes -> Digest, info: Info, file: Bytes)
    requires Describes(h, info, file)
    ensures forall s :: 0 <= s < |info.segments| ==> HashesOver(h, info.segments[s].hod, info.blocks[s])
  {
    hide SegmentCount, SegmentLength, BlockCount, BlockAt;
    forall s | 0 <= s < |info.segments|
      ensures HashesOver(h, info.segments[s].hod, info.blocks[s])
    {
      FlattenIsSideBySide(info.blocks[s]);
    }
  }

  lemma HeaderBytes(h: Bytes -> Digest, tree: Tree, secret: Bytes)
    requires Encodable(tree, secret)
    ensures var blob := Print(InfoOf(h, tree, secret));
      |blob| >= 14 && blob[..14] == [0, 1, 12, 128, 0, 0, 0, 0, 0, 0, 0, 0, 0, 0]
  {
    hide *;
    EncodedFits(h, tree, secret);
    PrintedSlots(InfoOf(h, tree, secret));
    InfoHeader(h, tree, secret);
    FixedFields();
    FourSlots(Print(InfoOf(h, tree, secret)));
  }

  lemma InfoHeader(h: Bytes -> Digest, tree: Tree, secret: Bytes)
    requires Encodable(tree, secret)
    ensures var info := InfoOf(h, tree, secret);
      info.version == 0x100 && info.hashAlgo == 0x800C && info.offsetInFirst == 0 && info.readInLast == 0
  {
    hide Encodable, DescriptionsOf, BlocksOf;
  }

  lemma FourSlots(b: Bytes)
    requires |b| >= 14
    ensures b[..14] == b[..2] + b[2..6] + b[6..10] + b[10..14]
  {}

  lemma FixedFields()
    ensures LE(0x100, 2) == [0, 1] && LE(0x800C, 4) == [12, 128, 0, 0] && LE(0, 4) == [0, 0, 0, 0]
  {
    assert LE(0, 0) == [] && LE(0, 1) == [0] && LE(0, 2) == [0, 0] && LE(0, 3) == [0, 0, 0];
    assert LE(1, 1) == [1] && LE(128, 3) == [128, 0, 0];
  }

  lemma TreeEncodable(h: Bytes -> Digest, file: Bytes, mtimeMs: int, secret: Bytes)
    requires |file| <= MAX_HASHABLE_SIZE && |secret| == SERVER_SECRET_BYTES
    ensures Encodable(TreeOf(h, file, mtimeMs), secret)
  {
    Bounds(|file|);
    Limits();
    hide Limit;
  }

  // ----- Reconstruction

  /** One candidate per block, each with the hash the blob announces. */
  ghost predicate Accepted(h: Bytes -> Digest, info: Info, chunks: seq<seq<Bytes>>) {
    && |chunks| == |info.blocks|
    && (forall s :: 0 <= s < |chunks| ==> |chunks[s]| == |info.blocks[s]|)
    && (forall s, b :: 0 <= s < |chunks| && 0 <= b < |chunks[s]| ==> h(chunks[s][b]) == info.blocks[s][b])
  }

  /** Where the blob says block `b` of segment `s` goes. */
  function Place(info: Info, s: nat, b: nat): nat
    requires s < |info.segments|
  {
    info.segments[s].offset + b * info.segments[s].blockSize
  }

  /** Every chunk sits at its place in `out`, which is as long as the blob says. */
  ghost predicate Placed(out: Bytes, info: Info, chunks: seq<seq<Bytes>>)
    requires |chunks| == |info.segments| > 0
  {
    var last := info.segments[|info.segments| - 1];
    && |out| == last.offset + last.length
    && forall s, b :: 0 <= s < |chunks| && 0 <= b < |chunks[s]| ==> ChunkAt(out, info, chunks, s, b)
  }

  predicate ChunkAt(out: Bytes, info: Info, chunks: seq<seq<Bytes>>, s: nat, b: nat)
    requires s < |info.segments| && s < |chunks| && b < |chunks[s]|
  {
    var at := Place(info, s, b);
    at + |chunks[s][b]| <= |out| && out[at..at + |chunks[s][b]|] == chunks[s][b]
  }

  /** Two different byte strings with one digest. */
  ghost predicate Collision(h: Bytes -> Digest, x: Bytes, y: Bytes) {
    x != y && h(x) == h(y)
  }

  /** The client followed the blob: it parses to `info`, and `out` is made of accepted chunks where the blob puts
      them. */
  ghost predicate Rebuilt(h: Bytes -> Digest, blob: Bytes, info: Info, chunks: seq<seq<Bytes>>, out: Bytes) {
    && Parse(blob) == Some(info) && Accepted(h, info, chunks)
    && |chunks| == |info.segments| > 0 && Placed(out, info, chunks)
  }

  /** Some chunk is not the true block but has its digest. */
  ghost predicate SomeCollision(h: Bytes -> Digest, file: Bytes, chunks: seq<seq<Bytes>>) {
    exists s, b ::
      && 0 <= s < SegmentCount(|file|) && 0 <= b < BlockCount(SegmentLength(|file|, s))
      && s < |chunks| && b < |chunks[s]| && Collision(h, chunks[s][b], BlockAt(file, s, b))
  }

  /** A client that decodes the blob, takes from anyone only blocks with the announced hashes, and puts each where
      the blob says, has the file back byte for byte, unless one of its chunks is a SHA-256 collision with the
      true block. */
  lemma Reconstruction(h: Bytes -> Digest, file: Bytes, mtimeMs: int, secret: Bytes, info: Info,
                       chunks: seq<seq<Bytes>>, out: Bytes)
    requires |file| <= 0x8000_0000 && |secret| == 32
    ensures Encodable(TreeOf(h, file, mtimeMs), secret)
    ensures Rebuilt(h, Print(InfoOf(h, TreeOf(h, file, mtimeMs), secret)), info, chunks, out) ==>
      out == file || SomeCollision(h, file, chunks)
  {
    TreeEncodable(h, file, mtimeMs, secret);
    var described := InfoOf(h, TreeOf(h, file, mtimeMs), secret);
    if Rebuilt(h, Print(described), info, chunks, out) {
      EncodedFits(h, TreeOf(h, file, mtimeMs), secret);
      ParsesPrinted(described);
      InfoDescribes(h, file, mtimeMs, secret);
      hide Print, Parse, Describes, Accepted, Placed, Genuine, SomeCollision, InfoOf, TreeOf, Encodable;
      if !Genuine(file, chunks) {
        FindCollision(h, file, info, chunks);
      } else {
        GenuineRebuilds(h, file, info, chunks, out);
      }
    }
  }

  /** What the blob's structure says about the file, field by field. */
  ghost predicate Describes(h: Bytes -> Digest, info: Info, file: Bytes) {
    && |info.segments| == |info.blocks| == SegmentCount(|file|)
    && (forall s :: 0 <= s < SegmentCount(|file|) ==>
          && info.segments[s].offset == SegmentStart(s) && info.segments[s].length == SegmentLength(|file|, s)
          && info.segments[s].blockSize == 0x1_0000
          && info.segments[s].hod == h(Flatten(info.blocks[s]))
          && |info.blocks[s]| == BlockCount(SegmentLength(|file|, s)))
    && (forall s, b :: 0 <= s < SegmentCount(|file|) && 0 <= b < |info.blocks[s]| ==>
          info.blocks[s][b] == h(BlockAt(file, s, b)))
  }

  lemma InfoDescribes(h: Bytes -> Digest, file: Bytes, mtimeMs: int, secret: Bytes)
    requires Encodable(TreeOf(h, file, mtimeMs), secret)
    ensures Describes(h, InfoOf(h, TreeOf(h, file, mtimeMs), secret), file)
    ensures var info := InfoOf(h, TreeOf(h, file, mtimeMs), secret);
      forall s :: 0 <= s < |info.segments| ==> info.segments[s].secret == h(info.segments[s].hod + secret)
  {}

  /** Every chunk is the true block. */
  ghost predicate Genuine(file: Bytes, chunks: seq<seq<Bytes>>) {
    forall s, b :: 0 <= s < |chunks| && 0 <= b < |chunks[s]| ==>
      && s < SegmentCount(|file|) && b < BlockCount(SegmentLength(|file|, s)) && chunks[s][b] == BlockAt(file, s, b)
  }

  lemma FindCollision(h: Bytes -> Digest, file: Bytes, info: Info, chunks: seq<seq<Bytes>>)
    requires Describes(h, info, file) && Accepted(h, info, chunks) && !Genuine(file, chunks)
    ensures SomeCollision(h, file, chunks)
  {
    hide BlockAt, SegmentCount, SegmentLength, BlockCount;
    var s, b :| 0 <= s < |chunks| && 0 <= b < |chunks[s]| &&
      !(s < SegmentCount(|file|) && b < BlockCount(SegmentLength(|file|, s)) && chunks[s][b] == BlockAt(file, s, b));
    assert Collision(h, chunks[s][b], BlockAt(file, s, b));
  }

  // The converse: the file itself is one such reconstruction.

  function TrueBlocks(file: Bytes): (chunks: seq<seq<Bytes>>)
    ensures |chunks| == SegmentCount(|file|)
    ensures forall s :: 0 <= s < |chunks| ==> chunks[s] == BlocksOfSegment(file, s)
  {
    seq(SegmentCount(|file|), s requires 0 <= s < SegmentCount(|file|) => BlocksOfSegment(file, s))
  }

  function BlocksOfSegment(file: Bytes, s: nat): (blocks: seq<Bytes>)
    requires s < SegmentCount(|file|)
    ensures |blocks| == BlockCount(SegmentLength(|file|, s))
    ensures forall b :: 0 <= b < |blocks| ==> blocks[b] == BlockAt(file, s, b)
  {
    seq(BlockCount(SegmentLength(|file|, s)),
        b requires 0 <= b < BlockCount(SegmentLength(|file|, s)) => BlockAt(file, s, b))
  }

  /** A client that gets the true blocks, as from the server itself, has them all accepted, and they make up the
      file. */
  lemma TrueBlocksRebuild(h: Bytes -> Digest, file: Bytes, mtimeMs: int, secret: Bytes)
    requires |file| <= 0x8000_0000 && |secret| == 32
    ensures Encodable(TreeOf(h, file, mtimeMs), secret)
    ensures var info := InfoOf(h, TreeOf(h, file, mtimeMs), secret);
      Rebuilt(h, Print(info), info, TrueBlocks(file), file)
  {
    BlobDescribesFile(h, file, mtimeMs, secret);
    InfoDescribes(h, file, mtimeMs, secret);
    var info := InfoOf(h, TreeOf(h, file, mtimeMs), secret);
    hide Print, Parse, InfoOf, TreeOf, Encodable;
    TrueBlocksPlaced(h, file, info);
  }

  lemma TrueBlocksPlaced(h: Bytes -> Digest, file: Bytes, info: Info)
    requires Describes(h, info, file)
    ensures Accepted(h, info, TrueBlocks(file)) && |info.segments| > 0 && Placed(file, info, TrueBlocks(file))
  {
    SomeSegment(|file|);
    Tiling(|file|);
    TrueBlocksAccepted(h, file, info);
    var chunks := TrueBlocks(file);
    hide SegmentCount, SegmentLength, BlockCount, BlockAt, TrueBlocks, BlocksOfSegment, ChunkAt, Accepted;
    forall s, b | 0 <= s < |chunks| && 0 <= b < |chunks[s]|
      ensures ChunkAt(file, info, chunks, s, b)
    {
      TrueBlockPlaced(h, file, info, s, b);
    }
  }

  lemma TrueBlocksAccepted(h: Bytes -> Digest, file: Bytes, info: Info)
    requires Describes(h, info, file)
    ensures Accepted(h, info, TrueBlocks(file))
  {
    hide SegmentCount, SegmentLength, BlockCount, BlockAt, TrueBlocks, BlocksOfSegment;
  }

  lemma TrueBlockPlaced(h: Bytes -> Digest, file: Bytes, info: Info, s: nat, b: nat)
    requires Describes(h, info, file) && s < |TrueBlocks(file)| && b < |TrueBlocks(file)[s]|
    ensures s < |info.segments| && ChunkAt(file, info, TrueBlocks(file), s, b)
  {
    hide SegmentCount, SegmentLength, BlockCount, BlockAt, TrueBlocks, BlocksOfSegment;
    BlockIsSlice(file, s, b);
    assert Place(info, s, b) == SegmentStart(s) + BlockStart(b);
  }

  lemma BlockIsSlice(file: Bytes, s: nat, b: nat)
    requires s < SegmentCount(|file|) && b < BlockCount(SegmentLength(|file|, s))
    ensures var at, block := SegmentStart(s) + BlockStart(b), BlockAt(file, s, b);
      at + |block| <= |file| && file[at..at + |block|] == block
  {
    BlockSpan(file, s, b);
    hide SegmentCount, SegmentLength, BlockCount, SegmentStart, BlockStart;
  }

  lemma SomeSegment(size: nat)
    ensures SegmentCount(size) >= 1
  {}

  lemma GenuineRebuilds(h: Bytes -> Digest, file: Bytes, info: Info, chunks: seq<seq<Bytes>>, out: Bytes)
    requires Describes(h, info, file) && Accepted(h, info, chunks) && Genuine(file, chunks)
    requires |chunks| == |info.segments| > 0 && Placed(out, info, chunks)
    ensures out == file
  {
    Tiling(|file|);
    assert |out| == |file|;
    forall k | 0 <= k < |file|
      ensures out[k] == file[k]
    {
      var s, b := Locate(file, k);
      hide SegmentCount, SegmentLength, BlockCount, BlockAt;
      assert ChunkAt(out, info, chunks, s, b) && chunks[s][b] == BlockAt(file, s, b);
      assert Place(info, s, b) == SegmentStart(s) + BlockStart(b);
      BlockSpan(file, s, b);
      ByteInBlock(file, s, b, k, out);
    }
  }

  lemma BlockSpan(file: Bytes, s: nat, b: nat)
    requires s < SegmentCount(|file|) && b < BlockCount(SegmentLength(|file|, s))
    ensures |BlockAt(file, s, b)| == BlockLength(SegmentLength(|file|, s), b)
  {}

  /** The block that holds byte `k`. */
  lemma Locate(file: Bytes, k: nat) returns (s: nat, b: nat)
    requires k < |file|
    ensures s < SegmentCount(|file|) && b < BlockCount(SegmentLength(|file|, s))
    ensures SegmentStart(s) + BlockStart(b) <= k
         < SegmentStart(s) + BlockStart(b) + BlockLength(SegmentLength(|file|, s), b)
  {
    s := k / 0x200_0000;
    b := (k - SegmentStart(s)) / 0x1_0000;
  }

  lemma ByteInBlock(file: Bytes, s: nat, b: nat, k: nat, out: Bytes)
    requires s < SegmentCount(|file|) && b < BlockCount(SegmentLength(|file|, s)) && k < |file| == |out|
    requires var at := SegmentStart(s) + BlockStart(b);
      at <= k < at + |BlockAt(file, s, b)| && out[at..at + |BlockAt(file, s, b)|] == BlockAt(file, s, b)
    ensures out[k] == file[k]
  {
    var at := SegmentStart(s) + BlockStart(b);
    var block := BlockAt(file, s, b);
    assert out[k] == out[at..at + |block|][k - at] && file[k] == block[k - at];
  }

  // ----- The server secret

  /** Position `k` of a blob lies in the SegmentSecret of some segment. */
  predicate InSecretSlot(segments: nat, k: nat) {
    18 <= k < 18 + 80 * segments && 48 <= (k - 18) % 80
  }

  /** Blobs of one file under two secrets are equally long and differ only inside the 32-byte SegmentSecret slots; under
      one secret they are the same blob, whatever the modification time. */
  lemma SecretOnlyInItsSlots(h: Bytes -> Digest, file: Bytes, m1: int, m2: int, k1: Bytes, k2: Bytes)
    requires |file| <= MAX_HASHABLE_SIZE && |k1| == |k2| == SERVER_SECRET_BYTES
    ensures Encodable(TreeOf(h, file, m1), k1) && Encodable(TreeOf(h, file, m2), k2)
    ensures var b1, b2 := Print(InfoOf(h, TreeOf(h, file, m1), k1)), Print(InfoOf(h, TreeOf(h, file, m2), k2));
      && |b1| == |b2|
      && (forall k :: 0 <= k < |b1| && !InSecretSlot(SegmentCount(|file|), k) ==> b1[k] == b2[k])
      && (k1 == k2 ==> b1 == b2)
  {
    TreeEncodable(h, file, m1, k1);
    TreeEncodable(h, file, m2, k2);
    var i1, i2 := InfoOf(h, TreeOf(h, file, m1), k1), InfoOf(h, TreeOf(h, file, m2), k2);
    assert TreeOf(h, file, m1).segments == TreeOf(h, file, m2).segments;
    assert i1.blocks == i2.blocks && |i1.segments| == |i2.segments| == SegmentCount(|file|);
    forall s | 0 <= s < |i1.segments|
      ensures SameButSecret(i1.segments[s], i2.segments[s])
    {}
    assert k1 == k2 ==> i1 == i2;
    DifferOnlyInSecrets(i1.segments, i2.segments);
    DescriptionsLength(i1.segments);
    DescriptionsLength(i2.segments);
    PrintDiffers(i1, i2);
    hide Print, InfoOf, TreeOf, Encodable;
  }

  predicate SameButSecret(d1: Description, d2: Description) {
    d1 == d2.(secret := d1.secret)
  }

  lemma {:induction false} DifferOnlyInSecrets(ds1: seq<Description>, ds2: seq<Description>)
    requires |ds1| == |ds2| && forall s :: 0 <= s < |ds1| ==> SameButSecret(ds1[s], ds2[s])
    ensures |PrintDescriptions(ds1)| == |PrintDescriptions(ds2)| == 80 * |ds1|
    ensures forall k :: 0 <= k < 80 * |ds1| && k % 80 < 48 ==> PrintDescriptions(ds1)[k] == PrintDescriptions(ds2)[k]
  {
    DescriptionsLength(ds1);
    DescriptionsLength(ds2);
    if ds1 == [] {
    } else {
      DifferOnlyInSecrets(ds1[1..], ds2[1..]);
      OneDiffers(ds1[0], ds2[0]);
      var t1, t2 := PrintDescriptions(ds1[1..]), PrintDescriptions(ds2[1..]);
      forall k | 0 <= k < 80 * |ds1| && k % 80 < 48
        ensures PrintDescriptions(ds1)[k] == PrintDescriptions(ds2)[k]
      {
        if k >= 80 {
          assert (k - 80) % 80 == k % 80;
          assert t1[k - 80] == t2[k - 80];
        }
      }
    }
  }

  lemma OneDiffers(d1: Description, d2: Description)
    requires SameButSecret(d1, d2)
    ensures forall k :: 0 <= k < 48 ==> PrintDescription(d1)[k] == PrintDescription(d2)[k]
  {
    hide LE;
    var front := LE(d1.offset, 8) + LE(d1.length, 4) + LE(d1.blockSize, 4) + d1.hod;
    assert |front| == 48 && PrintDescription(d1) == front + d1.secret && PrintDescription(d2) == front + d2.secret;
  }

  lemma PrintDiffers(i1: Info, i2: Info)
    requires |i1.segments| == |i2.segments| && i1 == i2.(segments := i1.segments)
    requires |PrintDescriptions(i1.segments)| == |PrintDescriptions(i2.segments)| == 80 * |i1.segments|
    requires forall k :: 0 <= k < 80 * |i1.segments| && k % 80 < 48 ==>
      PrintDescriptions(i1.segments)[k] == PrintDescriptions(i2.segments)[k]
    ensures |Print(i1)| == |Print(i2)|
    ensures forall k :: 0 <= k < |Print(i1)| && !InSecretSlot(|i1.segments|, k) ==> Print(i1)[k] == Print(i2)[k]
  {
    hide LE, PrintDescriptions, PrintBlocks;
    assert PrintHeader(i1) == PrintHeader(i2);
    var n, d1, d2 := |i1.segments|, PrintDescriptions(i1.segments), PrintDescriptions(i2.segments);
    forall k | 0 <= k < |Print(i1)| && !InSecretSlot(n, k)
      ensures Print(i1)[k] == Print(i2)[k]
    {
      if 18 <= k < 18 + 80 * n {
        assert d1[k - 18] == d2[k - 18];
      }
    }
  }
}
