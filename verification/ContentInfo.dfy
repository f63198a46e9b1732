/** The Content Information Data Structure version 1.0 of [MS-PCCRC] (section 2.3, with SegmentDescription in 2.3.1.1
    and SegmentContentBlocks in 2.3.1.2): its layout, a parser for it, and that each inverts the other. */
module ContentInfo {
  import opened Prelude
  import opened Bytes

  datatype Description = Description(offset: nat, length: nat, blockSize: nat, hod: Digest, secret: Digest)

  datatype Info = Info(version: nat, hashAlgo: nat, offsetInFirst: nat, readInLast: nat,
                       segments: seq<Description>, blocks: seq<seq<Digest>>)

  // ----- Layout

  predicate DescriptionFits(d: Description) {
    d.offset < Limit(8) && d.length < Limit(4) && d.blockSize < Limit(4)
  }

  /** Every field fits its u16, u32 or u64 slot. */
  predicate Fits(i: Info) {
    && i.version < Limit(2) && i.hashAlgo < Limit(4) && i.offsetInFirst < Limit(4) && i.readInLast < Limit(4)
    && |i.blocks| == |i.segments| < Limit(4)
    && (forall s :: 0 <= s < |i.segments| ==> DescriptionFits(i.segments[s]))
    && (forall s :: 0 <= s < |i.blocks| ==> |i.blocks[s]| < Limit(4))
  }

  function PrintDescription(d: Description): (b: Bytes)
    ensures |b| == 80
  {
    LE(d.offset, 8) + LE(d.length, 4) + LE(d.blockSize, 4) + d.hod + d.secret
  }

  function PrintDescriptions(ds: seq<Description>): Bytes {
    if ds == [] then [] else PrintDescription(ds[0]) + PrintDescriptions(ds[1..])
  }

  function PrintHashes(hs: seq<Digest>): Bytes {
    if hs == [] then [] else hs[0] + PrintHashes(hs[1..])
  }

  function PrintBlocks(bs: seq<seq<Digest>>): Bytes {
    if bs == [] then [] else LE(|bs[0]|, 4) + PrintHashes(bs[0]) + PrintBlocks(bs[1..])
  }

  function PrintHeader(i: Info): (b: Bytes)
    ensures |b| == 18
  {
    LE(i.version, 2) + LE(i.hashAlgo, 4) + LE(i.offsetInFirst, 4) + LE(i.readInLast, 4) + LE(|i.segments|, 4)
  }

  function Print(i: Info): Bytes {
    PrintHeader(i) + PrintDescriptions(i.segments) + PrintBlocks(i.blocks)
  }

  // ----- Parser: a value and the bytes after it

  type Parsed<T> = Option<(T, Bytes)>

  function ParseLE(b: Bytes, width: nat): Parsed<nat> {
    if |b| < width then None else Some((FromLE(b[..width]), b[width..]))
  }

  function ParseDigest(b: Bytes): Parsed<Digest> {
    if |b| < 32 then None else Some((b[..32], b[32..]))
  }

  function ParseDescription(b: Bytes): Parsed<Description> {
    if |b| < 80 then None else
      Some((Description(FromLE(b[..8]), FromLE(b[8..12]), FromLE(b[12..16]), b[16..48], b[48..80]), b[80..]))
  }

  function ParseDescriptions(b: Bytes, n: nat): Parsed<seq<Description>>
    decreases n
  {
    if n == 0 then Some(([], b)) else
      match ParseDescription(b)
      case None => None
      case Some((d, rest)) =>
        match ParseDescriptions(rest, n - 1)
        case None => None
        case Some((ds, end)) => Some(([d] + ds, end))
  }

  function ParseHashes(b: Bytes, n: nat): Parsed<seq<Digest>>
    decreases n
  {
    if n == 0 then Some(([], b)) else
      match ParseDigest(b)
      case None => None
      case Some((h, rest)) =>
        match ParseHashes(rest, n - 1)
        case None => None
        case Some((hs, end)) => Some(([h] + hs, end))
  }

  function ParseBlocks(b: Bytes, n: nat): Parsed<seq<seq<Digest>>>
    decreases n
  {
    if n == 0 then Some(([], b)) else
      match ParseLE(b, 4)
      case None => None
      case Some((count, rest)) =>
        match ParseHashes(rest, count)
        case None => None
        case Some((hs, after)) =>
          match ParseBlocks(after, n - 1)
          case None => None
          case Some((bs, end)) => Some(([hs] + bs, end))
  }

  /** The whole structure; trailing bytes are an error. */
  function Parse(b: Bytes): Option<Info> {
    if |b| < 18 then None else
      var n := FromLE(b[14..18]);
      match ParseDescriptions(b[18..], n)
      case None => None
      case Some((ds, rest)) =>
        match ParseBlocks(rest, n)
        case None => None
        case Some((bs, end)) =>
          if end != [] then None else
            Some(Info(FromLE(b[..2]), FromLE(b[2..6]), FromLE(b[6..10]), FromLE(b[10..14]), ds, bs))
  }

  // ----- Parsing what was printed

  lemma ParsesDescription(d: Description, rest: Bytes)
    requires DescriptionFits(d)
    ensures ParseDescription(PrintDescription(d) + rest) == Some((d, rest))
  {
    var b := PrintDescription(d) + rest;
    assert b[..8] == LE(d.offset, 8) && b[8..12] == LE(d.length, 4) && b[12..16] == LE(d.blockSize, 4);
    assert b[16..48] == d.hod && b[48..80] == d.secret && b[80..] == rest;
    ReadsBack(d.offset, 8);
    ReadsBack(d.length, 4);
    ReadsBack(d.blockSize, 4);
  }

  lemma {:induction false} ParsesDescriptions(ds: seq<Description>, rest: Bytes)
    requires forall s :: 0 <= s < |ds| ==> DescriptionFits(ds[s])
    ensures ParseDescriptions(PrintDescriptions(ds) + rest, |ds|) == Some((ds, rest))
  {
    if ds == [] {
      assert PrintDescriptions(ds) + rest == rest;
    } else {
      var tail := PrintDescriptions(ds[1..]) + rest;
      assert PrintDescriptions(ds) + rest == PrintDescription(ds[0]) + tail;
      ParsesDescription(ds[0], tail);
      ParsesDescriptions(ds[1..], rest);
      assert [ds[0]] + ds[1..] == ds;
    }
  }

  lemma {:induction false} ParsesHashes(hs: seq<Digest>, rest: Bytes)
    ensures ParseHashes(PrintHashes(hs) + rest, |hs|) == Some((hs, rest))
  {
    if hs == [] {
      assert PrintHashes(hs) + rest == rest;
    } else {
      var tail: Bytes := PrintHashes(hs[1..]) + rest;
      assert PrintHashes(hs) + rest == hs[0] + tail;
      assert (hs[0] + tail)[..32] == hs[0] && (hs[0] + tail)[32..] == tail;
      ParsesHashes(hs[1..], rest);
      assert [hs[0]] + hs[1..] == hs;
    }
  }

  lemma {:induction false} ParsesBlocks(bs: seq<seq<Digest>>, rest: Bytes)
    requires forall s :: 0 <= s < |bs| ==> |bs[s]| < Limit(4)
    ensures ParseBlocks(PrintBlocks(bs) + rest, |bs|) == Some((bs, rest))
  {
    if bs == [] {
      assert PrintBlocks(bs) + rest == rest;
    } else {
      var after := PrintBlocks(bs[1..]) + rest;
      assert PrintBlocks(bs) + rest == LE(|bs[0]|, 4) + (PrintHashes(bs[0]) + after);
      ParsesCount(|bs[0]|, PrintHashes(bs[0]) + after);
      ParsesHashes(bs[0], after);
      ParsesBlocks(bs[1..], rest);
      assert [bs[0]] + bs[1..] == bs;
      hide PrintBlocks, PrintHashes, ParseHashes, ParseLE, LE, FromLE, Limit;
    }
  }

  lemma ParsesCount(n: nat, rest: Bytes)
    requires n < Limit(4)
    ensures ParseLE(LE(n, 4) + rest, 4) == Some((n, rest))
  {
    ReadsBack(n, 4);
    assert (LE(n, 4) + rest)[..4] == LE(n, 4) && (LE(n, 4) + rest)[4..] == rest;
  }

  /** A parser recovers every field of a printed structure and consumes all of it. */
  lemma ParsesPrinted(i: Info)
    requires Fits(i)
    ensures Parse(Print(i)) == Some(i)
  {
    var blocks := PrintBlocks(i.blocks);
    PrintedSlots(i);
    ReadsBack(i.version, 2);
    ReadsBack(i.hashAlgo, 4);
    ReadsBack(i.offsetInFirst, 4);
    ReadsBack(i.readInLast, 4);
    ReadsBack(|i.segments|, 4);
    ParsesDescriptions(i.segments, blocks);
    ParsesBlocks(i.blocks, []);
    assert blocks + [] == blocks;
    hide Print, PrintBlocks, PrintDescriptions, ParseBlocks, ParseDescriptions, LE, FromLE, Limit;
  }

  /** Where the fields of a printed structure are. */
  lemma PrintedSlots(i: Info)
    requires Fits(i)
    ensures var b := Print(i);
      && |b| >= 18 && b[18..] == PrintDescriptions(i.segments) + PrintBlocks(i.blocks)
      && b[..2] == LE(i.version, 2) && b[2..6] == LE(i.hashAlgo, 4) && b[6..10] == LE(i.offsetInFirst, 4)
      && b[10..14] == LE(i.readInLast, 4) && b[14..18] == LE(|i.segments|, 4)
  {
    hide PrintDescriptions, PrintBlocks;
  }

  // ----- Printing what was parsed

  /** A slot and what follows it. */
  lemma Slot(b: Bytes, at: nat, width: nat)
    requires at + width <= |b|
    ensures var n := FromLE(b[at..at + width]);
      n < Limit(width) && LE(n, width) == b[at..at + width] && b[..at] + LE(n, width) == b[..at + width]
  {
    WritesBack(b[at..at + width]);
    hide *;
    assert b[..at] + b[at..at + width] == b[..at + width];
  }

  lemma PrintsDescription(b: Bytes)
    requires |b| >= 80
    ensures var (d, rest) := ParseDescription(b).value;
      DescriptionFits(d) && PrintDescription(d) + rest == b
  {
    Slot(b, 0, 8);
    Slot(b, 8, 4);
    Slot(b, 12, 4);
    FiveParts(b);
    hide LE, FromLE, Limit;
  }

  lemma FiveParts(b: Bytes)
    requires |b| >= 80
    ensures b[..8] + b[8..12] + b[12..16] + b[16..48] + b[48..80] + b[80..] == b
    ensures b[0..8] == b[..8]
  {
    assert b[..8] + b[8..12] == b[..12];
    assert b[..12] + b[12..16] == b[..16];
    assert b[..16] + b[16..48] == b[..48];
    assert b[..48] + b[48..80] == b[..80];
    assert b[..80] + b[80..] == b;
  }

  lemma {:induction false} PrintsDescriptions(b: Bytes, n: nat)
    requires ParseDescriptions(b, n).Some?
    ensures var (ds, rest) := ParseDescriptions(b, n).value;
      && |ds| == n && (forall s :: 0 <= s < n ==> DescriptionFits(ds[s]))
      && PrintDescriptions(ds) + rest == b
  {
    if n == 0 {
      assert [] + b == b;
    } else {
      var (d, rest) := ParseDescription(b).value;
      var (ds, end) := ParseDescriptions(rest, n - 1).value;
      PrintsDescription(b);
      PrintsDescriptions(rest, n - 1);
      assert ([d] + ds)[1..] == ds;
      assert PrintDescription(d) + PrintDescriptions(ds) + end == PrintDescription(d) + (PrintDescriptions(ds) + end);
    }
  }

  lemma {:induction false} PrintsHashes(b: Bytes, n: nat)
    requires ParseHashes(b, n).Some?
    ensures var (hs, rest) := ParseHashes(b, n).value;
      |hs| == n && PrintHashes(hs) + rest == b
  {
    if n == 0 {
      assert [] + b == b;
    } else {
      var (h, rest) := ParseDigest(b).value;
      var (hs, end) := ParseHashes(rest, n - 1).value;
      PrintsHashes(rest, n - 1);
      assert ([h] + hs)[1..] == hs;
      assert h + PrintHashes(hs) + end == h + (PrintHashes(hs) + end);
    }
  }

  /** The first list of hashes, and the rest. */
  lemma ParsesFirst(b: Bytes, n: nat)
    requires n > 0 && ParseBlocks(b, n).Some?
    ensures |b| >= 4 && var count := FromLE(b[..4]);
      && ParseHashes(b[4..], count).Some? && var (hs, after) := ParseHashes(b[4..], count).value;
      && ParseBlocks(after, n - 1).Some? && var (bs, end) := ParseBlocks(after, n - 1).value;
      && ParseBlocks(b, n).value == ([hs] + bs, end)
  {
    hide FromLE, ParseHashes;
  }

  lemma PrintsFirst(hs: seq<Digest>, bs: seq<seq<Digest>>)
    ensures PrintBlocks([hs] + bs) == LE(|hs|, 4) + PrintHashes(hs) + PrintBlocks(bs)
  {
    assert ([hs] + bs)[1..] == bs;
    hide LE, PrintHashes;
  }

  lemma Rejoin(x: Bytes, y: Bytes, z: Bytes, end: Bytes, b: Bytes)
    requires |b| >= 4 && x == b[..4] && y + (z + end) == b[4..]
    ensures x + y + z + end == b
  {
    assert x + y + z + end == x + (y + (z + end));
  }

  predicate ShortLists(bs: seq<seq<Digest>>) {
    forall s :: 0 <= s < |bs| ==> |bs[s]| < Limit(4)
  }

  lemma ShortListsCons(hs: seq<Digest>, bs: seq<seq<Digest>>)
    requires |hs| < Limit(4) && ShortLists(bs)
    ensures ShortLists([hs] + bs)
  {
    hide Limit;
  }

  lemma {:induction false} PrintsBlocks(b: Bytes, n: nat)
    requires ParseBlocks(b, n).Some?
    decreases n
    ensures var (bs, rest) := ParseBlocks(b, n).value;
      |bs| == n && ShortLists(bs) && PrintBlocks(bs) + rest == b
  {
    if n == 0 {
      assert [] + b == b;
    } else {
      ParsesFirst(b, n);
      hide *;
      var count := FromLE(b[..4]);
      var (hs, after) := ParseHashes(b[4..], count).value;
      var (bs, end) := ParseBlocks(after, n - 1).value;
      WritesBack(b[..4]);
      PrintsHashes(b[4..], count);
      PrintsBlocks(after, n - 1);
      PrintsFirst(hs, bs);
      ShortListsCons(hs, bs);
      Rejoin(LE(count, 4), PrintHashes(hs), PrintBlocks(bs), end, b);
    }
  }

  /** Whatever parses is exactly the layout of what was read: no two byte strings mean the same structure. */
  lemma PrintsParsed(b: Bytes)
    requires Parse(b).Some?
    ensures Fits(Parse(b).value) && Print(Parse(b).value) == b
  {
    var n := FromLE(b[14..18]);
    var (ds, rest) := ParseDescriptions(b[18..], n).value;
    var (bs, end) := ParseBlocks(rest, n).value;
    PrintsHeader(b);
    PrintsDescriptions(b[18..], n);
    PrintsBlocks(rest, n);
    hide LE, FromLE, Limit, ParseDescriptions, ParseBlocks, PrintDescriptions, PrintBlocks;
    var info := Parse(b).value;
    assert PrintHeader(info) == b[..18];
    hide PrintHeader;
    assert end == [] && PrintBlocks(bs) + end == PrintBlocks(bs);
    assert b == b[..18] + b[18..];
    Regroup(b[..18], PrintDescriptions(ds), PrintBlocks(bs));
  }

  lemma Regroup(x: Bytes, y: Bytes, z: Bytes)
    ensures x + (y + z) == x + y + z
  {}

  lemma PrintsHeader(b: Bytes)
    requires |b| >= 18
    ensures FromLE(b[..2]) < Limit(2) && FromLE(b[2..6]) < Limit(4) && FromLE(b[6..10]) < Limit(4)
    ensures FromLE(b[10..14]) < Limit(4) && FromLE(b[14..18]) < Limit(4)
    ensures b[..18] == LE(FromLE(b[..2]), 2) + LE(FromLE(b[2..6]), 4) + LE(FromLE(b[6..10]), 4)
                     + LE(FromLE(b[10..14]), 4) + LE(FromLE(b[14..18]), 4)
  {
    WritesBack(b[..2]);
    WritesBack(b[2..6]);
    WritesBack(b[6..10]);
    WritesBack(b[10..14]);
    WritesBack(b[14..18]);
    hide *;
    assert b[..6] == b[..2] + b[2..6];
    assert b[..10] == b[..6] + b[6..10];
    assert b[..14] == b[..10] + b[10..14];
    assert b[..18] == b[..14] + b[14..18];
  }

  // ----- Sizes

  function BlockTotal(bs: seq<seq<Digest>>): nat {
    if bs == [] then 0 else |bs[0]| + BlockTotal(bs[1..])
  }

  lemma {:induction false} DescriptionsLength(ds: seq<Description>)
    ensures |PrintDescriptions(ds)| == 80 * |ds|
  {
    if ds == [] {
    } else {
      DescriptionsLength(ds[1..]);
    }
  }

  lemma {:induction false} HashesLength(hs: seq<Digest>)
    ensures |PrintHashes(hs)| == 32 * |hs|
  {
    if hs == [] {
    } else {
      HashesLength(hs[1..]);
    }
  }

  lemma {:induction false} BlocksLength(bs: seq<seq<Digest>>)
    ensures |PrintBlocks(bs)| == 4 * |bs| + 32 * BlockTotal(bs)
  {
    if bs == [] {
    } else {
      HashesLength(bs[0]);
      BlocksLength(bs[1..]);
    }
  }

  /** 18 bytes of header, 84 per segment, 32 per block. */
  lemma PrintedLength(i: Info)
    requires |i.blocks| == |i.segments|
    ensures |Print(i)| == 18 + 84 * |i.segments| + 32 * BlockTotal(i.blocks)
  {
    DescriptionsLength(i.segments);
    BlocksLength(i.blocks);
  }
}
