/** Byte strings, little-endian integers and digests. */
module Bytes {
  type Byte = b: int | 0 <= b < 256

  type Bytes = seq<Byte>

  /** A SHA-256 digest. */
  type Digest = d: Bytes | |d| == 32 witness seq(32, _ => 0)

  /** One more than the largest number of `width` bytes. */
  function Limit(width: nat): nat {
    if width == 0 then 1 else 256 * Limit(width - 1)
  }

  lemma Limits()
    ensures Limit(2) == 0x1_0000 && Limit(4) == 0x1_0000_0000 && Limit(8) == 0x1_0000_0000_0000_0000
  {
    assert Limit(1) == 256;
    assert Limit(2) == 256 * Limit(1);
    assert Limit(3) == 256 * Limit(2);
    assert Limit(4) == 256 * Limit(3);
    assert Limit(5) == 256 * Limit(4);
    assert Limit(6) == 256 * Limit(5);
    assert Limit(7) == 256 * Limit(6);
    assert Limit(8) == 256 * Limit(7);
  }

  /** The low `width` bytes of `n`, least significant first. */
  function LE(n: nat, width: nat): (b: Bytes)
    ensures |b| == width
  {
    if width == 0 then [] else [n % 256] + LE(n / 256, width - 1)
  }

  function FromLE(b: Bytes): nat {
    if b == [] then 0 else b[0] + 256 * FromLE(b[1..])
  }

  /** A number that fits its slot is read back. */
  lemma {:induction false} ReadsBack(n: nat, width: nat)
    requires n < Limit(width)
    ensures FromLE(LE(n, width)) == n
  {
    if width == 0 {
    } else {
      ReadsBack(n / 256, width - 1);
      assert LE(n, width)[1..] == LE(n / 256, width - 1);
    }
  }

  /** Bytes read as a number fit and are written back. */
  lemma {:induction false} WritesBack(b: Bytes)
    ensures FromLE(b) < Limit(|b|)
    ensures LE(FromLE(b), |b|) == b
  {
    if b == [] {
    } else {
      WritesBack(b[1..]);
      assert FromLE(b) % 256 == b[0] && FromLE(b) / 256 == FromLE(b[1..]);
      assert b == [b[0]] + b[1..];
    }
  }

  function Flatten(parts: seq<Bytes>): Bytes {
    if parts == [] then [] else parts[0] + Flatten(parts[1..])
  }

  /** `list` holds the digests next to each other and nothing else. */
  predicate SideBySide(list: Bytes, digests: seq<Digest>) {
    && |list| == 32 * |digests|
    && forall i :: 0 <= i < |digests| ==> list[32 * i..32 * i + 32] == digests[i]
  }

  lemma {:induction false} FlattenIsSideBySide(digests: seq<Digest>)
    ensures SideBySide(Flatten(digests), digests)
  {
    if digests == [] {
    } else {
      FlattenIsSideBySide(digests[1..]);
      var rest := Flatten(digests[1..]);
      assert Flatten(digests) == digests[0] + rest;
      hide Flatten;
      forall i | 0 <= i < |digests|
        ensures Flatten(digests)[32 * i..32 * i + 32] == digests[i]
      {
        if i > 0 {
          assert rest[32 * (i - 1)..32 * (i - 1) + 32] == digests[1..][i - 1];
        }
      }
    }
  }

  /** buf.writeUIntLE at an offset. */
  method WriteLE(buf: array<Byte>, n: nat, at: nat, width: nat)
    requires at + width <= buf.Length
    modifies buf
    ensures buf[..at] == old(buf[..at])
    ensures buf[at..at + width] == LE(n, width)
    ensures buf[at + width..] == old(buf[at + width..])
  {
    var i, left := 0, n;
    while i < width
      invariant 0 <= i <= width
      invariant buf[..at] == old(buf[..at]) && buf[at + width..] == old(buf[at + width..])
      invariant LE(n, width) == buf[at..at + i] + LE(left, width - i)
    {
      buf[at + i] := left % 256;
      assert buf[at..at + i + 1] == buf[at..at + i] + [left % 256];
      left, i := left / 256, i + 1;
    }
  }

  /** src.copy(buf, at). */
  method CopyInto(src: Bytes, buf: array<Byte>, at: nat)
    requires at + |src| <= buf.Length
    modifies buf
    ensures buf[..at] == old(buf[..at])
    ensures buf[at..at + |src|] == src
    ensures buf[at + |src|..] == old(buf[at + |src|..])
  {
    forall i | 0 <= i < |src| {
      buf[at + i] := src[i];
    }
  }
}
