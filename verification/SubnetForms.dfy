/** The texts that computeSubnet tells apart, written out, and the addresses that a `::` abbreviates. */
module SubnetForms {
  import opened Prelude
  import opened Text
  import opened Numerals
  import opened Subnet
  import opened SubnetLaws

  // ----- The prefix

  function SmallLetter(c: char): char {
    if 'A' <= c <= 'Z' then c + ('a' - 'A') else c
  }

  /** Starts like `::ffff:`, in either case. */
  predicate StartsMapped(ip: string) {
    |ip| >= 7 && forall i :: 0 <= i < 7 ==> SmallLetter(ip[i]) == "::ffff:"[i]
  }

  /** What remains of an address without that start. */
  function Tail(ip: string): string {
    if StartsMapped(ip) then ip[7..] else ip
  }

  lemma StripIsTail(ip: string)
    ensures Strip(ip) == Tail(ip)
  {
    if |ip| >= 7 {
      if StartsMapped(ip) {
        assert SmallLetter(ip[0]) == ':' && SmallLetter(ip[1]) == ':' && SmallLetter(ip[6]) == ':';
        assert SmallLetter(ip[2]) == 'f' && SmallLetter(ip[3]) == 'f';
        assert SmallLetter(ip[4]) == 'f' && SmallLetter(ip[5]) == 'f';
      }
      assert Mapped(ip) <==> StartsMapped(ip);
    }
  }

  // ----- The four outcomes

  predicate Decimal(s: string) {
    1 <= |s| <= 3 && forall i :: 0 <= i < |s| ==> '0' <= s[i] <= '9'
  }

  /** A dotted quad, with or without the prefix, is filed under its first three groups. */
  lemma QuadFiledUnder(ip: string, a: string, b: string, c: string, d: string)
    requires Decimal(a) && Decimal(b) && Decimal(c) && Decimal(d)
    requires Tail(ip) == a + "." + b + "." + c + "." + d
    ensures ComputeSubnet(ip) == a + "." + b + "." + c + ".0/24"
    ensures NetworkOf(ip) == Some(Net24([Number(Ten, a), Number(Ten, b), Number(Ten, c)]))
  {
    var groups := [a, b, c, d];
    StripIsTail(ip);
    QuadText(a, b, c, d);
    DecimalGroup(a);
    DecimalGroup(b);
    DecimalGroup(c);
    DecimalGroup(d);
    assert ['.'] == ".";
    SplitJoin(groups, '.');
    assert IsQuad(Tail(ip)) && groups[..3] == [a, b, c] by {
      hide Tail, Split, Join, IsGroup;
    }
    assert ip != "" by {
      hide Split, Join, IsQuad;
    }
    assert Numbers(Ten, [a, b, c]) == [Number(Ten, a), Number(Ten, b), Number(Ten, c)];
    hide Split, Join, IsQuad, Tail, Decimal, Strip, Number, Numbers, Groups;
  }

  lemma DecimalGroup(s: string)
    requires Decimal(s)
    ensures IsGroup(s) && Without(s, '.')
  {}

  lemma QuadText(a: string, b: string, c: string, d: string)
    ensures Join([a, b, c, d], ".") == a + "." + b + "." + c + "." + d
    ensures Join([a, b, c], ".") + ".0/24" == a + "." + b + "." + c + ".0/24"
  {
    JoinFour(a, b, c, d, ".");
    assert [a, b, c][1..] == [b, c] && [b, c][1..] == [c];
    assert Join([b, c], ".") == b + "." + c;
    assert Join([a, b, c], ".") == a + "." + (b + "." + c);
    hide Join;
  }

  lemma JoinFour(a: string, b: string, c: string, d: string, sep: string)
    ensures Join([a, b, c, d], sep) == a + sep + b + sep + c + sep + d
  {
    assert [a, b, c, d][1..] == [b, c, d] && [b, c, d][1..] == [c, d] && [c, d][1..] == [d];
    assert Join([c, d], sep) == c + sep + d && Join([b, c, d], sep) == b + sep + (c + sep + d);
    hide Join;
  }

  /** A text with three or more colons is filed under its first four parts, whatever they are. */
  lemma ColonsFiledUnder(ip: string, parts: seq<string>)
    requires |parts| >= 4 && AllWithout(parts, ':') && Tail(ip) == Join(parts, ":")
    ensures ComputeSubnet(ip) == parts[0] + ":" + parts[1] + ":" + parts[2] + ":" + parts[3] + "::/64"
  {
    StripIsTail(ip);
    assert [':'] == ":";
    SplitJoin(parts, ':');
    FourText(parts);
    ColonInside(Tail(ip));
    hide Join, Split, Strip, Tail, IsQuad, Without;
  }

  lemma FourText(parts: seq<string>)
    requires |parts| >= 4
    ensures Join(parts[..4], ":") == parts[0] + ":" + parts[1] + ":" + parts[2] + ":" + parts[3]
  {
    assert parts[..4] == [parts[0], parts[1], parts[2], parts[3]];
    JoinFour(parts[0], parts[1], parts[2], parts[3], ":");
    hide Join;
  }

  /** No dotted quad holds a colon. */
  lemma ColonInside(s: string)
    requires |Split(s, ':')| >= 2
    ensures !IsQuad(s) && s != ""
  {
    if IsQuad(s) {
      var groups := Split(s, '.');
      forall i | 0 <= i < |groups|
        ensures Without(groups[i], ':')
      {
        NoSeparators();
        DigitsWithout(Ten, groups[i], ':');
      }
      JoinSplit(s, '.');
      assert ['.'] == ".";
      JoinedWithout(groups, ".", ':');
      SplitHead(s, ':', "");
      assert false;
    }
  }

  lemma {:induction false} JoinedWithout(parts: seq<string>, sep: string, c: char)
    requires AllWithout(parts, c) && Without(sep, c)
    ensures Without(Join(parts, sep), c)
  {
    if |parts| > 1 {
      JoinedWithout(parts[1..], sep, c);
      assert Without(parts[0], c);
    }
  }

  /** Text with fewer colons and no dot is filed under itself, and a missing address under a network of its own. */
  lemma OthersFiledUnder(ip: string, parts: seq<string>)
    requires 1 <= |parts| <= 3 && AllWithout(parts, ':') && Tail(ip) == Join(parts, ":") && Without(ip, '.')
    ensures ComputeSubnet(ip) == if ip == "" then "0.0.0.0/24" else Tail(ip)
  {
    StripIsTail(ip);
    assert [':'] == ":";
    SplitJoin(parts, ':') by {
      hide Join, Split;
    }
    TailWithout(ip, '.');
    SplitHead(Tail(ip), '.', "");
    FiledUnderItself(ip);
    hide *;
  }

  lemma FiledUnderItself(ip: string)
    requires |Split(Strip(ip), ':')| <= 3 && |Split(Strip(ip), '.')| == 1
    ensures ComputeSubnet(ip) == if ip == "" then "0.0.0.0/24" else Strip(ip)
  {
    hide Join, Split, Strip;
  }

  lemma TailWithout(ip: string, c: char)
    requires Without(ip, c)
    ensures Without(Tail(ip), c)
    ensures ip == "" ==> Tail(ip) == ""
  {}

  // ----- What `::` stands for

  /** The parts of `left::right`. */
  function Gapped(left: seq<string>, right: seq<string>): seq<string> {
    (if left == [] then [""] else left) + [""] + (if right == [] then [""] else right)
  }

  /** The network of a text without dots is given by its eight groups, if it has them. */
  lemma NetworkOfGroups(ip: string, parts: seq<string>)
    requires parts != [] && AllWithout(parts, ':') && ip == Join(parts, ":") && Without(ip, '.')
    ensures var groups := Groups(parts);
      && (groups.Some? ==> |groups.value| == 8)
      && NetworkOf(ip) == if groups.Some? then Some(Net64(groups.value[..4])) else None
  {
    assert [':'] == ":";
    SplitJoin(parts, ':');
    GroupsAreEight(parts);
    StripIsTail(ip);
    TailWithout(ip, '.');
    SplitHead(Tail(ip), '.', "");
    hide Join, Split, Strip, Tail, Without, IsGroup, Groups;
  }

  lemma {:induction false} FirstEmptyAfter(left: seq<string>, rest: seq<string>)
    requires forall i :: 0 <= i < |left| ==> left[i] != ""
    ensures FirstEmpty(left) == |left| && FirstEmpty(left + [""] + rest) == |left|
  {
    if left == [] {
      assert (left + [""] + rest)[0] == "";
    } else {
      assert (left + [""] + rest)[1..] == left[1..] + [""] + rest;
      FirstEmptyAfter(left[1..], rest);
    }
  }

  /** The gap and what follows it are found again. */
  lemma GapFound(left: seq<string>, right: seq<string>)
    requires HexGroups(left) && HexGroups(right)
    ensures var parts := Gapped(left, right); var e := FirstEmpty(parts);
      e == |left| < |parts| && parts[..e] == left && AfterGap(parts, e) == Some(right)
  {
    var parts, after := Gapped(left, right), if right == [] then [""] else right;
    assert forall i :: 0 <= i < |left| ==> left[i] != "";
    assert right != [""] by {
      assert right != [] ==> HexGroup(right[0]);
    }
    if left == [] {
      assert parts == [] + [""] + ([""] + after) && parts[2..] == after;
      FirstEmptyAfter([], [""] + after);
    } else {
      assert parts == left + [""] + after && parts[|left| + 1..] == after;
      FirstEmptyAfter(left, after);
    }
    hide HexGroup, FirstEmpty;
  }

  /** Whatever is read with a gap has that form. */
  lemma GapForm(parts: seq<string>, e: nat)
    requires e < |parts| && parts[e] == "" && AfterGap(parts, e).Some?
    ensures parts == Gapped(parts[..e], AfterGap(parts, e).value)
  {
    AfterGapIs(parts, e);
    hide AfterGap;
    var front, after := parts[..e], parts[if e == 0 then 2 else e + 1..];
    if e == 0 {
      assert front == [] && parts == [""] + [""] + after;
    } else {
      assert parts == front + [""] + after;
    }
  }

  lemma AfterGapIs(parts: seq<string>, e: nat)
    requires e < |parts| && AfterGap(parts, e).Some?
    ensures var right, from := AfterGap(parts, e).value, if e == 0 then 2 else e + 1;
      && from < |parts| && (e == 0 ==> parts[1] == "")
      && parts[from..] == if right == [] then [""] else right
  {}

  /** An address is eight groups, or two lists of at most seven groups together around a `::`, which stands for the
      zeros that are missing; no other text is one. */
  lemma GroupsIff(parts: seq<string>, ns: seq<nat>)
    ensures Groups(parts) == Some(ns) <==>
      || (|parts| == 8 && HexGroups(parts) && ns == Numbers(Sixteen, parts))
      || exists left, right :: parts == Gapped(left, right) && Abbreviates(left, right, ns)
  {
    hide HexGroup, Number, Numbers, Zeros, Gapped;
    if Groups(parts) == Some(ns) {
      var e := FirstEmpty(parts);
      if e < |parts| {
        GapForm(parts, e);
        assert Abbreviates(parts[..e], AfterGap(parts, e).value, ns);
      }
    }
    if |parts| == 8 && HexGroups(parts) {
      NoneEmpty(parts);
    }
    if exists left, right :: parts == Gapped(left, right) && Abbreviates(left, right, ns) {
      var left, right :| parts == Gapped(left, right) && Abbreviates(left, right, ns);
      GapFound(left, right);
    }
  }

  lemma NoneEmpty(parts: seq<string>)
    requires HexGroups(parts)
    ensures FirstEmpty(parts) == |parts|
  {
    assert forall i :: 0 <= i < |parts| ==> parts[i] != "";
    hide HexGroup;
  }

  predicate Abbreviates(left: seq<string>, right: seq<string>, ns: seq<nat>) {
    && HexGroups(left) && HexGroups(right) && |left| + |right| <= 7
    && ns == Numbers(Sixteen, left) + Zeros(8 - |left| - |right|) + Numbers(Sixteen, right)
  }
}
