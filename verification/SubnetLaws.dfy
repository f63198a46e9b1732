/** When computeSubnet files clients by network, and the two ways in which it does not. */
module SubnetLaws {
  import opened Prelude
  import opened Text
  import opened Numerals
  import opened Subnet

  // ----- Text

  predicate AllWithout(parts: seq<string>, c: char) {
    forall i :: 0 <= i < |parts| ==> Without(parts[i], c)
  }

  lemma JoinedSame(p: seq<string>, q: seq<string>, sep: char, tail: string)
    requires p != [] && q != [] && AllWithout(p, sep) && AllWithout(q, sep)
    ensures Join(p, [sep]) + tail == Join(q, [sep]) + tail <==> p == q
  {
    SplitJoin(p, sep);
    SplitJoin(q, sep);
    SameTail(Join(p, [sep]), Join(q, [sep]), tail);
    hide *;
  }

  lemma SameTail(x: string, y: string, tail: string)
    ensures x + tail == y + tail <==> x == y
  {
    if x + tail == y + tail {
      assert |x + tail| == |x| + |tail| && |y + tail| == |y| + |tail|;
      assert (x + tail)[..|x|] == x && (y + tail)[..|y|] == y;
    }
  }

  lemma DifferentTails(x: string, y: string)
    ensures x + ".0/24" != y + "::/64"
  {
    var s, t := x + ".0/24", y + "::/64";
    assert s[|s| - 1] == '4' && t[|t| - 1] == '4' && s[|s| - 2] == '2' && t[|t| - 2] == '6';
  }

  lemma DigitsWithout(base: Base, s: string, c: char)
    requires AllDigits(base, s) && DigitValue(base, c).None?
    ensures Without(s, c)
  {}

  /** A number's usual spelling can be read, so it has only digits. */
  lemma SpellingWithout(base: Base, n: nat, c: char)
    requires DigitValue(base, c).None?
    ensures Without(Digits(base, n), c) && Digits(base, n) != ""
  {
    DigitsReadBack(base, n);
    ReadsIffDigits(base, Digits(base, n));
    DigitsWithout(base, Digits(base, n), c);
    hide *;
  }

  lemma SpellWithout(base: Base, ns: seq<nat>, c: char)
    requires DigitValue(base, c).None?
    ensures AllWithout(Spell(base, ns), c)
  {
    forall i | 0 <= i < |ns|
      ensures Without(Spell(base, ns)[i], c)
    {
      SpellingWithout(base, ns[i], c);
    }
    hide Without, Spell, DigitValue;
  }

  lemma SpellSame(base: Base, ms: seq<nat>, ns: seq<nat>)
    ensures Spell(base, ms) == Spell(base, ns) <==> ms == ns
  {
    if Spell(base, ms) == Spell(base, ns) {
      assert |ms| == |ns|;
      forall i | 0 <= i < |ms|
        ensures ms[i] == ns[i]
      {
        assert Spell(base, ms)[i] == Digits(base, ms[i]) && Spell(base, ns)[i] == Digits(base, ns[i]);
        DigitsReadBack(base, ms[i]);
        DigitsReadBack(base, ns[i]);
      }
      hide Digits, ReadDigits;
    }
  }

  lemma NoSeparators()
    ensures DigitValue(Ten, '.').None? && DigitValue(Ten, ':').None?
    ensures DigitValue(Sixteen, ':').None? && DigitValue(Sixteen, '.').None? && DigitValue(Sixteen, '/').None?
  {}

  // ----- Networks have names

  lemma ThreeOrFour(ip: string)
    ensures var n := NetworkOf(ip); n.Some? ==> |n.value.groups| == if n.value.Net24? then 3 else 4
  {
    GroupsAreEight(Split(ip, ':'));
    hide Groups, Strip, Split, IsGroup;
  }

  /** Different networks have different names. */
  lemma NameIsUnique(m: Network, n: Network)
    requires m.groups != [] && n.groups != []
    ensures Name(m) == Name(n) <==> m == n
  {
    NoSeparators();
    if m.Net24? && n.Net24? {
      NamesApart(Ten, m.groups, n.groups, '.', ".0/24");
    } else if m.Net64? && n.Net64? {
      NamesApart(Sixteen, m.groups, n.groups, ':', "::/64");
    } else if m.Net24? {
      DifferentTails(Join(Spell(Ten, m.groups), "."), Join(Spell(Sixteen, n.groups), ":"));
    } else {
      DifferentTails(Join(Spell(Ten, n.groups), "."), Join(Spell(Sixteen, m.groups), ":"));
    }
    hide Join, Spell, DigitValue;
  }

  lemma NamesApart(base: Base, ms: seq<nat>, ns: seq<nat>, sep: char, tail: string)
    requires ms != [] && ns != [] && DigitValue(base, sep).None?
    ensures Join(Spell(base, ms), [sep]) + tail == Join(Spell(base, ns), [sep]) + tail <==> ms == ns
  {
    SpellWithout(base, ms, sep);
    SpellWithout(base, ns, sep);
    assert Spell(base, ms) != [] && Spell(base, ns) != [];
    hide *;
    JoinedSame(Spell(base, ms), Spell(base, ns), sep, tail);
    SpellSame(base, ms, ns);
  }

  // ----- Filing by name

  lemma NotEmpty(ip: string)
    requires NetworkOf(ip).Some?
    ensures ip != ""
  {}

  /** An address is filed under the name of its network exactly when the text in front spells it. */
  lemma FiledByNameIff(ip: string)
    requires NetworkOf(ip).Some?
    ensures ComputeSubnet(ip) == Name(NetworkOf(ip).value) <==> Spelled(ip)
  {
    NotEmpty(ip);
    ThreeOrFour(ip);
    NoSeparators();
    var n, stripped := NetworkOf(ip).value, Strip(ip);
    if n.Net24? {
      QuadFiled(stripped, n.groups);
      hide NetworkOf, Join, Split, Spell, Strip, DigitValue;
    } else {
      assert !IsQuad(stripped) by {
        hide Groups, IsQuad, Strip, Split;
      }
      HexFiled(ip, n.groups);
      hide NetworkOf, Join, Split, Spell, Strip, IsQuad, DigitValue;
    }
  }

  lemma QuadFiled(stripped: string, ns: seq<nat>)
    requires |ns| == 3 && IsQuad(stripped)
    ensures Join(Split(stripped, '.')[..3], ".") + ".0/24" == Join(Spell(Ten, ns), ".") + ".0/24"
      <==> Split(stripped, '.')[..3] == Spell(Ten, ns)
  {
    NoSeparators();
    SplitWithout(stripped, '.');
    SpellWithout(Ten, ns, '.');
    var front := Split(stripped, '.')[..3];
    assert AllWithout(front, '.') && [','] != "." && ['.'] == ".";
    hide Join, Split, Spell, Without, DigitValue;
    JoinedSame(front, Spell(Ten, ns), '.', ".0/24");
  }

  lemma HexFiled(ip: string, ns: seq<nat>)
    requires |ns| == 4 && Groups(Split(ip, ':')).Some?
    ensures var stripped := Strip(ip); var parts := Split(stripped, ':');
      (if |parts| >= 4 then Join(parts[..4], ":") + "::/64" else stripped) == Join(Spell(Sixteen, ns), ":") + "::/64"
      <==> |parts| >= 4 && parts[..4] == Spell(Sixteen, ns)
  {
    NoSeparators();
    var stripped := Strip(ip);
    var parts := Split(stripped, ':');
    if |parts| >= 4 {
      SplitWithout(stripped, ':');
      SpellWithout(Sixteen, ns, ':');
      assert AllWithout(parts[..4], ':') && [':'] == ":";
      hide Join, Split, Spell, Without, DigitValue, Groups, Strip;
      JoinedSame(parts[..4], Spell(Sixteen, ns), ':', "::/64");
    } else {
      NoSlash(ip);
      var name := Join(Spell(Sixteen, ns), ":") + "::/64";
      assert name[|name| - 3] == '/';
      hide Join, Split, Spell, DigitValue, Groups, Strip;
    }
  }

  lemma NoSlash(ip: string)
    requires Groups(Split(ip, ':')).Some?
    ensures Without(ip, '/') && Without(Strip(ip), '/')
  {
    var parts := Split(ip, ':');
    forall i | 0 <= i < |parts|
      ensures Without(parts[i], '/')
    {
      PartOfAddress(parts, i);
      NoSeparators();
      if parts[i] != "" {
        DigitsWithout(Sixteen, parts[i], '/');
      }
    }
    hide Groups, AllDigits, DigitValue, HexGroup, Split;
    JoinWithout(parts, '/');
    JoinSplit(ip, ':');
    assert [':'] == ":";
  }

  /** Every part of an address is empty or a group of digits. */
  lemma PartOfAddress(parts: seq<string>, i: nat)
    requires Groups(parts).Some? && i < |parts|
    ensures parts[i] == "" || HexGroup(parts[i])
  {
    var e := FirstEmpty(parts);
    if e < |parts| {
      var left, right := parts[..e], AfterGap(parts, e).value;
      if i < e {
        assert HexGroup(left[i]);
      } else {
        PartAfterGap(parts, e, i);
      }
    }
    hide HexGroup;
  }

  lemma PartAfterGap(parts: seq<string>, e: nat, i: nat)
    requires e <= i < |parts| && parts[e] == "" && AfterGap(parts, e).Some? && HexGroups(AfterGap(parts, e).value)
    ensures parts[i] == "" || HexGroup(parts[i])
  {
    var from := if e == 0 then 2 else e + 1;
    if i >= from {
      assert parts[i] == parts[from..][i - from];
    }
    hide HexGroup;
  }

  lemma {:induction false} JoinWithout(parts: seq<string>, c: char)
    requires AllWithout(parts, c) && c != ':'
    ensures Without(Join(parts, ":"), c)
  {
    if |parts| > 1 {
      JoinWithout(parts[1..], c);
      assert Without(parts[0], c);
    }
  }

  /** Two addresses whose texts spell their networks are filed together exactly when they are in one network. */
  lemma SameSubnetIffSameNetwork(a: string, b: string)
    requires Spelled(a) && Spelled(b)
    ensures ComputeSubnet(a) == ComputeSubnet(b) <==> NetworkOf(a) == NetworkOf(b)
  {
    SpelledAddress(a);
    SpelledAddress(b);
    FiledByNameIff(a);
    FiledByNameIff(b);
    ThreeOrFour(a);
    ThreeOrFour(b);
    hide *;
    NameIsUnique(NetworkOf(a).value, NetworkOf(b).value);
  }

  lemma SpelledAddress(a: string)
    requires Spelled(a)
    ensures NetworkOf(a).Some?
  {
    hide NetworkOf;
  }

  // ----- The condition is needed

  lemma ValidNetworks(ip: string)
    ensures NetworkOf(ip).Some? ==> Valid(NetworkOf(ip).value)
  {
    ThreeOrFour(ip);
    if NetworkOf(ip).Some? {
      if IsQuad(Strip(ip)) {
        var parts := Split(Strip(ip), '.');
        forall i | 0 <= i < 3
          ensures Number(Ten, parts[i]) < 1000
        {
          BelowLimit(Ten, parts[i], 3);
        }
      } else {
        forall i | 0 <= i < 8
          ensures Groups(Split(ip, ':')).value[i] < 0x1_0000
        {
          GroupBelow(Split(ip, ':'), i);
        }
      }
    }
    hide IsQuad, Strip, Split, Groups, Number;
  }

  lemma BelowLimit(base: Base, s: string, width: nat)
    requires |s| <= width
    ensures Number(base, s) < Power(base, width)
    ensures Power(Ten, 3) == 1000 && Power(Sixteen, 4) == 0x1_0000
  {
    PowerPositive(base, width);
    assert Power(Ten, 1) == 10 && Power(Ten, 2) == 100;
    assert Power(Sixteen, 1) == 16 && Power(Sixteen, 2) == 256 && Power(Sixteen, 3) == 4096;
    if ReadDigits(base, s).Some? {
      ReadBelow(base, s, width);
    }
    hide ReadDigits;
  }

  lemma GroupBelow(parts: seq<string>, i: nat)
    requires Groups(parts).Some? && i < |Groups(parts).value|
    ensures Groups(parts).value[i] < 0x1_0000
  {
    BelowLimit(Sixteen, "", 4);
    var e := FirstEmpty(parts);
    if e == |parts| {
      SmallNumbers(parts);
    } else {
      SmallNumbers(parts[..e]);
      SmallNumbers(AfterGap(parts, e).value);
    }
    hide HexGroup, AfterGap, FirstEmpty;
  }

  lemma SmallNumbers(parts: seq<string>)
    requires HexGroups(parts)
    ensures forall i :: 0 <= i < |parts| ==> Numbers(Sixteen, parts)[i] < 0x1_0000
  {
    forall i | 0 <= i < |parts|
      ensures Numbers(Sixteen, parts)[i] < 0x1_0000
    {
      BelowLimit(Sixteen, parts[i], 4);
    }
    hide Number, Power, AllDigits;
  }

  /** An address of a network, as usually written. */
  function Host(n: Network): string {
    match n
    case Net24(groups) => Join(Spell(Ten, groups) + ["1"], ".")
    case Net64(groups) => Join(Spell(Sixteen, groups) + ["1", "1", "1", "1"], ":")
  }

  lemma SpelledGroup(base: Base, n: nat, width: nat)
    requires width > 0 && n < Power(base, width)
    ensures var s := Digits(base, n); 1 <= |s| <= width && AllDigits(base, s) && Number(base, s) == n
  {
    DigitsReadBack(base, n);
    ReadsIffDigits(base, Digits(base, n));
    SpelledWithin(base, n, width);
    hide Digits, ReadDigits, AllDigits, Power;
  }

  lemma StartsWithDigit(base: Base, parts: seq<string>, sep: string)
    requires parts != [] && parts[0] != "" && AllDigits(base, parts[0])
    ensures !Mapped(Join(parts, sep)) && Strip(Join(parts, sep)) == Join(parts, sep)
  {
    assert Join(parts, sep)[0] == parts[0][0];
  }

  lemma QuadParts(ns: seq<nat>)
    requires |ns| == 3 && forall i :: 0 <= i < 3 ==> ns[i] < 1000
    ensures var parts := Spell(Ten, ns) + ["1"];
      && |parts| == 4 && (forall i :: 0 <= i < 4 ==> IsGroup(parts[i])) && AllWithout(parts, '.')
      && parts[..3] == Spell(Ten, ns) && Numbers(Ten, parts[..3]) == ns
  {
    var parts := Spell(Ten, ns) + ["1"];
    BelowLimit(Ten, "", 3);
    NoSeparators();
    SpelledGroup(Ten, 1, 3);
    assert Digits(Ten, 1) == "1";
    forall i | 0 <= i < 4
      ensures IsGroup(parts[i]) && Without(parts[i], '.')
    {
      SpelledGroup(Ten, if i < 3 then ns[i] else 1, 3);
      DigitsWithout(Ten, parts[i], '.');
    }
    forall i | 0 <= i < 3
      ensures Number(Ten, parts[i]) == ns[i]
    {
      SpelledGroup(Ten, ns[i], 3);
    }
    hide Digits, AllDigits, Number, Power, Without;
    assert parts[..3] == Spell(Ten, ns);
  }

  lemma QuadHost(ns: seq<nat>)
    requires |ns| == 3 && forall i :: 0 <= i < 3 ==> ns[i] < 1000
    ensures NetworkOf(Host(Net24(ns))) == Some(Net24(ns)) && Spelled(Host(Net24(ns)))
  {
    QuadParts(ns);
    var parts := Spell(Ten, ns) + ["1"];
    assert IsGroup(parts[0]);
    StartsWithDigit(Ten, parts, ".");
    assert ['.'] == "." && Host(Net24(ns)) == Join(parts, ".");
    SplitJoin(parts, '.');
    hide Join, Split, Spell, Numbers, IsGroup, Strip, Host;
  }

  lemma HexParts(ns: seq<nat>)
    requires |ns| == 4 && forall i :: 0 <= i < 4 ==> ns[i] < 0x1_0000
    ensures var parts := Spell(Sixteen, ns) + ["1", "1", "1", "1"];
      && |parts| == 8 && HexGroups(parts) && AllWithout(parts, ':') && AllWithout(parts, '.')
      && parts[..4] == Spell(Sixteen, ns) && Numbers(Sixteen, parts)[..4] == ns
  {
    var parts := Spell(Sixteen, ns) + ["1", "1", "1", "1"];
    BelowLimit(Sixteen, "", 4);
    NoSeparators();
    SpelledGroup(Sixteen, 1, 4);
    assert Digits(Sixteen, 1) == "1";
    forall i | 0 <= i < 8
      ensures HexGroup(parts[i]) && Without(parts[i], ':') && Without(parts[i], '.')
    {
      SpelledGroup(Sixteen, if i < 4 then ns[i] else 1, 4);
      DigitsWithout(Sixteen, parts[i], ':');
      DigitsWithout(Sixteen, parts[i], '.');
    }
    forall i | 0 <= i < 4
      ensures Number(Sixteen, parts[i]) == ns[i]
    {
      SpelledGroup(Sixteen, ns[i], 4);
    }
    hide Digits, AllDigits, Number, Power, Without;
    assert parts[..4] == Spell(Sixteen, ns);
  }

  lemma HexHost(ns: seq<nat>)
    requires |ns| == 4 && forall i :: 0 <= i < 4 ==> ns[i] < 0x1_0000
    ensures NetworkOf(Host(Net64(ns))) == Some(Net64(ns)) && Spelled(Host(Net64(ns)))
  {
    HexParts(ns);
    var parts := Spell(Sixteen, ns) + ["1", "1", "1", "1"];
    assert HexGroup(parts[0]);
    StartsWithDigit(Sixteen, parts, ":");
    assert [':'] == ":" && Host(Net64(ns)) == Join(parts, ":");
    SplitJoin(parts, ':');
    NoDots(parts);
    AllNonEmpty(parts);
    hide Join, Split, Spell, Numbers, HexGroup, Strip, Host;
  }

  lemma NoDots(parts: seq<string>)
    requires AllWithout(parts, '.')
    ensures !IsQuad(Join(parts, ":"))
  {
    JoinWithout(parts, '.');
    var s := Join(parts, ":");
    SplitHead(s, '.', "");
    hide Join, Split, Without;
  }

  lemma AllNonEmpty(parts: seq<string>)
    requires |parts| == 8 && HexGroups(parts)
    ensures Groups(parts) == Some(Numbers(Sixteen, parts))
  {
    assert forall i :: 0 <= i < 8 ==> parts[i] != "";
    hide AllDigits, Numbers, HexGroup;
  }

  lemma HostOf(n: Network)
    requires Valid(n)
    ensures NetworkOf(Host(n)) == Some(n) && Spelled(Host(n))
  {
    match n
    case Net24(groups) => QuadHost(groups);
    case Net64(groups) => HexHost(groups);
    hide Host, NetworkOf, Spelled;
  }

  /** Filed as its network would have it: with exactly the usually written addresses of the same network. */
  ghost predicate FiledByNetwork(a: string) {
    forall b :: Spelled(b) ==> (ComputeSubnet(a) == ComputeSubnet(b) <==> NetworkOf(a) == NetworkOf(b))
  }

  /** The source's promise of a /24 or /64 prefix is kept for an address exactly when the text in front spells its
      network. */
  lemma FiledByNetworkIff(a: string)
    requires NetworkOf(a).Some?
    ensures FiledByNetwork(a) <==> Spelled(a)
  {
    if Spelled(a) {
      forall b | Spelled(b)
        ensures ComputeSubnet(a) == ComputeSubnet(b) <==> NetworkOf(a) == NetworkOf(b)
      {
        SameSubnetIffSameNetwork(a, b);
      }
      hide Spelled, ComputeSubnet, NetworkOf;
    } else {
      var n := NetworkOf(a).value;
      ValidNetworks(a);
      HostOf(n);
      FiledByNameIff(a);
      FiledByNameIff(Host(n));
      hide Spelled, ComputeSubnet, NetworkOf, Host, Name;
    }
  }

  // ----- The condition on the text

  /** A hexadecimal group as usually written. */
  predicate Usual(s: string) {
    HexGroup(s) && s == Digits(Sixteen, Number(Sixteen, s))
  }

  /** For an IPv6 address without the IPv4-mapped prefix the condition says: no `::` among the first four parts, and
      each of them in its usual form. */
  lemma SpelledIff(ip: string)
    requires NetworkOf(ip).Some? && NetworkOf(ip).value.Net64? && !Mapped(ip)
    ensures var parts := Split(ip, ':');
      Spelled(ip) <==> |parts| >= 4 && Usual(parts[0]) && Usual(parts[1]) && Usual(parts[2]) && Usual(parts[3])
  {
    var parts := Split(ip, ':');
    ThreeOrFour(ip);
    ValidNetworks(ip);
    var ns := NetworkOf(ip).value.groups;
    assert Strip(ip) == ip && !IsQuad(ip) by {
      hide IsQuad, Split, Groups;
    }
    hide NetworkOf, Strip, IsQuad, Split, Mapped;
    if |parts| >= 4 {
      FrontGroups(parts);
      UsualGroups(parts, ns);
    }
    hide Usual, Groups, Spell;
  }

  /** Without a gap the first four groups are those of the first four parts. */
  lemma FrontGroups(parts: seq<string>)
    requires |parts| >= 4 && Groups(parts).Some?
    ensures parts[0] != "" && parts[1] != "" && parts[2] != "" && parts[3] != "" ==>
      Groups(parts).value[..4] == Numbers(Sixteen, parts[..4]) && HexGroups(parts[..4])
  {
    var e := FirstEmpty(parts);
    GroupsAreEight(parts);
    if e >= 4 {
      var left := parts[..e];
      assert left[..4] == parts[..4];
      if e == |parts| {
        assert parts[..e] == parts;
      }
      forall i | 0 <= i < 4
        ensures Groups(parts).value[i] == Number(Sixteen, parts[i]) && HexGroup(parts[..4][i])
      {
        assert HexGroup(left[i]);
      }
    }
    hide HexGroup, Number, AfterGap;
  }

  lemma UsualOf(n: nat)
    requires n < 0x1_0000
    ensures Usual(Digits(Sixteen, n)) && Number(Sixteen, Digits(Sixteen, n)) == n
  {
    BelowLimit(Sixteen, "", 4);
    SpelledGroup(Sixteen, n, 4);
    hide Digits, AllDigits, Number, Power;
  }

  lemma UsualAt(part: string, n: nat)
    requires n < 0x1_0000 && (part != "" ==> n == Number(Sixteen, part))
    ensures part == Digits(Sixteen, n) <==> Usual(part)
  {
    UsualOf(n);
    hide Digits, AllDigits, Number;
  }

  lemma UsualGroups(parts: seq<string>, ns: seq<nat>)
    requires |parts| >= 4 && |ns| == 4 && forall i :: 0 <= i < 4 ==> ns[i] < 0x1_0000
    requires parts[0] != "" && parts[1] != "" && parts[2] != "" && parts[3] != "" ==>
      ns == Numbers(Sixteen, parts[..4]) && HexGroups(parts[..4])
    ensures parts[..4] == Spell(Sixteen, ns)
      <==> Usual(parts[0]) && Usual(parts[1]) && Usual(parts[2]) && Usual(parts[3])
  {
    SpellFour(parts[..4], ns);
    UsualNotEmpty();
    hide Usual, Digits, Number, HexGroup, Spell;
    if parts[0] != "" && parts[1] != "" && parts[2] != "" && parts[3] != "" {
      UsualAt(parts[0], ns[0]);
      UsualAt(parts[1], ns[1]);
      UsualAt(parts[2], ns[2]);
      UsualAt(parts[3], ns[3]);
    } else {
      SpelledNotEmpty(ns[0]);
      SpelledNotEmpty(ns[1]);
      SpelledNotEmpty(ns[2]);
      SpelledNotEmpty(ns[3]);
    }
  }

  lemma SpelledNotEmpty(n: nat)
    ensures Digits(Sixteen, n) != ""
  {
    DigitsReadBack(Sixteen, n);
    hide *;
  }

  lemma UsualNotEmpty()
    ensures !Usual("")
  {}

  lemma SpellFour(front: seq<string>, ns: seq<nat>)
    requires |front| == |ns| == 4
    ensures front == Spell(Sixteen, ns) <==>
      (front[0] == Digits(Sixteen, ns[0]) && front[1] == Digits(Sixteen, ns[1]) &&
       front[2] == Digits(Sixteen, ns[2]) && front[3] == Digits(Sixteen, ns[3]))
  {
    hide Digits;
    var s := Spell(Sixteen, ns);
    assert s[0] == Digits(Sixteen, ns[0]) && s[1] == Digits(Sixteen, ns[1]);
    assert s[2] == Digits(Sixteen, ns[2]) && s[3] == Digits(Sixteen, ns[3]);
    hide Spell;
    if front[0] == s[0] && front[1] == s[1] && front[2] == s[2] && front[3] == s[3] {
      assert front == s;
    }
  }

  // With the IPv4-mapped prefix, which is stripped, the four groups in front are not those of the address.

  function Marker(ip: string): string
    requires Mapped(ip)
  {
    ip[2..6]
  }

  lemma MarkerIsFfff(ip: string)
    requires Mapped(ip)
    ensures Without(Marker(ip), ':') && HexGroup(Marker(ip)) && Number(Sixteen, Marker(ip)) == 0xffff
  {
    var m := Marker(ip);
    assert m == [ip[2], ip[3], ip[4], ip[5]];
    FourFs(ip[2], ip[3], ip[4], ip[5]);
  }

  lemma FourFs(a: char, b: char, c: char, d: char)
    requires IsF(a) && IsF(b) && IsF(c) && IsF(d)
    ensures ReadDigits(Sixteen, [a, b, c, d]) == Some(0xffff)
  {
    assert DigitValue(Sixteen, a) == DigitValue(Sixteen, b) == DigitValue(Sixteen, c) == Some(15);
    assert DigitValue(Sixteen, d) == Some(15) && ReadDigits(Sixteen, "") == Some(0);
    assert "" + [a] == [a] && [a] + [b] == [a, b] && [a, b] + [c] == [a, b, c] && [a, b, c] + [d] == [a, b, c, d];
    hide ReadDigits, DigitValue;
    ReadSnoc(Sixteen, "", a);
    ReadSnoc(Sixteen, [a], b);
    ReadSnoc(Sixteen, [a, b], c);
    ReadSnoc(Sixteen, [a, b, c], d);
  }

  lemma MappedParts(ip: string)
    requires Mapped(ip)
    ensures Split(ip, ':') == ["", "", Marker(ip)] + Split(Strip(ip), ':')
  {
    MarkerIsFfff(ip);
    MappedText(ip);
    hide *;
    NothingWithout();
    FirstPart(ip, "", ':');
    FirstPart(ip[1..], "", ':');
    FirstPart(ip[2..], Marker(ip), ':');
    ThreeInFront(Marker(ip), Split(Strip(ip), ':'));
  }

  lemma MappedText(ip: string)
    requires Mapped(ip)
    ensures |ip| >= 7 && ip[0] == ':' && ip[1..][0] == ':' && ip[1..][1..] == ip[2..]
    ensures ip[..0] == "" == ip[1..][..0]
    ensures |Marker(ip)| == 4 && ip[2..][..4] == Marker(ip) && ip[2..][4] == ':' && ip[2..][5..] == Strip(ip)
  {}

  lemma ThreeInFront(m: string, parts: seq<string>)
    ensures [""] + ([""] + ([m] + parts)) == ["", "", m] + parts
  {}

  /** The first part of a text. */
  lemma FirstPart(s: string, head: string, sep: char)
    requires |head| < |s| && s[..|head|] == head && s[|head|] == sep && Without(head, sep)
    ensures Split(s, sep) == [head] + Split(s[|head| + 1..], sep)
  {
    hide *;
    SplitHead(head, sep, s[|head| + 1..]);
    assert s == head + [sep] + s[|head| + 1..];
  }

  lemma NothingWithout()
    ensures Without("", ':')
  {}

  lemma MappedNetwork(ip: string)
    requires Mapped(ip) && NetworkOf(ip).Some? && NetworkOf(ip).value.Net64?
    ensures var parts := Split(Strip(ip), ':');
      && 1 <= |parts| <= 6 && !IsQuad(Strip(ip))
      && NetworkOf(ip).value.groups == (Zeros(7 - |parts|) + [0xffff] + Numbers(Sixteen, parts))[..4]
  {
    var parts, m := Split(Strip(ip), ':'), Marker(ip);
    MappedParts(ip);
    MarkerIsFfff(ip);
    MappedGroups(m, parts);
    GroupsAreEight(Split(ip, ':'));
    hide Groups, Split, IsQuad, Mapped, Strip, HexGroup, Number, Numbers, Zeros;
  }

  lemma MappedGroups(m: string, parts: seq<string>)
    requires m != "" && Number(Sixteen, m) == 0xffff && parts != [] && Groups(["", "", m] + parts).Some?
    ensures |parts| <= 6
    ensures Groups(["", "", m] + parts).value == Zeros(7 - |parts|) + [0xffff] + Numbers(Sixteen, parts)
  {
    var all := ["", "", m] + parts;
    assert FirstEmpty(all) == 0 && all[2..] == [m] + parts && AfterGap(all, 0) == Some([m] + parts);
    assert Numbers(Sixteen, [m] + parts) == [0xffff] + Numbers(Sixteen, parts);
    assert all[..0] == [] && Numbers(Sixteen, []) == [];
    hide FirstEmpty, AfterGap, HexGroup, Number;
  }

  lemma UsualZeroAndFfff()
    ensures Digits(Sixteen, 0) == "0" && Digits(Sixteen, 0xffff) == "ffff"
    ensures Number(Sixteen, "0") == 0 && Number(Sixteen, "ffff") == 0xffff
  {
    assert Digits(Sixteen, 0xf) == "f" && Digits(Sixteen, 0xff) == "ff" && Digits(Sixteen, 0xfff) == "fff";
    DigitsReadBack(Sixteen, 0);
    DigitsReadBack(Sixteen, 0xffff);
  }

  /** For an IPv6 address with the prefix it says: what follows repeats the network's own groups, which leaves three
      forms. */
  lemma SpelledMappedIff(ip: string)
    requires NetworkOf(ip).Some? && NetworkOf(ip).value.Net64? && Mapped(ip)
    ensures var parts := Split(Strip(ip), ':');
      Spelled(ip) <==>
        || parts == ["0", "0", "0", "ffff"]
        || (|parts| == 5 && parts[..4] == ["0", "0", "ffff", "0"])
        || (|parts| == 6 && parts[..4] == ["0", "ffff", "0", "ffff"])
  {
    var parts := Split(Strip(ip), ':');
    MappedNetwork(ip);
    UsualZeroAndFfff();
    SpelledFour(ip);
    hide *;
    if |parts| >= 4 {
      MappedFront(parts);
      SpellFour(parts[..4], (Zeros(7 - |parts|) + [0xffff] + Numbers(Sixteen, parts))[..4]);
      FrontFour(parts);
    }
  }

  lemma SpelledFour(ip: string)
    requires NetworkOf(ip).Some? && NetworkOf(ip).value.Net64?
    ensures Spelled(ip) <==>
      var parts := Split(Strip(ip), ':'); |parts| >= 4 && parts[..4] == Spell(Sixteen, NetworkOf(ip).value.groups)
  {
    hide NetworkOf, Split, Strip, Spell;
  }

  lemma FrontFour(parts: seq<string>)
    requires |parts| >= 4
    ensures parts[..4] == [parts[0], parts[1], parts[2], parts[3]]
    ensures |parts| == 4 ==> parts[..4] == parts
  {}

  /** The four network groups when four, five or six parts follow the prefix. */
  lemma MappedFront(parts: seq<string>)
    requires 4 <= |parts| <= 6
    ensures var front := (Zeros(7 - |parts|) + [0xffff] + Numbers(Sixteen, parts))[..4];
      && |front| == 4
      && (|parts| == 4 ==> front[0] == front[1] == front[2] == 0 && front[3] == 0xffff)
      && (|parts| == 5 ==> front[0] == front[1] == 0 && front[2] == 0xffff && front[3] == Number(Sixteen, parts[0]))
      && (|parts| == 6 ==> front[0] == 0 && front[1] == 0xffff && front[2] == Number(Sixteen, parts[0])
                           && front[3] == Number(Sixteen, parts[1]))
  {
    hide Number;
  }

  // ----- The two ways to fail

  /** The /64 of `left::right`. */
  function Front(left: string, right: seq<string>): seq<nat>
    requires |right| <= 6
  {
    ([Number(Sixteen, left)] + Zeros(7 - |right|) + Numbers(Sixteen, right))[..4]
  }

  lemma ShortFront(left: string, right: seq<string>)
    requires |right| <= 4
    ensures Front(left, right) == [Number(Sixteen, left), 0, 0, 0]
  {
    hide Number;
  }

  lemma LongFront(left: string, right: seq<string>)
    requires |right| == 5
    ensures Front(left, right) == [Number(Sixteen, left), 0, 0, Number(Sixteen, right[0])]
  {
    hide Number;
  }

  lemma GappedParts(ip: string, left: string, right: seq<string>)
    requires HexGroup(left) && right != [] && HexGroups(right) && |right| <= 6
    requires ip == Join([left, ""] + right, ":")
    ensures Split(ip, ':') == [left, ""] + right && !Mapped(ip)
    ensures NetworkOf(ip) == Some(Net64(Front(left, right)))
    ensures !IsQuad(ip)
  {
    var parts := [left, ""] + right;
    forall i | 0 <= i < |parts|
      ensures Without(parts[i], ':') && Without(parts[i], '.')
    {
      NoSeparators();
      if parts[i] != "" {
        assert HexGroup(parts[i]);
        DigitsWithout(Sixteen, parts[i], ':');
        DigitsWithout(Sixteen, parts[i], '.');
      }
      hide HexGroup, Without, DigitValue;
    }
    StartsWithDigit(Sixteen, parts, ":");
    assert [':'] == ":";
    SplitJoin(parts, ':');
    NoDots(parts);
    GappedGroups(left, right);
    hide Join, Split, IsQuad, Mapped, Strip, Groups, HexGroup, Number, Numbers, Without;
  }

  lemma GappedGroups(left: string, right: seq<string>)
    requires HexGroup(left) && right != [] && HexGroups(right) && |right| <= 6
    ensures Groups([left, ""] + right)
      == Some([Number(Sixteen, left)] + Zeros(7 - |right|) + Numbers(Sixteen, right))
  {
    var parts := [left, ""] + right;
    assert left != "" && parts[1..][0] == "" && FirstEmpty(parts[1..]) == 0;
    assert FirstEmpty(parts) == 1 && parts[..1] == [left] && parts[2..] == right;
    assert right != [""] by {
      assert HexGroup(right[0]);
    }
    assert HexGroups([left]);
    assert Numbers(Sixteen, [left]) == [Number(Sixteen, left)];
    hide HexGroup, Number, FirstEmpty;
  }

  /** `x::y:z` and `x::y:w` are in one /64, but filed apart unless `z` and `w` are the same text: their third and fourth
      parts are taken for network groups. */
  lemma OneNetworkFiledApart(a: string, b: string, x: string, y: string, z: string, w: string)
    requires HexGroups([x, y, z, w]) && a == Join([x, "", y, z], ":") && b == Join([x, "", y, w], ":")
    ensures NetworkOf(a).Some? && NetworkOf(a) == NetworkOf(b)
    ensures ComputeSubnet(a) == ComputeSubnet(b) <==> z == w
  {
    FourGroups(x, y, z, w);
    assert [x, ""] + [y, z] == [x, "", y, z] && [x, ""] + [y, w] == [x, "", y, w] && [':'] == ":";
    LastPart([x, "", y], z, w);
    hide *;
    GappedParts(a, x, [y, z]);
    GappedParts(b, x, [y, w]);
    ShortFront(x, [y, z]);
    ShortFront(x, [y, w]);
    HexGroupWithout([x, "", y, z]);
    HexGroupWithout([x, "", y, w]);
    FiledByFour(a, [x, "", y, z]);
    FiledByFour(b, [x, "", y, w]);
    JoinedSame([x, "", y, z], [x, "", y, w], ':', "::/64");
  }

  lemma LastPart(front: seq<string>, z: string, w: string)
    ensures front + [z] == front + [w] <==> z == w
    ensures |front| == 3 ==>
      [front[0], front[1], front[2], z] == front + [z] && [front[0], front[1], front[2], w] == front + [w]
  {
    assert (front + [z])[|front|] == z && (front + [w])[|front|] == w;
  }

  lemma FourGroups(x: string, y: string, z: string, w: string)
    requires HexGroups([x, y, z, w])
    ensures HexGroup(x) && HexGroups([y, z]) && HexGroups([y, w])
    ensures HexGroup(y) && HexGroup(z) && HexGroup(w)
  {
    assert HexGroup([x, y, z, w][0]) && HexGroup([x, y, z, w][1]);
    assert HexGroup([x, y, z, w][2]) && HexGroup([x, y, z, w][3]);
    hide HexGroup;
  }

  lemma HexGroupWithout(parts: seq<string>)
    requires forall i :: 0 <= i < |parts| ==> parts[i] == "" || HexGroup(parts[i])
    ensures AllWithout(parts, ':')
  {
    forall i | 0 <= i < |parts|
      ensures Without(parts[i], ':')
    {
      NoSeparators();
      if parts[i] != "" {
        DigitsWithout(Sixteen, parts[i], ':');
      }
      hide DigitValue, AllDigits, Without;
    }
  }

  lemma FiledByFour(ip: string, parts: seq<string>)
    requires Split(ip, ':') == parts && |parts| >= 4 && !Mapped(ip) && !IsQuad(ip)
    ensures ComputeSubnet(ip) == Join(parts[..4], ":") + "::/64"
    ensures |parts| == 4 ==> parts[..4] == parts
  {
    hide Join, IsQuad;
  }

  /** `x::a:b:c:d:e` and `x::a:b:c` are always filed together, but are in one /64 only if `a` is zero. */
  lemma TwoNetworksFiledTogether(p: string, q: string, x: string, a: string, b: string, c: string, d: string, e: string)
    requires HexGroup(x) && HexGroups([a, b, c, d, e])
    requires p == Join([x, "", a, b, c, d, e], ":") && q == Join([x, "", a, b, c], ":")
    ensures ComputeSubnet(p) == ComputeSubnet(q)
    ensures NetworkOf(p).Some? && NetworkOf(q).Some?
    ensures NetworkOf(p) == NetworkOf(q) <==> Number(Sixteen, a) == 0
  {
    var long, short := [a, b, c, d, e], [a, b, c];
    FirstThree(long, short);
    assert [x, ""] + long == [x, "", a, b, c, d, e] && [x, ""] + short == [x, "", a, b, c];
    assert [x, "", a, b, c, d, e][..4] == [x, "", a, b] == [x, "", a, b, c][..4];
    hide *;
    GappedParts(p, x, long);
    GappedParts(q, x, short);
    FiledByFour(p, [x, "", a, b, c, d, e]);
    FiledByFour(q, [x, "", a, b, c]);
    LongFront(x, long);
    ShortFront(x, short);
    LastGroup(Number(Sixteen, x), Number(Sixteen, a));
  }

  lemma LastGroup(first: nat, last: nat)
    ensures [first, 0, 0, last] == [first, 0, 0, 0] <==> last == 0
  {
    assert [first, 0, 0, last][3] == last;
  }

  lemma FirstThree(long: seq<string>, short: seq<string>)
    requires HexGroups(long) && |long| == 5 && short == long[..3]
    ensures HexGroups(short)
  {
    hide HexGroup;
  }

  /** An address written in fewer than four parts, such as `x::y`, is a subnet of its own. */
  lemma ShortAddressesFiledAlone(ip: string, x: string, y: string)
    requires HexGroup(x) && HexGroup(y) && ip == Join([x, "", y], ":")
    ensures ComputeSubnet(ip) == ip && NetworkOf(ip) == Some(Net64([Number(Sixteen, x), 0, 0, 0]))
  {
    assert [x, ""] + [y] == [x, "", y];
    assert HexGroups([y]);
    hide Join, Split, IsQuad, Mapped, Groups, HexGroup, Number, NetworkOf, Front;
    GappedParts(ip, x, [y]);
    ShortFront(x, [y]);
  }
}
