/** Saving an untouched edit form: which values of a manifest come back, control by control and for a whole form. */
module EditFormRoundTrip {
  import opened Prelude
  import opened Text
  import opened EditForm

  // ----- One control

  lemma {:induction false} OneLineRemoves(s: string)
    ensures Without(OneLine(s), '\n') && Without(OneLine(s), '\r')
    ensures Without(s, '\n') && Without(s, '\r') ==> OneLine(s) == s
  {
    if s == "" {
    } else {
      OneLineRemoves(s[1..]);
      assert [s[0]] + s[1..] == s;
    }
  }

  lemma {:induction false} UnixLinesRemoves(s: string)
    ensures Without(UnixLines(s), '\r')
    ensures Without(s, '\r') ==> UnixLines(s) == s
  {
    if s == "" {
    } else {
      UnixLinesRemoves(s[1..]);
      assert [s[0]] + s[1..] == s;
    }
  }

  lemma OneLineStep(s: string)
    requires s != ""
    ensures OneLine(s) == (if s[0] == '\n' || s[0] == '\r' then "" else [s[0]]) + OneLine(s[1..])
  {}

  /** An input holds a text without its line breaks. */
  lemma {:induction false} BreaksVanish(head: string, c: char, rest: string)
    requires c == '\r' || c == '\n'
    requires '\r' !in head && '\n' !in head
    ensures OneLine(head + [c] + rest) == head + OneLine(rest) && OneLine(head) == head
  {
    var s := head + [c] + rest;
    if head == "" {
      OneLineStep(s);
      assert s[0] == c && s[1..] == rest && "" + OneLine(rest) == OneLine(rest);
    } else {
      OneLineStep(s);
      OneLineStep(head);
      assert s[0] == head[0] && s[1..] == head[1..] + [c] + rest && [head[0]] + head[1..] == head;
      hide OneLine;
      BreaksVanish(head[1..], c, rest);
      assert [head[0]] + (head[1..] + OneLine(rest)) == head + OneLine(rest);
    }
  }

  /** A text area holds each CR LF, and each CR on its own, as LF. */
  lemma {:induction false} BreaksBecomeLf(head: string, rest: string)
    requires '\r' !in head
    ensures UnixLines(head + "\r\n" + rest) == head + "\n" + UnixLines(rest)
    ensures rest == "" || rest[0] != '\n' ==> UnixLines(head + "\r" + rest) == head + "\n" + UnixLines(rest)
    ensures UnixLines(head) == head
  {
    var crlf, cr := head + "\r\n" + rest, head + "\r" + rest;
    if head == "" {
      assert crlf[1..] == "\n" + rest && ("\n" + rest)[1..] == rest && cr[1..] == rest;
    } else {
      assert crlf[1..] == head[1..] + "\r\n" + rest && cr[1..] == head[1..] + "\r" + rest;
      assert [head[0]] + head[1..] == head;
      BreaksBecomeLf(head[1..], rest);
    }
  }

  lemma TrimWithout(s: string, c: char)
    requires Without(s, c)
    ensures Without(Trim(s), c)
  {}

  lemma LineText(s: string)
    ensures Trim(OneLine(s)) == s <==> Trimmed(s) && Without(s, '\n') && Without(s, '\r')
  {
    OneLineRemoves(s);
    TrimIsTrimmed(OneLine(s));
    TrimWithout(OneLine(s), '\n');
    TrimWithout(OneLine(s), '\r');
    hide *;
  }

  lemma AreaText(s: string)
    ensures Trim(UnixLines(s)) == s <==> Trimmed(s) && Without(s, '\r')
  {
    UnixLinesRemoves(s);
    TrimIsTrimmed(UnixLines(s));
    TrimWithout(UnixLines(s), '\r');
    hide *;
  }

  lemma ChoiceText(s: string)
    ensures Trim(s) == s <==> Trimmed(s)
    ensures Trim("") == ""
  {
    TrimIsTrimmed(s);
    TrimIsTrimmed("");
    hide Trim, Trimmed;
  }

  lemma TextSurvivesIff(codec: Codec, k: Kind, s: string)
    requires Typed(k, Text(s))
    ensures Read(codec, k, Held(k, s)) == Some(Text(s)) <==> CleanText(k, s)
  {
    LineText(s);
    AreaText(s);
    ChoiceText(s);
    hide Trim, Trimmed, OneLine, UnixLines, Without, Split, NonBlank, ReadNumbers;
  }

  // Lists.

  function ListText(xs: seq<string>, gap: string): string {
    Join(xs, "," + gap)
  }

  lemma ItemFacts(x: string)
    requires CleanItem(x)
    ensures x != "" && Trimmed(x) && Without(x, ',') && Without(x, '\n') && Without(x, '\r')
  {}

  lemma PaddedWithout(lead: string, x: string)
    requires Without(x, ',') && (lead == "" || lead == " ")
    ensures Without(lead + x, ',')
  {}

  lemma PaddedItem(lead: string, x: string)
    requires CleanItem(x) && (lead == "" || lead == " ")
    ensures Trim(lead + x) == x != "" && Without(lead + x, ',')
  {
    hide *;
    ItemFacts(x);
    PaddedWithout(lead, x);
    if lead == "" {
      assert lead + x == x;
      TrimIsTrimmed(x);
    } else {
      TrimPadded(x);
    }
  }

  lemma NonBlankStep(part: string, x: string, rest: seq<string>)
    requires Trim(part) == x != ""
    ensures NonBlank([part] + rest) == [x] + NonBlank(rest)
  {
    assert ([part] + rest)[1..] == rest;
  }

  lemma LastItem(part: string, x: string, gap: string)
    requires Trim(part) == x != ""
    ensures NonBlank([part]) == [x] && ListText([x], gap) == x
  {
    assert NonBlank([part][1..]) == [];
  }

  lemma ListTextStep(lead: string, xs: seq<string>, gap: string)
    requires |xs| > 1
    ensures lead + ListText(xs, gap) == lead + xs[0] + [','] + (gap + ListText(xs[1..], gap))
  {}

  lemma CleanTail(xs: seq<string>)
    requires CleanItems(xs)
    ensures xs != [] && CleanItem(xs[0]) && xs == [xs[0]] + xs[1..] && (|xs| > 1 ==> CleanItems(xs[1..]))
  {
    hide CleanItem;
  }

  lemma OneListed(x: string, gap: string)
    ensures ListText([x], gap) == x
  {}

  /** Splitting and trimming undoes joining. */
  lemma {:induction false} CleanItemsComeBack(xs: seq<string>, gap: string, lead: string)
    requires CleanItems(xs) && (gap == "" || gap == " ") && (lead == "" || lead == " ")
    ensures NonBlank(Split(lead + ListText(xs, gap), ',')) == xs
    decreases |xs|
  {
    hide *;
    CleanTail(xs);
    var x, rest := xs[0], xs[1..];
    PaddedItem(lead, x);
    if rest == [] {
      assert xs == [x];
      LastItem(lead + x, x, gap);
      SplitHead(lead + x, ',', "");
    } else {
      var tail := gap + ListText(rest, gap);
      ListTextStep(lead, xs, gap);
      SplitHead(lead + x, ',', tail);
      CleanItemsComeBack(rest, gap, gap);
      NonBlankStep(lead + x, x, Split(tail, ','));
    }
  }

  /** A text that a control holds as it is. */
  predicate CleanLineText(s: string) {
    s != "" && Trimmed(s) && Without(s, '\n') && Without(s, '\r')
  }

  lemma ItemIsLine(x: string)
    requires CleanItem(x)
    ensures CleanLineText(x)
  {}

  lemma LinesJoin(a: string, sep: string, b: string)
    requires CleanLineText(a) && CleanLineText(b) && (sep == "," || sep == ", ")
    ensures CleanLineText(a + sep + b)
  {
    var s := a + sep + b;
    assert s[0] == a[0] && s[|s| - 1] == b[|b| - 1];
    hide IsSpace;
  }

  lemma TwoListed(xs: seq<string>, gap: string)
    requires |xs| > 1
    ensures ListText(xs, gap) == xs[0] + ("," + gap) + ListText(xs[1..], gap)
  {}

  /** A joined list of clean items is itself clean. */
  lemma {:induction false} ListTextClean(xs: seq<string>, gap: string)
    requires CleanItems(xs) && (gap == "" || gap == " ")
    ensures CleanLineText(ListText(xs, gap))
    decreases |xs|
  {
    hide *;
    CleanTail(xs);
    ItemIsLine(xs[0]);
    if |xs| > 1 {
      ListTextClean(xs[1..], gap);
      TwoListed(xs, gap);
      assert "," + "" == "," && "," + " " == ", ";
      LinesJoin(xs[0], "," + gap, ListText(xs[1..], gap));
    } else {
      assert xs == [xs[0]];
      OneListed(xs[0], gap);
    }
  }

  lemma LineHeld(s: string)
    requires CleanLineText(s)
    ensures OneLine(s) == Trim(s) == s != ""
  {
    OneLineRemoves(s);
    TrimIsTrimmed(s);
    hide OneLine, Trim, Trimmed, Without;
  }

  predicate OneItem(s: string) {
    Without(s, ',') && Without(s, '\n') && Without(s, '\r')
  }

  lemma TrimmedItem(part: string)
    requires OneItem(part)
    ensures Trim(part) == "" || CleanItem(Trim(part))
  {
    TrimIsTrimmed(part);
    TrimWithout(part, ',');
    TrimWithout(part, '\n');
    TrimWithout(part, '\r');
    hide Trim, Trimmed, Without;
  }

  predicate EachOneItem(parts: seq<string>) {
    forall i :: 0 <= i < |parts| ==> OneItem(parts[i])
  }

  predicate EachClean(xs: seq<string>) {
    forall i :: 0 <= i < |xs| ==> CleanItem(xs[i])
  }

  lemma EachCleanCons(x: string, rest: seq<string>)
    requires CleanItem(x) && EachClean(rest)
    ensures EachClean([x] + rest)
  {
    hide CleanItem;
  }

  lemma NonBlankCons(parts: seq<string>)
    requires parts != []
    ensures var x := Trim(parts[0]);
      NonBlank(parts) == if x == "" then NonBlank(parts[1..]) else [x] + NonBlank(parts[1..])
    ensures EachOneItem(parts) ==> OneItem(parts[0]) && EachOneItem(parts[1..])
  {
    hide Trim, OneItem;
  }

  /** Whatever is split and trimmed gives clean items. */
  lemma {:induction false} NonBlankClean(parts: seq<string>)
    requires EachOneItem(parts)
    ensures EachClean(NonBlank(parts))
  {
    if parts == [] {
      assert NonBlank(parts) == [];
    } else {
      hide *;
      NonBlankCons(parts);
      TrimmedItem(parts[0]);
      NonBlankClean(parts[1..]);
      if Trim(parts[0]) != "" {
        EachCleanCons(Trim(parts[0]), NonBlank(parts[1..]));
      }
    }
  }

  lemma {:induction false} SplitKeeps(s: string, sep: char, c: char)
    requires Without(s, c)
    ensures forall i :: 0 <= i < |Split(s, sep)| ==> Without(Split(s, sep)[i], c)
  {
    if s == "" {
    } else {
      SplitKeeps(s[1..], sep, c);
      assert Without(Split(s[1..], sep)[0], c);
    }
  }

  lemma SplitOneLine(s: string)
    requires Without(s, '\n') && Without(s, '\r')
    ensures EachClean(NonBlank(Split(s, ',')))
  {
    SplitWithout(s, ',');
    SplitKeeps(s, ',', '\n');
    SplitKeeps(s, ',', '\r');
    assert EachOneItem(Split(s, ',')) by {
      hide Without, Split;
    }
    hide *;
    NonBlankClean(Split(s, ','));
  }

  lemma ReadsList(codec: Codec, gap: string, t: string)
    ensures Read(codec, Commas(gap), t)
      == if Trim(t) == "" then None else Some(Items(NonBlank(Split(Trim(t), ','))))
  {
    hide Trim, Split, NonBlank;
  }

  lemma CleanListReads(codec: Codec, gap: string, xs: seq<string>)
    requires (gap == "" || gap == " ") && CleanItems(xs)
    ensures Read(codec, Commas(gap), OneLine(ListText(xs, gap))) == Some(Items(xs))
  {
    hide *;
    var s := ListText(xs, gap);
    ListTextClean(xs, gap);
    CleanItemsComeBack(xs, gap, "");
    LineHeld(s);
    assert "" + s == s;
    ReadsList(codec, gap, s);
  }

  lemma ReadListsAreClean(codec: Codec, gap: string, s: string)
    ensures var r := Read(codec, Commas(gap), OneLine(s));
      r.Some? && r.value.Items? && r.value.items != [] ==> CleanItems(r.value.items)
  {
    var t := OneLine(s);
    OneLineRemoves(s);
    TrimWithout(t, '\n');
    TrimWithout(t, '\r');
    SplitOneLine(Trim(t));
    ReadsList(codec, gap, t);
    hide Read, Trim, OneLine, Split, NonBlank, Without, CleanItem;
  }

  lemma NoItems(codec: Codec, gap: string)
    ensures Read(codec, Commas(gap), OneLine(ListText([], gap))).None?
  {
    TrimIsTrimmed("");
    assert ListText([], gap) == "" && OneLine("") == "";
    hide Trim, Trimmed, OneLine, ListText;
  }

  lemma ItemsSurviveIff(codec: Codec, gap: string, xs: seq<string>)
    requires gap == "" || gap == " "
    ensures Read(codec, Commas(gap), OneLine(ListText(xs, gap))) == Some(Items(xs)) <==> CleanItems(xs)
  {
    NoItems(codec, gap);
    ReadListsAreClean(codec, gap, ListText(xs, gap));
    assert CleanItems(xs) ==> xs != [];
    hide *;
    if CleanItems(xs) {
      CleanListReads(codec, gap, xs);
    }
  }

  // Numbers.

  lemma ReadNumbersStep(part: string, n: int, rest: seq<string>)
    requires ReadNumber(Trim(part)) == Some(n)
    ensures ReadNumbers([part] + rest) == [n] + ReadNumbers(rest)
  {
    assert ([part] + rest)[1..] == rest;
  }

  lemma {:induction false} NumbersReadBack(ns: seq<int>)
    ensures ReadNumbers(Decimals(ns)) == ns
  {
    if ns == [] {
    } else {
      assert Decimals(ns) == [Decimal(ns[0])] + Decimals(ns[1..]) && [ns[0]] + ns[1..] == ns;
      hide *;
      NumbersReadBack(ns[1..]);
      DecimalReadsBack(ns[0]);
      DecimalIsClean(ns[0]);
      ReadNumbersStep(Decimal(ns[0]), ns[0], Decimals(ns[1..]));
    }
  }

  lemma {:induction false} DecimalsAreClean(ns: seq<int>, i: nat)
    requires i < |ns|
    ensures CleanItem(Decimals(ns)[i])
    decreases i
  {
    DecimalIsClean(ns[0]);
    if i > 0 {
      DecimalsAreClean(ns[1..], i - 1);
    }
    hide CleanItem, Decimal;
  }

  lemma DecimalIsClean(n: int)
    ensures CleanItem(Decimal(n)) && Trim(Decimal(n)) == Decimal(n)
  {
    DecimalReadsBack(n);
    TrimIsTrimmed(Decimal(n));
    hide Decimal, Trim;
  }

  lemma ReadsNumbers(codec: Codec, t: string)
    ensures Read(codec, Numbers, t)
      == if Trim(t) == "" then None else Some(Codes(ReadNumbers(Split(Trim(t), ','))))
  {
    hide Trim, Split, ReadNumbers;
  }

  lemma AllDecimalsClean(ns: seq<int>)
    requires ns != []
    ensures CleanItems(Decimals(ns))
  {
    forall i | 0 <= i < |ns|
      ensures CleanItem(Decimals(ns)[i])
    {
      DecimalsAreClean(ns, i);
    }
    hide Decimals, CleanItem;
  }

  lemma JoinedByCommas(parts: seq<string>)
    requires CleanItems(parts)
    ensures var s := Join(parts, ","); OneLine(s) == Trim(s) == s != "" && Split(s, ',') == parts
  {
    PartsWithout(parts);
    assert "," + "" == "," && [','] == ",";
    hide *;
    ListTextClean(parts, "");
    JoinedList(parts, "");
    LineHeld(ListText(parts, ""));
    SplitJoin(parts, ',');
  }

  lemma CodesSurviveIff(codec: Codec, ns: seq<int>)
    ensures Read(codec, Numbers, OneLine(Join(Decimals(ns), ","))) == Some(Codes(ns)) <==> ns != []
  {
    if ns != [] {
      hide *;
      AllDecimalsClean(ns);
      JoinedByCommas(Decimals(ns));
      NumbersReadBack(ns);
      ReadsNumbers(codec, Join(Decimals(ns), ","));
    } else {
      TrimIsTrimmed("");
      assert Join(Decimals(ns), ",") == "" && OneLine("") == "";
      hide Trim, Trimmed, OneLine, Join, Decimals;
    }
  }

  lemma PartsWithout(parts: seq<string>)
    requires CleanItems(parts)
    ensures parts != []
    ensures forall i :: 0 <= i < |parts| ==> Without(parts[i], ',')
  {}

  // JSON.

  lemma DataSurvives(codec: Codec, es: seq<string>)
    requires Faithful(codec) && es != []
    ensures Read(codec, Json, UnixLines(codec.stringify(es))) == Some(Data(es))
  {
    var s := codec.stringify(es);
    UnixLinesRemoves(s);
    TrimIsTrimmed(s);
    hide Trim, Trimmed, Without, UnixLines;
  }

  // ----- Any control

  lemma InitialReads(codec: Codec, c: Control)
    requires WellFormed(c)
    ensures Read(codec, c.kind, c.initial).None? <==> Blank(c.initial) && !c.kind.Mandatory?
    ensures c.initial == "" && !c.kind.Mandatory? ==> Read(codec, c.kind, c.initial).None?
    ensures c.kind.Json? ==> Read(codec, c.kind, c.initial).None?
  {
    TrimIsTrimmed(c.initial);
    TrimIsTrimmed("");
    hide Trim, Trimmed, Split, NonBlank, ReadNumbers;
  }

  /** After filling and saving, a control gives back what the manifest had, or leaves out what it had not, exactly when
      the value survives. */
  lemma SurvivesIff(codec: Codec, c: Control, v: Option<Value>)
    requires Faithful(codec) && WellFormed(c) && (v.Some? ==> Typed(c.kind, v.value))
    ensures Read(codec, c.kind, Shown(codec, c, v)) == v <==> Survives(c, v)
  {
    InitialReads(codec, c);
    if v.Some? && c.populated {
      FilledSurvivesIff(codec, c, v.value);
    }
    hide Read, Held, Written, Blank, CleanItem, CleanText;
  }

  lemma FilledSurvivesIff(codec: Codec, c: Control, v: Value)
    requires Faithful(codec) && WellFormed(c) && c.populated && Typed(c.kind, v)
    ensures Read(codec, c.kind, Shown(codec, c, Some(v))) == Some(v) <==> Survives(c, Some(v))
  {
    hide Read, Blank, CleanItem, CleanText, Join, OneLine, UnixLines;
    match v
    case Text(s) =>
      hide Held;
      TextSurvivesIff(codec, c.kind, s);
    case Items(xs) =>
      ItemsSurviveIff(codec, c.kind.gap, xs);
      JoinedList(xs, c.kind.gap);
    case Codes(ns) =>
      assert "," + "" == ",";
      CodesSurviveIff(codec, ns);
    case Data(es) =>
      if es == [] {
        InitialReads(codec, c);
      } else {
        DataSurvives(codec, es);
      }
  }

  lemma JoinedList(xs: seq<string>, gap: string)
    ensures Join(xs, "," + gap) == ListText(xs, gap)
  {}
}
