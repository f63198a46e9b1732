/** How the generated scripts quote operator text (clientconfig.js, entra-helper.js), and what the two shells read back.
    The shells' own lexers are written from their documentation: PowerShell verbatim strings, which any of five
    characters may open and close, and section 2.2.2 of POSIX.1-2017 Shell Command Language. */
module Quoting {
  import opened Prelude
  import opened Text

  /** What a lexer read, and the text it left; None when the input is not one whole token. */
  type Lexed = Option<(string, string)>

  function Prepend(v: string, l: Lexed): Lexed {
    if l.None? then None else Some((v + l.value.0, l.value.1))
  }

  lemma PrependTwice(u: string, v: string, l: Lexed)
    ensures Prepend(u, Prepend(v, l)) == Prepend(u + v, l)
  {
    if l.Some? {
      assert u + (v + l.value.0) == u + v + l.value.0;
    }
  }

  lemma PrependNothing(l: Lexed)
    ensures Prepend("", l) == l
  {
    if l.Some? {
      assert "" + l.value.0 == l.value.0;
    }
  }

  /** Text in front of an escaped value. */
  lemma InFront(s: string, first: string, escaped: string, tail: string)
    requires s == first + escaped
    ensures s + tail == first + (escaped + tail)
  {}

  // ----- PowerShell

  predicate Breaks(c: char) {
    c == '\r' || c == '\n' || c == '\0'
  }

  /** `/[\r\n\0]/`. */
  predicate HasBreaks(s: string) {
    exists i :: 0 <= i < |s| && Breaks(s[i])
  }

  lemma BreaksIff(s: string)
    ensures HasBreaks(s) <==> '\r' in s || '\n' in s || '\0' in s
  {
    if '\r' in s || '\n' in s || '\0' in s {
      var i :| 0 <= i < |s| && (s[i] == '\r' || s[i] == '\n' || s[i] == '\0');
      assert Breaks(s[i]);
    }
  }

  function DoubledChar(c: char): string {
    if c == '\'' then "''" else [c]
  }

  /** `` s.replace(/'/g, "''") ``. */
  function Doubled(s: string): string {
    if s == "" then "" else DoubledChar(s[0]) + Doubled(s[1..])
  }

  datatype QuoteError = ControlCharacters(value: string)

  function PsSingleQuote(value: string): Result<string, QuoteError> {
    if HasBreaks(value) then Err(ControlCharacters(value)) else Ok("'" + Doubled(value) + "'")
  }

  /** The left, right, low and reversed single quotation marks. */
  predicate Typographic(c: char) {
    c == '\U{2018}' || c == '\U{2019}' || c == '\U{201A}' || c == '\U{201B}'
  }

  /** What PowerShell takes for a single quote. */
  predicate PsQuote(c: char) {
    c == '\'' || Typographic(c)
  }

  predicate HasTypographic(s: string) {
    exists i :: 0 <= i < |s| && Typographic(s[i])
  }

  lemma TypographicIff(s: string)
    ensures HasTypographic(s) <==> exists c :: c in s && 0x2018 <= c as int <= 0x201B
  {
    if exists c :: c in s && 0x2018 <= c as int <= 0x201B {
      var c :| c in s && 0x2018 <= c as int <= 0x201B;
      var i :| 0 <= i < |s| && s[i] == c;
      assert Typographic(s[i]);
    }
    if HasTypographic(s) {
      var i :| 0 <= i < |s| && Typographic(s[i]);
      assert s[i] in s;
    }
  }

  /** A verbatim string literal at the start of `s`. */
  function PsLiteral(s: string): Lexed {
    if s == "" || !PsQuote(s[0]) then None else PsBody(s[1..])
  }

  /** Of two quotes in a row the second stands for itself; a single one ends the literal. */
  function PsBody(s: string): Lexed {
    if s == "" then None
    else if !PsQuote(s[0]) then Prepend(s[..1], PsBody(s[1..]))
    else if |s| > 1 && PsQuote(s[1]) then Prepend(s[1..2], PsBody(s[2..]))
    else Some(("", s[1..]))
  }

  lemma DoubledCharLexes(c: char, tail: string)
    requires !Typographic(c)
    ensures PsBody(DoubledChar(c) + tail) == Prepend([c], PsBody(tail))
  {
    var s := DoubledChar(c) + tail;
    if c == '\'' {
      assert s[2..] == tail && s[1..2] == [c];
    } else {
      assert s[1..] == tail && s[..1] == [c];
    }
  }

  lemma {:induction false} DoubledLexes(v: string, tail: string)
    requires !HasTypographic(v)
    ensures PsBody(Doubled(v) + tail) == Prepend(v, PsBody(tail))
  {
    if v == "" {
      assert Doubled(v) + tail == tail;
      PrependNothing(PsBody(tail));
      hide *;
    } else {
      InFront(Doubled(v), DoubledChar(v[0]), Doubled(v[1..]), tail);
      assert [v[0]] + v[1..] == v;
      NoneTypographic(v);
      hide *;
      DoubledCharLexes(v[0], Doubled(v[1..]) + tail);
      DoubledLexes(v[1..], tail);
      PrependTwice([v[0]], v[1..], PsBody(tail));
    }
  }

  lemma NoneTypographic(v: string)
    requires v != ""
    ensures HasTypographic(v) <==> Typographic(v[0]) || HasTypographic(v[1..])
  {
    hide Typographic;
    if HasTypographic(v) && !Typographic(v[0]) {
      var i :| 0 <= i < |v| && Typographic(v[i]);
      assert Typographic(v[1..][i - 1]);
    }
    if HasTypographic(v[1..]) {
      var i :| 0 <= i < |v[1..]| && Typographic(v[1..][i]);
      assert Typographic(v[i + 1]);
    }
  }

  function Quotes(s: string): nat {
    if s == "" then 0 else (if PsQuote(s[0]) then 1 else 0) + Quotes(s[1..])
  }

  function Typographics(s: string): nat {
    if s == "" then 0 else (if Typographic(s[0]) then 1 else 0) + Typographics(s[1..])
  }

  lemma {:induction false} TypographicsIff(s: string)
    ensures Typographics(s) == 0 <==> !HasTypographic(s)
  {
    if s == "" {
    } else {
      NoneTypographic(s);
      hide HasTypographic, Typographic;
      TypographicsIff(s[1..]);
    }
  }

  /** Every quote in what was read took two characters, so a literal's length tells how many it holds. */
  lemma {:induction false} BodyLength(s: string)
    ensures PsBody(s).Some? ==>
      var (v, rest) := PsBody(s).value; |s| == |v| + Quotes(v) + 1 + |rest|
  {
    if s == "" {
    } else if !PsQuote(s[0]) {
      BodyLength(s[1..]);
      HeadQuotes(s[..1], PsBody(s[1..]));
    } else if |s| > 1 && PsQuote(s[1]) {
      BodyLength(s[2..]);
      HeadQuotes(s[1..2], PsBody(s[2..]));
    } else {
      assert PsBody(s) == Some(("", s[1..]));
    }
  }

  lemma HeadQuotes(head: string, l: Lexed)
    requires |head| == 1
    ensures l.Some? ==>
      Quotes(Prepend(head, l).value.0) == (if PsQuote(head[0]) then 1 else 0) + Quotes(l.value.0)
  {
    hide PsQuote;
    if l.Some? {
      assert (head + l.value.0)[1..] == l.value.0;
    }
  }

  /** Only apostrophes are doubled. */
  lemma {:induction false} DoubledLength(v: string)
    ensures |Doubled(v)| + Typographics(v) == |v| + Quotes(v)
  {
    if v == "" {
    } else {
      DoubledLength(v[1..]);
    }
  }

  /** A literal of any text, line breaks included, is read back as the text and leaves the rest of the script alone,
      exactly when the text holds no typographic quote and the rest does not start with a quote: the rule that
      buildAzScripts uses for its PowerShell variant. */
  lemma VerbatimInverts(value: string, rest: string)
    ensures PsLiteral("'" + Doubled(value) + "'" + rest) == Some((value, rest))
      <==> (forall c :: c in value ==> !(0x2018 <= c as int <= 0x201B)) && (rest == "" || !PsQuote(rest[0]))
  {
    TypographicIff(value);
    var tail := "'" + rest;
    LiteralBody(Doubled(value), rest);
    hide *;
    if HasTypographic(value) {
      TypographicsIff(value);
      DoubledLength(value);
      BodyLength(Doubled(value) + tail);
      assert |Doubled(value) + tail| == |Doubled(value)| + 1 + |rest|;
    } else {
      DoubledLexes(value, tail);
      ClosedBy(value, rest);
    }
  }

  lemma LiteralBody(body: string, rest: string)
    ensures PsLiteral("'" + body + "'" + rest) == PsBody(body + ("'" + rest))
  {
    assert ("'" + body + "'" + rest)[1..] == body + ("'" + rest);
    hide PsBody;
  }

  /** The closing apostrophe closes exactly when no quote follows. */
  lemma ClosedBy(value: string, rest: string)
    ensures Prepend(value, PsBody("'" + rest)) == Some((value, rest)) <==> rest == "" || !PsQuote(rest[0])
  {
    var tail := "'" + rest;
    assert tail[1..] == rest && value + "" == value;
    if rest != "" && PsQuote(rest[0]) {
      assert tail[1] == rest[0] && |tail[1..2]| == 1;
      if PsBody(tail).Some? {
        assert |PsBody(tail).value.0| > 0;
      }
    }
  }

  /** psSingleQuote accepts exactly the values without CR, LF or NUL, and makes such a literal of them. */
  lemma PsQuoteInverts(value: string, rest: string)
    ensures PsSingleQuote(value).Ok? <==> '\r' !in value && '\n' !in value && '\0' !in value
    ensures PsSingleQuote(value).Ok? ==>
      (PsLiteral(PsSingleQuote(value).value + rest) == Some((value, rest))
       <==> (forall c :: c in value ==> !(0x2018 <= c as int <= 0x201B)) && (rest == "" || !PsQuote(rest[0])))
  {
    VerbatimInverts(value, rest);
    BreaksIff(value);
    hide PsLiteral, Doubled, HasBreaks, PsQuote;
  }

  /** The display name of buildAzScripts loses its apostrophes before both shells quote it as it is. */
  function WithoutApostrophes(s: string): (t: string)
    ensures forall i :: 0 <= i < |t| ==> t[i] != '\''
  {
    if s == "" then "" else (if s[0] == '\'' then "" else [s[0]]) + WithoutApostrophes(s[1..])
  }

  lemma {:induction false} ApostrophesCutOut(s: string)
    ensures WithoutApostrophes(s) == Join(Split(s, '\''), "")
  {
    if s == "" {
    } else {
      ApostrophesCutOut(s[1..]);
      var rest := Split(s[1..], '\'');
      if s[0] == '\'' {
        JoinEmptyHead(rest, "");
      } else {
        JoinLongerHead(s[0], rest, "");
      }
      hide Join;
    }
  }

  lemma {:induction false} NothingDoubled(s: string)
    requires forall i :: 0 <= i < |s| ==> s[i] != '\''
    ensures Doubled(s) == s && BashEscape(s) == s
  {
    if s == "" {
    } else {
      NothingDoubled(s[1..]);
      assert [s[0]] + s[1..] == s;
    }
  }

  lemma {:induction false} TypographicStay(s: string)
    ensures HasTypographic(WithoutApostrophes(s)) <==> HasTypographic(s)
  {
    if s == "" {
    } else {
      var rest := WithoutApostrophes(s[1..]);
      NoneTypographic(s);
      NoneTypographic([s[0]] + rest);
      assert ([s[0]] + rest)[1..] == rest && "" + rest == rest && !Typographic('\'');
      TypographicStay(s[1..]);
      hide HasTypographic, Typographic;
    }
  }

  /** The name is the display name cut at its apostrophes and put together again.  On a line of its own a POSIX shell
      always reads that name; PowerShell reads the same exactly when the display name holds no typographic quote. */
  lemma SameNameInBoth(displayName: string, rest: string)
    requires rest != "" && rest[0] == '\n'
    ensures var name := WithoutApostrophes(displayName);
      && name == Join(Split(displayName, '\''), "")
      && Word("'" + name + "'" + rest) == Some((name, rest))
      && (PsLiteral("'" + name + "'" + rest) == Some((name, rest)) <==>
            forall c :: c in displayName ==> !(0x2018 <= c as int <= 0x201B))
  {
    ApostrophesCutOut(displayName);
    TypographicIff(displayName);
    var name := WithoutApostrophes(displayName);
    NothingDoubled(name);
    TypographicStay(displayName);
    assert Meta('\n') && !PsQuote('\n');
    TypographicIff(name);
    hide *;
    VerbatimInverts(name, rest);
    BashQuoteInverts(name, rest);
  }

  // ----- POSIX shell

  function EscapedChar(c: char): string {
    if c == '\'' then "'\\''" else [c]
  }

  /** `` s.replace(/'/g, `'\''`) ``. */
  function BashEscape(s: string): string {
    if s == "" then "" else EscapedChar(s[0]) + BashEscape(s[1..])
  }

  /** What ends a word. */
  predicate Meta(c: char) {
    c in {' ', '\t', '\n', '|', '&', ';', '<', '>', '(', ')'}
  }

  /** The rest of a word, outside quotes.  Expansions and double quotes are beyond this lexer: None. */
  function Word(s: string): Lexed
    decreases |s|
  {
    if s == "" || Meta(s[0]) then Some(("", s))
    else if s[0] == '\'' then Quoted(s[1..])
    else if s[0] == '\\' then (if |s| == 1 || s[1] == '\n' then None else Prepend(s[1..2], Word(s[2..])))
    else if s[0] in {'"', '$', '`'} then None
    else Prepend(s[..1], Word(s[1..]))
  }

  /** The rest of a word, inside single quotes: every character stands for itself up to the next apostrophe. */
  function Quoted(s: string): Lexed
    decreases |s|
  {
    if s == "" then None
    else if s[0] == '\'' then Word(s[1..])
    else Prepend(s[..1], Quoted(s[1..]))
  }

  lemma EscapedCharLexes(c: char, tail: string)
    ensures Quoted(EscapedChar(c) + tail) == Prepend([c], Quoted(tail))
  {
    var s := EscapedChar(c) + tail;
    if c == '\'' {
      var t, u := s[1..], "'" + tail;
      assert t == "\\''" + tail && t[2..] == u && t[1..2] == "'" && u[1..] == tail;
      assert Quoted(s) == Word(t) && Word(t) == Prepend("'", Word(u)) && Word(u) == Quoted(tail);
    } else {
      assert s[1..] == tail && s[..1] == [c];
    }
  }

  lemma {:induction false} EscapedLexes(v: string, tail: string)
    ensures Quoted(BashEscape(v) + tail) == Prepend(v, Quoted(tail))
  {
    if v == "" {
      assert BashEscape(v) + tail == tail;
      PrependNothing(Quoted(tail));
      hide *;
    } else {
      InFront(BashEscape(v), EscapedChar(v[0]), BashEscape(v[1..]), tail);
      assert [v[0]] + v[1..] == v;
      hide *;
      EscapedCharLexes(v[0], BashEscape(v[1..]) + tail);
      EscapedLexes(v[1..], tail);
      PrependTwice([v[0]], v[1..], Quoted(tail));
    }
  }

  /** A POSIX shell reads the quoted text as one word: the value, followed by whatever the rest adds to the word.  Where
      the rest ends the word, as the newline after an assignment does, it is the value itself. */
  lemma BashQuoteInverts(value: string, rest: string)
    ensures Word("'" + BashEscape(value) + "'" + rest) == Prepend(value, Word(rest))
    ensures rest == "" || Meta(rest[0]) ==> Word("'" + BashEscape(value) + "'" + rest) == Some((value, rest))
  {
    var x, tail := BashEscape(value) + ("'" + rest), "'" + rest;
    assert "'" + BashEscape(value) + "'" + rest == "'" + x;
    if rest == "" || Meta(rest[0]) {
      WordEnds(rest);
      assert value + "" == value;
    }
    OpensQuote(x);
    ClosesQuote(rest);
    hide Word, Quoted, BashEscape, Meta;
    EscapedLexes(value, tail);
  }

  lemma OpensQuote(x: string)
    ensures Word("'" + x) == Quoted(x)
  {
    assert ("'" + x)[1..] == x && !Meta('\'');
    hide Quoted;
  }

  lemma ClosesQuote(rest: string)
    ensures Quoted("'" + rest) == Word(rest)
  {
    assert ("'" + rest)[1..] == rest;
    hide Word;
  }

  lemma WordEnds(rest: string)
    requires rest == "" || Meta(rest[0])
    ensures Word(rest) == Some(("", rest))
  {
  }

  // ----- Block comments

  /** `.replace(/[\r\n\0]+/g, ' ')`; `after` says that the character before was part of a run. */
  function SpaceBreaks(s: string, after: bool): string {
    if s == "" then ""
    else if !Breaks(s[0]) then s[..1] + SpaceBreaks(s[1..], false)
    else (if after then "" else " ") + SpaceBreaks(s[1..], true)
  }

  /** `.replace(/#>/g, '# >')`. */
  function PartClosers(s: string): string {
    if |s| < 2 then s
    else if s[0] == '#' && s[1] == '>' then "# >" + PartClosers(s[2..])
    else s[..1] + PartClosers(s[1..])
  }

  function PsComment(value: string): string {
    PartClosers(SpaceBreaks(value, false))
  }

  predicate ClosesAt(s: string, i: nat) {
    i + 1 < |s| && s[i] == '#' && s[i + 1] == '>'
  }

  predicate HasCloser(s: string) {
    exists i :: 0 <= i < |s| && ClosesAt(s, i)
  }

  /** Two texts side by side close a comment only inside one of them, or across a `#` and a `>`. */
  lemma CloserInConcat(a: string, b: string)
    ensures HasCloser(a + b) <==>
      HasCloser(a) || HasCloser(b) || (a != "" && b != "" && a[|a| - 1] == '#' && b[0] == '>')
  {
    var s := a + b;
    if HasCloser(a) {
      var i :| 0 <= i < |a| && ClosesAt(a, i);
      assert ClosesAt(s, i);
    } else if HasCloser(b) {
      var i :| 0 <= i < |b| && ClosesAt(b, i);
      assert ClosesAt(s, |a| + i);
    } else if a != "" && b != "" && a[|a| - 1] == '#' && b[0] == '>' {
      assert ClosesAt(s, |a| - 1);
    } else if HasCloser(s) {
      var i :| 0 <= i < |s| && ClosesAt(s, i);
      assert i + 1 < |a| ==> ClosesAt(a, i);
      assert i >= |a| ==> ClosesAt(b, i - |a|);
    }
  }

  lemma {:induction false} BreaksSpaced(s: string, after: bool)
    ensures !HasBreaks(SpaceBreaks(s, after))
    ensures !HasBreaks(s) ==> SpaceBreaks(s, after) == s
  {
    if s == "" {
    } else {
      var first := if !Breaks(s[0]) then s[..1] else if after then "" else " ";
      OneBreak(s[0]);
      OneBreak(' ');
      assert s[..1] == [s[0]] && s == s[..1] + s[1..] && !HasBreaks("") && !Breaks(' ');
      SpaceStep(s, after);
      hide HasBreaks, Breaks, SpaceBreaks;
      BreaksSpaced(s[1..], Breaks(s[0]));
      BreaksInConcat(first, SpaceBreaks(s[1..], Breaks(s[0])));
      BreaksInConcat(s[..1], s[1..]);
    }
  }

  lemma OneBreak(c: char)
    ensures HasBreaks([c]) <==> Breaks(c)
  {
    assert [c][0] == c;
    hide Breaks;
  }

  lemma {:induction false} ClosersParted(s: string)
    ensures !HasCloser(PartClosers(s)) && (HasBreaks(PartClosers(s)) ==> HasBreaks(s))
    ensures s != "" ==> PartClosers(s) != "" && PartClosers(s)[0] == s[0]
    ensures !HasCloser(s) ==> PartClosers(s) == s
  {
    if |s| >= 2 {
      assert HasCloser(s) || !ClosesAt(s, 0);
      if ClosesAt(s, 0) {
        ClosersParted(s[2..]);
        CloserInConcat("# >", PartClosers(s[2..]));
        BreaksInConcat("# >", PartClosers(s[2..]));
        BreaksInConcat(s[..2], s[2..]);
        assert s[..2] + s[2..] == s;
      } else {
        ClosersParted(s[1..]);
        CloserInConcat(s[..1], PartClosers(s[1..]));
        CloserInConcat(s[..1], s[1..]);
        BreaksInConcat(s[..1], PartClosers(s[1..]));
        BreaksInConcat(s[..1], s[1..]);
        assert s[..1] + s[1..] == s;
      }
    }
  }

  lemma BreaksInConcat(a: string, b: string)
    ensures HasBreaks(a + b) <==> HasBreaks(a) || HasBreaks(b)
  {
    var s := a + b;
    if HasBreaks(a) {
      var i :| 0 <= i < |a| && Breaks(a[i]);
      assert Breaks(s[i]);
    }
    if HasBreaks(b) {
      var i :| 0 <= i < |b| && Breaks(b[i]);
      assert Breaks(s[|a| + i]);
    }
  }

  lemma {:induction false} LeadingBreaks(run: string, rest: string)
    requires (forall i :: 0 <= i < |run| ==> Breaks(run[i])) && (rest == "" || !Breaks(rest[0]))
    ensures SpaceBreaks(run + rest, true) == SpaceBreaks(rest, false)
  {
    hide Breaks;
    if run == "" {
      assert run + rest == rest;
    } else {
      assert (run + rest)[1..] == run[1..] + rest && (run + rest)[0] == run[0];
      LeadingBreaks(run[1..], rest);
    }
  }

  lemma SpaceStep(s: string, after: bool)
    requires s != ""
    ensures SpaceBreaks(s, after)
      == (if !Breaks(s[0]) then s[..1] else if after then "" else " ") + SpaceBreaks(s[1..], Breaks(s[0]))
  {
    hide Breaks;
  }

  lemma FirstOfThree(head: string, run: string, rest: string)
    requires head != ""
    ensures var s := head + run + rest;
      s != "" && s[1..] == head[1..] + run + rest && s[..1] == head[..1] && s[0] == head[0]
    ensures |head| > 1 ==> head[1..] != "" && head[1..][|head[1..]| - 1] == head[|head| - 1]
  {}

  lemma FourPieces(a: string, b: string, c: string, d: string)
    ensures a + (b + c + d) == a + b + c + d
  {}

  lemma {:induction false} RunBetween(head: string, run: string, rest: string, after: bool)
    requires if head == "" then !after else !Breaks(head[|head| - 1])
    requires run != "" && (forall i :: 0 <= i < |run| ==> Breaks(run[i])) && (rest == "" || !Breaks(rest[0]))
    ensures SpaceBreaks(head + run + rest, after) == SpaceBreaks(head, after) + " " + SpaceBreaks(rest, false)
  {
    if head == "" {
      assert SpaceBreaks(head, after) == "";
      hide *;
      var s := run + rest;
      assert head + run + rest == s && s[0] == run[0] && s[1..] == run[1..] + rest;
      SpaceStep(s, after);
      LeadingBreaks(run[1..], rest);
    } else {
      hide *;
      var s := head + run + rest;
      FirstOfThree(head, run, rest);
      SpaceStep(s, after);
      SpaceStep(head, after);
      RunBetween(head[1..], run, rest, Breaks(head[0]));
      var first := if !Breaks(head[0]) then head[..1] else if after then "" else " ";
      FourPieces(first, SpaceBreaks(head[1..], Breaks(head[0])), " ", SpaceBreaks(rest, false));
    }
  }

  /** In a comment each whole run of line breaks and NULs becomes one space. */
  lemma RunsBecomeSpaces(head: string, run: string, rest: string)
    requires head == "" || head[|head| - 1] !in {'\r', '\n', '\0'}
    requires run != "" && forall i :: 0 <= i < |run| ==> run[i] in {'\r', '\n', '\0'}
    requires rest == "" || rest[0] !in {'\r', '\n', '\0'}
    ensures SpaceBreaks(head + run + rest, false) == SpaceBreaks(head, false) + " " + SpaceBreaks(rest, false)
  {
    forall c: char
      ensures Breaks(c) <==> c in {'\r', '\n', '\0'}
    {
    }
    hide SpaceBreaks;
    RunBetween(head, run, rest, false);
  }

  /** Each closer is parted by a space. */
  lemma {:induction false} ClosersBecomeParted(head: string, rest: string)
    ensures PartClosers(head + "#>" + rest) == PartClosers(head) + "# >" + PartClosers(rest)
    decreases |head|
  {
    var s := head + "#>" + rest;
    if head == "" {
      assert s[2..] == rest;
    } else if ClosesAt(head, 0) {
      assert s[2..] == head[2..] + "#>" + rest && s[0] == head[0] && s[1] == head[1];
      ClosersBecomeParted(head[2..], rest);
    } else {
      assert s[1..] == head[1..] + "#>" + rest && s[..1] == head[..1];
      assert s[1] == if |head| > 1 then head[1] else '#';
      ClosersBecomeParted(head[1..], rest);
    }
  }

  /** A value inside a block comment can neither close it nor start a new line, and a value that does neither is left as
      it is. */
  lemma CommentIsSafe(value: string)
    ensures var comment := PsComment(value);
      !HasCloser(comment) && '\r' !in comment && '\n' !in comment && '\0' !in comment
    ensures PsComment(value) == value <==> !HasCloser(value) && '\r' !in value && '\n' !in value && '\0' !in value
  {
    BreaksIff(value);
    BreaksIff(PsComment(value));
    BreaksSpaced(value, false);
    ClosersParted(SpaceBreaks(value, false));
    hide PartClosers, SpaceBreaks, HasCloser, HasBreaks;
  }

  /** A comment block with the value between two double quotes of its own text. */
  lemma BlockWithValue(before: string, value: string, after: string)
    requires !HasCloser(before + "\"") && !HasCloser("\"" + after) && (after == "" || after[|after| - 1] != '#')
    ensures var text := before + "\"" + PsComment(value) + "\"" + after;
      ClosesAt(text + "#>", |text|) && forall i :: 0 <= i < |text| ==> !ClosesAt(text + "#>", i)
  {
    var head, comment, end := before + "\"", PsComment(value), "\"" + after;
    var text := before + "\"" + PsComment(value) + "\"" + after;
    CommentIsSafe(value);
    CloserInConcat(head, comment);
    CloserInConcat(head + comment, end);
    hide PsComment, HasBreaks;
    assert text == head + comment + end;
    assert !HasCloser(text) && text[|text| - 1] != '#';
    forall i | 0 <= i < |text|
      ensures !ClosesAt(text + "#>", i)
    {
      assert !ClosesAt(text, i);
    }
  }

  // The text of the block in the generated script.

  function BeforeName(): string {
    "<#\r\n.SYNOPSIS\r\n" + "    Configures this Windows client " + "for the RepoFabric winget repo "
  }

  function Synopsis(): string {
    ".\r\n    Generated by RepoFabric " + "(RingoSystems Heavy Industries). " + "Runs on Windows\r\n"
    + "    PowerShell 5.1 and PowerShell 7+.\r\n"
  }

  function Description(): string {
    ".DESCRIPTION\r\n    Registers the " + "private winget REST source " + "as Trusted, applies the\r\n"
    + "    always-silent winget defaults, " + "and (when enabled) configures\r\n"
  }

  function PeerCaching(): string {
    "    BranchCache + BITS + Delivery " + "Optimization peer caching so this\r\n"
    + "    client shares installer blocks " + "with peers on its subnet.\r\n" + "    Idempotent: safe to re-run.\r\n"
  }

  /** The comment block up to its terminator. */
  function Block(displayName: string): string {
    BeforeName() + "\"" + PsComment(displayName) + "\"" + (Synopsis() + Description() + PeerCaching())
  }

  predicate Open(s: string) {
    forall i :: 0 <= i < |s| ==> s[i] != '>'
  }

  lemma OpenConcat(a: string, b: string)
    ensures Open(a) && Open(b) ==> Open(a + b)
  {}

  lemma OpenThree(a: string, b: string, c: string)
    requires Open(a) && Open(b) && Open(c)
    ensures Open(a + b + c)
  {
    OpenConcat(a, b);
    OpenConcat(a + b, c);
    hide *;
  }

  lemma BeforeNameOpen()
    ensures Open(BeforeName())
  {
    var a, b, c := "<#\r\n.SYNOPSIS\r\n", "    Configures this Windows client ", "for the RepoFabric winget repo ";
    assert Open(a) && Open(b) && Open(c) && BeforeName() == a + b + c;
    hide *;
    OpenThree(a, b, c);
  }

  lemma SynopsisOpen()
    ensures Open(Synopsis())
  {
    var a, b := ".\r\n    Generated by RepoFabric ", "(RingoSystems Heavy Industries). ";
    var c, d := "Runs on Windows\r\n", "    PowerShell 5.1 and PowerShell 7+.\r\n";
    assert Open(a) && Open(b) && Open(c) && Open(d) && Synopsis() == a + b + c + d;
    hide *;
    OpenThree(a, b, c);
    OpenConcat(a + b + c, d);
  }

  lemma DescriptionOpen()
    ensures Open(Description())
  {
    var a, b, c := ".DESCRIPTION\r\n    Registers the ", "private winget REST source ", "as Trusted, applies the\r\n";
    var d, e := "    always-silent winget defaults, ", "and (when enabled) configures\r\n";
    assert Open(a) && Open(b) && Open(c) && Open(d) && Open(e) && Description() == a + b + c + d + e;
    hide *;
    OpenThree(a, b, c);
    OpenThree(a + b + c, d, e);
  }

  lemma PeerCachingOpen()
    ensures Open(PeerCaching()) && PeerCaching() != "" && PeerCaching()[|PeerCaching()| - 1] != '#'
  {
    var a, b := "    BranchCache + BITS + Delivery ", "Optimization peer caching so this\r\n";
    var c, d := "    client shares installer blocks ", "with peers on its subnet.\r\n";
    var e := "    Idempotent: safe to re-run.\r\n";
    assert PeerCaching() == a + b + c + d + e;
    hide *;
    FirstPieces();
    LastPieces();
    OpenThree(a, b, c);
    OpenThree(a + b + c, d, e);
    LastLine(a + b + c + d);
  }

  lemma FirstPieces()
    ensures Open("    BranchCache + BITS + Delivery ") && Open("Optimization peer caching so this\r\n")
    ensures Open("    client shares installer blocks ")
  {}

  lemma LastPieces()
    ensures Open("with peers on its subnet.\r\n") && Open("    Idempotent: safe to re-run.\r\n")
  {}

  lemma LastLine(before: string)
    ensures var s := before + "    Idempotent: safe to re-run.\r\n"; s != "" && s[|s| - 1] != '#'
  {}

  /** Whatever the display name, the comment block of the generated script closes at its own terminator and nowhere
      before. */
  lemma BlockClosesAtItsEnd(displayName: string)
    ensures var text := Block(displayName);
      ClosesAt(text + "#>", |text|) && forall i :: 0 <= i < |text| ==> !ClosesAt(text + "#>", i)
  {
    hide BeforeName, Synopsis, Description, PeerCaching, PsComment, HasCloser, Open;
    var before, after := BeforeName(), Synopsis() + Description() + PeerCaching();
    assert Block(displayName) == before + "\"" + PsComment(displayName) + "\"" + after;
    QuoteOpen();
    BeforeNameOpen();
    SynopsisOpen();
    DescriptionOpen();
    PeerCachingOpen();
    OpenThree(Synopsis(), Description(), PeerCaching());
    OpenConcat(before, "\"");
    OpenConcat("\"", after);
    NoCloser(before + "\"");
    NoCloser("\"" + after);
    BlockWithValue(before, displayName, after);
  }

  lemma QuoteOpen()
    ensures Open("\"")
  {}

  lemma NoCloser(s: string)
    requires Open(s)
    ensures !HasCloser(s)
  {}
}
