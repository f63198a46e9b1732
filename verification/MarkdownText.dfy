/** What each block of a page shows of its source lines: for every kind of block, how its lines are made up of marker,
    white space and text. */
module MarkdownText {
  import opened Prelude
  import opened Text
  import opened Markdown
  import opened MarkdownRender
  import opened MarkdownHtml

  // ----- Characters and text

  /** What `\s` matches, by code point. */
  predicate WhiteSpace(c: char) {
    var n := c as int;
    || 9 <= n <= 13 || n == 32 || n == 0xA0 || n == 0x1680 || 0x2000 <= n <= 0x200A || n == 0x2028 || n == 0x2029
    || n == 0x202F || n == 0x205F || n == 0x3000 || n == 0xFEFF
  }

  /** White space only. */
  predicate Spaces(s: string) {
    forall i :: 0 <= i < |s| ==> WhiteSpace(s[i])
  }

  /** Text with no white space at either end. */
  predicate Tight(s: string) {
    s == "" || (!WhiteSpace(s[0]) && !WhiteSpace(s[|s| - 1]))
  }

  predicate StartsTight(s: string) {
    s == "" || !WhiteSpace(s[0])
  }

  lemma SameSpace(c: char)
    ensures IsSpace(c) <==> WhiteSpace(c)
  {}

  lemma SameBlank(s: string)
    ensures Blank(s) <==> Spaces(s)
  {
    forall c: char {
      SameSpace(c);
    }
    hide IsSpace, WhiteSpace;
  }

  lemma SameTrimmed(s: string)
    ensures Trimmed(s) <==> Tight(s)
  {
    forall c: char {
      SameSpace(c);
    }
    hide IsSpace, WhiteSpace;
  }

  function Times(c: char, n: nat): (s: string)
    ensures |s| == n && forall i :: 0 <= i < n ==> s[i] == c
  {
    seq(n, _ => c)
  }

  lemma CountedPrefix(line: string, c: char)
    ensures line == Times(c, Count(line, c)) + line[Count(line, c)..]
  {}

  // ----- Trimming

  lemma TrimStartSplits(s: string)
    ensures var t := TrimStart(s); var lead := s[..|s| - |t|]; Spaces(lead) && s == lead + t
  {
    var t := TrimStart(s);
    SameBlank(s[..|s| - |t|]);
    hide TrimStart, IsSpace, WhiteSpace, Spaces, Blank;
  }

  lemma TrimEndSplits(t: string)
    ensures var u := TrimEnd(t); |u| <= |t| && Spaces(t[|u|..]) && t == u + t[|u|..]
  {
    SameBlank(t[|TrimEnd(t)|..]);
    hide TrimEnd, IsSpace, WhiteSpace, Spaces, Blank;
  }

  lemma TrimSplits(s: string)
    ensures Tight(Trim(s)) && exists lead, tail :: Around(s, lead, Trim(s), tail)
  {
    hide *;
    TrimIsBoth(s);
    TrimIsTrimmed(s);
    SameTrimmed(Trim(s));
    BothEnds(s);
  }

  lemma BothEnds(s: string)
    ensures exists lead, tail :: Around(s, lead, TrimEnd(TrimStart(s)), tail)
  {
    TrimStartSplits(s);
    TrimEndSplits(TrimStart(s));
    hide *;
    var t := TrimStart(s);
    var u := TrimEnd(t);
    AroundFrom(s, s[..|s| - |t|], t, u, t[|u|..]);
  }

  lemma AroundFrom(s: string, lead: string, t: string, u: string, tail: string)
    requires s == lead + t && t == u + tail && Spaces(lead) && Spaces(tail)
    ensures Around(s, lead, u, tail)
  {
    assert s == lead + u + tail;
    hide Spaces;
  }

  /** `s` is `core` with white space around it. */
  predicate Around(s: string, lead: string, core: string, tail: string) {
    Spaces(lead) && Spaces(tail) && s == lead + core + tail
  }

  lemma {:induction false} LeadingOf(lead: string, core: string)
    requires Spaces(lead) && StartsTight(core)
    ensures TrimStart(lead + core) == core
  {
    LeadingLength(lead, core);
    assert (lead + core)[|lead|..] == core;
  }

  lemma {:induction false} LeadingLength(lead: string, core: string)
    requires Spaces(lead) && StartsTight(core)
    ensures Leading(lead + core) == |lead|
  {
    if lead == "" {
      assert lead + core == core;
      if core != "" {
        SameSpace(core[0]);
      }
      hide IsSpace, WhiteSpace;
    } else {
      SameSpace(lead[0]);
      assert (lead + core)[1..] == lead[1..] + core;
      hide IsSpace, WhiteSpace;
      LeadingLength(lead[1..], core);
    }
  }

  lemma {:induction false} EndingLength(core: string, tail: string)
    requires Spaces(tail) && (core == "" || !WhiteSpace(core[|core| - 1]))
    ensures Ending(core + tail) == |core|
  {
    if tail == "" {
      assert core + tail == core;
      if core != "" {
        SameSpace(core[|core| - 1]);
      }
      hide IsSpace, WhiteSpace;
    } else {
      var s := core + tail;
      SameSpace(tail[|tail| - 1]);
      assert s[..|s| - 1] == core + tail[..|tail| - 1] && s[|s| - 1] == tail[|tail| - 1];
      hide IsSpace, WhiteSpace;
      EndingLength(core, tail[..|tail| - 1]);
    }
  }

  /** Trimming gives the tight text that white space surrounds. */
  lemma TrimAround(s: string, lead: string, core: string, tail: string)
    requires Around(s, lead, core, tail) && Tight(core)
    ensures Trim(s) == core
  {
    if core == "" {
      assert s == lead + tail;
      SpacesConcat(lead, tail);
      SameBlank(s);
      TrimIsTrimmed(s);
    } else {
      assert s == lead + (core + tail) && (core + tail)[0] == core[0];
      hide Trim, TrimStart, TrimEnd, Spaces, WhiteSpace;
      LeadingOf(lead, core + tail);
      TrimEndOf(core, tail);
      TrimIsBoth(s);
    }
  }

  lemma TrimIsBoth(s: string)
    ensures Trim(s) == TrimEnd(TrimStart(s))
  {
    hide TrimStart, TrimEnd;
  }

  lemma TrimEndOf(core: string, tail: string)
    requires Spaces(tail) && core != "" && !WhiteSpace(core[|core| - 1])
    ensures TrimEnd(core + tail) == core
  {
    EndingLength(core, tail);
    assert (core + tail)[..|core|] == core;
    hide Ending;
  }

  lemma SpacesConcat(a: string, b: string)
    requires Spaces(a) && Spaces(b)
    ensures Spaces(a + b)
  {
    hide WhiteSpace;
  }

  // ----- Lines of the six kinds

  /** `*` or `-`, white space, and text that does not start with white space. */
  predicate BulletLine(line: string, gap: string, text: string) {
    && (line == "*" + gap + text || line == "-" + gap + text)
    && gap != "" && Spaces(gap) && StartsTight(text)
  }

  /** Digits, a dot, white space, and text that does not start with white space. */
  predicate NumberLine(line: string, digits: string, gap: string, text: string) {
    && line == digits + "." + gap + text && digits != "" && (forall i :: 0 <= i < |digits| ==> '0' <= digits[i] <= '9')
    && gap != "" && Spaces(gap) && StartsTight(text)
  }

  /** `>`, at most one white space, which is there when the rest starts with one, and text. */
  predicate QuotedLine(line: string, gap: string, text: string) {
    line == ">" + gap + text && |gap| <= 1 && Spaces(gap) && (gap == "" ==> StartsTight(text))
  }

  /** Up to four hashes, white space, and tight text that `.` can match. */
  predicate TitleLine(line: string, level: nat, gap: string, text: string, tail: string) {
    && 1 <= level <= 4 && line == Times('#', level) + gap + text + tail && gap != "" && Spaces(gap) && Spaces(tail)
    && Tight(text) && forall i :: 0 <= i < |text| ==>
         text[i] != '\n' && text[i] != '\r' && text[i] as int != 0x2028 && text[i] as int != 0x2029
  }

  /** Three backticks, a word, and white space. */
  predicate FenceLine(line: string, lang: string, tail: string) {
    && line == "```" + lang + tail && Spaces(tail) && forall i :: 0 <= i < |lang| ==> !WhiteSpace(lang[i])
  }

  /** Three dashes or more, and white space. */
  predicate DashLine(line: string, dashes: nat, tail: string) {
    line == Times('-', dashes) + tail && dashes >= 3 && Spaces(tail)
  }

  /** Cells, each with white space around it, joined by pipes, with an optional pipe and white space on either side. */
  ghost predicate RowLine(line: string, cells: seq<string>, padded: seq<string>, first: string, last: string,
                          lead: string, tail: string)
  {
    var core := first + Join(padded, "|") + last;
    && Around(line, lead, core, tail) && Tight(core) && |padded| == |cells| >= 1
    && (first == "|" || (first == "" && (core == "" || core[0] != '|')))
    && (last == "|" || (last == "" && (Join(padded, "|") == "" || core[|core| - 1] != '|')))
    && forall k :: 0 <= k < |cells| ==> CellIn(padded[k], cells[k])
  }

  /** The padded cell holds no pipe, and without its white space it is the cell. */
  ghost predicate CellIn(padded: string, cell: string) {
    Without(padded, '|') && Tight(cell) && exists lead, tail :: Around(padded, lead, cell, tail)
  }

  ghost predicate IsRow(line: string, cells: seq<string>) {
    exists padded, first, last, lead, tail :: RowLine(line, cells, padded, first, last, lead, tail)
  }

  // ----- What the patterns match, and what they capture

  lemma CutBullet(line: string)
    ensures Bullet(line) ==> exists gap :: BulletLine(line, gap, BulletText(line))
  {
    if Bullet(line) {
      var rest, text := line[1..], BulletText(line);
      var gap := rest[..|rest| - |text|];
      TextAfterGap(rest);
      SameSpace(line[1]);
      assert line == [line[0]] + rest && rest == gap + text;
      assert "*" == ['*'] && "-" == ['-'] && line == [line[0]] + gap + text;
      hide TrimStart, WhiteSpace, IsSpace, Spaces;
      assert BulletLine(line, gap, text);
    }
  }

  /** What remains of text that starts with white space. */
  lemma TextAfterGap(rest: string)
    ensures var text := TrimStart(rest);
      && Spaces(rest[..|rest| - |text|]) && rest == rest[..|rest| - |text|] + text && StartsTight(text)
      && (rest != "" && WhiteSpace(rest[0]) ==> rest[..|rest| - |text|] != "")
  {
    var text := TrimStart(rest);
    SameBlank(rest[..|rest| - |text|]);
    assert rest == rest[..|rest| - |text|] + text;
    if text != "" {
      SameSpace(text[0]);
    }
    hide TrimStart, IsSpace, WhiteSpace, Spaces, Blank;
  }

  lemma OnlyBullet(line: string, gap: string, text: string)
    requires BulletLine(line, gap, text)
    ensures Bullet(line) && BulletText(line) == text
  {
    assert line[1..] == gap + text && line[1] == gap[0];
    SameSpace(gap[0]);
    LeadingOf(gap, text);
    hide TrimStart, IsSpace, WhiteSpace;
  }

  lemma CutNumber(line: string)
    ensures Numbered(line) ==> exists digits, gap :: NumberLine(line, digits, gap, NumberedText(line))
  {
    if Numbered(line) {
      NumberedParts(line);
      hide *;
      var n := DigitCount(line);
      var rest, text := line[n + 1..], NumberedText(line);
      TextAfterGap(rest);
      FourParts(line, line[..n], rest[..|rest| - |text|], text);
      IsNumberLine(line, line[..n], rest[..|rest| - |text|], text);
    }
  }

  lemma NumberedParts(line: string)
    requires Numbered(line)
    ensures var n := DigitCount(line);
      && 1 <= n && n + 1 < |line| && line[n] == '.' && WhiteSpace(line[n + 1])
      && (forall i :: 0 <= i < n ==> '0' <= line[..n][i] <= '9') && NumberedText(line) == TrimStart(line[n + 1..])
      && line[n + 1..] != "" && line[n + 1..][0] == line[n + 1]
  {
    NumberedSpace(line);
    hide TrimStart, IsSpace, WhiteSpace;
    var n := DigitCount(line);
    assert forall i :: 0 <= i < n ==> line[..n][i] == line[i];
  }

  lemma NumberedSpace(line: string)
    requires Numbered(line)
    ensures WhiteSpace(line[DigitCount(line) + 1])
  {
    SameSpace(line[DigitCount(line) + 1]);
    hide IsSpace, WhiteSpace;
  }

  lemma FourParts(line: string, digits: string, gap: string, text: string)
    requires |digits| < |line| && line[..|digits|] == digits && line[|digits|] == '.'
    requires line[|digits| + 1..] == gap + text
    ensures line == digits + "." + gap + text
  {
    assert line == digits + [line[|digits|]] + line[|digits| + 1..] && "." == ['.'];
  }

  lemma IsNumberLine(line: string, digits: string, gap: string, text: string)
    requires line == digits + "." + gap + text && digits != "" && gap != "" && Spaces(gap) && StartsTight(text)
    requires forall i :: 0 <= i < |digits| ==> '0' <= digits[i] <= '9'
    ensures NumberLine(line, digits, gap, text)
  {
    hide Spaces, StartsTight;
  }

  lemma {:induction false} DigitsCounted(digits: string, rest: string)
    requires forall i :: 0 <= i < |digits| ==> '0' <= digits[i] <= '9'
    requires rest == "" || !('0' <= rest[0] <= '9')
    ensures DigitCount(digits + rest) == |digits|
  {
    if digits == "" {
      assert digits + rest == rest;
    } else {
      assert (digits + rest)[1..] == digits[1..] + rest;
      DigitsCounted(digits[1..], rest);
    }
  }

  lemma OnlyNumber(line: string, digits: string, gap: string, text: string)
    requires NumberLine(line, digits, gap, text)
    ensures Numbered(line) && NumberedText(line) == text
  {
    var rest := "." + gap + text;
    assert line == digits + rest && rest[1] == gap[0];
    DigitsCounted(digits, rest);
    assert line[|digits| + 1..] == gap + text && line[|digits|] == '.' && line[|digits| + 1] == gap[0];
    SameSpace(gap[0]);
    LeadingOf(gap, text);
    hide TrimStart, IsSpace, WhiteSpace, DigitCount;
  }

  lemma CutQuote(line: string)
    ensures QuoteLine(line) ==> exists gap :: QuotedLine(line, gap, QuoteText(line))
    ensures QuoteStart(line) ==> exists gap :: |gap| == 1 && QuotedLine(line, gap, QuoteText(line))
    ensures QuoteStart(line) ==> QuoteLine(line)
  {
    if QuoteStart(line) {
      var gap := [line[1]];
      SameSpace(line[1]);
      assert line == [line[0]] + gap + line[2..] && ">" == ['>'];
      assert QuotedLine(line, gap, QuoteText(line)) && |gap| == 1;
    } else if QuoteLine(line) {
      assert line[0] == '>' && line == [line[0]] + "" + line[1..] && ">" == ['>'];
      if |line| > 1 {
        SameSpace(line[1]);
      }
      assert QuotedLine(line, "", QuoteText(line));
    }
    hide IsSpace, WhiteSpace;
  }

  lemma OnlyQuote(line: string, gap: string, text: string)
    requires QuotedLine(line, gap, text)
    ensures QuoteLine(line) && QuoteText(line) == text && (|gap| == 1 <==> QuoteStart(line))
  {
    if gap == "" {
      assert line == ">" + text && line[1..] == text;
      if text != "" {
        SameSpace(text[0]);
        assert line[1] == text[0];
      }
    } else {
      assert gap == [gap[0]] && line[1] == gap[0] && line[2..] == text;
      SameSpace(gap[0]);
    }
    assert line[..1] == ">" && line[0] == '>';
    hide IsSpace, WhiteSpace;
  }

  lemma {:induction false} CountTimes(c: char, n: nat, rest: string)
    requires rest == "" || rest[0] != c
    ensures Count(Times(c, n) + rest, c) == n
  {
    if n == 0 {
      assert Times(c, n) + rest == rest;
    } else {
      assert (Times(c, n) + rest)[1..] == Times(c, n - 1) + rest;
      CountTimes(c, n - 1, rest);
    }
  }

  lemma CutTitle(line: string)
    ensures Heading(line).Some? ==>
      var (level, text) := Heading(line).value; exists gap, tail :: TitleLine(line, level, gap, text, tail)
  {
    if Heading(line).Some? {
      var n := Count(line, '#');
      var rest := line[n..];
      CountedPrefix(line, '#');
      TrimSplits(rest);
      var lead, tail :| Around(rest, lead, Trim(rest), tail);
      SameSpace(rest[0]);
      TitleFrom(line, n, rest, lead, Trim(rest), tail);
      hide Trim, IsSpace, WhiteSpace, Count, Spaces, Tight;
    }
  }

  lemma TitleFrom(line: string, level: nat, rest: string, lead: string, text: string, tail: string)
    requires line == Times('#', level) + rest && 1 <= level <= 4 && Around(rest, lead, text, tail) && Tight(text)
    requires rest != "" && WhiteSpace(rest[0])
    requires forall i :: 0 <= i < |text| ==> !LineTerminator(text[i])
    ensures exists gap, end :: TitleLine(line, level, gap, text, end)
  {
    if text == "" {
      assert rest == lead + tail && rest == rest + text + "";
      SpacesConcat(lead, tail);
      assert line == Times('#', level) + rest + text + "";
      hide WhiteSpace, Spaces;
      NoSpaces();
      assert TitleLine(line, level, rest, text, "");
    } else {
      assert rest == lead + (text + tail) && (text + tail)[0] == text[0];
      assert line == Times('#', level) + lead + text + tail;
      hide WhiteSpace, Spaces, Tight;
      assert TitleLine(line, level, lead, text, tail);
    }
  }

  lemma NoSpaces()
    ensures Spaces("")
  {}

  lemma OnlyTitle(line: string, level: nat, gap: string, text: string, tail: string)
    requires TitleLine(line, level, gap, text, tail)
    ensures Heading(line) == Some((level, text))
  {
    TitleParts(line, level, gap, text, tail);
    SameSpace(gap[0]);
    CountTimes('#', level, gap + text + tail);
    TrimAround(gap + text + tail, gap, text, tail);
    HeadingIs(line, level, text);
    hide *;
  }

  lemma TitleParts(line: string, level: nat, gap: string, text: string, tail: string)
    requires TitleLine(line, level, gap, text, tail)
    ensures var rest := gap + text + tail;
      && level < |line| && line == Times('#', level) + rest && line[level..] == rest && line[level] == gap[0]
      && WhiteSpace(gap[0]) && Around(rest, gap, text, tail) && Tight(text) && !IsSpace('#') && rest[0] == gap[0]
    ensures gap != "" && 1 <= level <= 4 && forall i :: 0 <= i < |text| ==> !LineTerminator(text[i])
  {
    assert line == Times('#', level) + (gap + text + tail);
    hide Times, Tight;
  }

  lemma HeadingIs(line: string, level: nat, text: string)
    requires Count(line, '#') == level && 1 <= level <= 4 && level < |line| && IsSpace(line[level])
    requires Trim(line[level..]) == text && forall i :: 0 <= i < |text| ==> !LineTerminator(text[i])
    ensures Heading(line) == Some((level, text))
  {
    hide Trim, IsSpace, Count, LineTerminator;
  }

  lemma CutFence(line: string)
    ensures Fence(line).Some? ==> exists tail :: FenceLine(line, Fence(line).value, tail)
  {
    if Fence(line).Some? {
      var rest := line[3..];
      var n := WordLength(rest);
      SameBlank(rest[n..]);
      forall i | 0 <= i < n
        ensures !WhiteSpace(rest[..n][i])
      {
        SameSpace(rest[i]);
      }
      assert line == line[..3] + rest[..n] + rest[n..] && line[..3] == "```";
      hide WordLength, IsSpace, WhiteSpace, Spaces, Blank;
      assert FenceLine(line, rest[..n], rest[n..]);
    }
  }

  lemma {:induction false} WordCounted(word: string, tail: string)
    requires (forall i :: 0 <= i < |word| ==> !WhiteSpace(word[i])) && Spaces(tail)
    ensures WordLength(word + tail) == |word|
  {
    if word == "" {
      assert word + tail == tail;
      if tail != "" {
        SameSpace(tail[0]);
      }
      hide IsSpace, WhiteSpace;
    } else {
      assert (word + tail)[1..] == word[1..] + tail;
      SameSpace(word[0]);
      hide IsSpace, WhiteSpace;
      WordCounted(word[1..], tail);
    }
  }

  lemma OnlyFence(line: string, lang: string, tail: string)
    requires FenceLine(line, lang, tail)
    ensures Fence(line) == Some(lang) && (FenceEnd(line) <==> lang == "")
  {
    var rest := lang + tail;
    assert line == "```" + rest && line[..3] == "```" && line[3..] == rest;
    WordCounted(lang, tail);
    assert rest[|lang|..] == tail && rest[..|lang|] == lang;
    SameBlank(tail);
    SameBlank(rest);
    if lang == "" {
      assert rest == tail;
    } else {
      assert rest[0] == lang[0];
    }
    hide WordLength, Blank, WhiteSpace;
  }

  lemma CutFenceEnd(line: string)
    ensures FenceEnd(line) ==> exists tail :: FenceLine(line, "", tail)
  {
    if FenceEnd(line) {
      SameBlank(line[3..]);
      assert line == "```" + "" + line[3..];
      hide Blank, Spaces;
      assert FenceLine(line, "", line[3..]);
    }
  }

  lemma CutDashes(line: string)
    ensures IsRule(line) ==> exists dashes, tail :: DashLine(line, dashes, tail)
  {
    if IsRule(line) {
      CountedPrefix(line, '-');
      SameBlank(line[Count(line, '-')..]);
      hide Blank, Spaces, Count;
      assert DashLine(line, Count(line, '-'), line[Count(line, '-')..]);
    }
  }

  lemma OnlyDashes(line: string, dashes: nat, tail: string)
    requires DashLine(line, dashes, tail)
    ensures IsRule(line)
  {
    assert tail != "" ==> tail[0] != '-' by {
      assert tail != "" ==> WhiteSpace(tail[0]);
    }
    CountTimes('-', dashes, tail);
    assert line[dashes..] == tail;
    SameBlank(tail);
    hide Blank, Spaces, Count;
  }

  // ----- Table rows

  lemma {:induction false} TrimAllCells(padded: seq<string>, cells: seq<string>)
    requires |padded| == |cells| && forall k :: 0 <= k < |cells| ==> CellIn(padded[k], cells[k])
    ensures TrimAll(padded) == cells
  {
    if padded == [] {
    } else {
      var lead, tail :| Around(padded[0], lead, cells[0], tail);
      TrimAround(padded[0], lead, cells[0], tail);
      assert CellIn(padded[0], cells[0]);
      forall k | 0 <= k < |cells[1..]|
        ensures CellIn(padded[1..][k], cells[1..][k])
      {
        assert CellIn(padded[k + 1], cells[k + 1]);
      }
      hide CellIn, Trim, Around;
      TrimAllCells(padded[1..], cells[1..]);
      assert [cells[0]] + cells[1..] == cells;
    }
  }

  lemma {:induction false} CellsTrimmed(padded: seq<string>, k: nat)
    requires k < |padded| && Without(padded[k], '|')
    ensures CellIn(padded[k], TrimAll(padded)[k])
  {
    if k == 0 {
      TrimSplits(padded[0]);
      hide Trim, Tight, Around;
    } else {
      CellsTrimmed(padded[1..], k - 1);
      hide CellIn;
    }
  }

  // What is left and right of the outer pipes of a trimmed row.

  function Opening(core: string): (first: string)
    ensures |first| <= |core| && (first == "|" || first == "")
  {
    if core != "" && core[0] == '|' then "|" else ""
  }

  function Closing(core: string): (last: string)
    ensures |Opening(core)| + |last| <= |core| && (last == "|" || last == "")
  {
    var t := core[|Opening(core)|..];
    if t != "" && t[|t| - 1] == '|' then "|" else ""
  }

  function Inside(core: string): string {
    core[|Opening(core)|..|core| - |Closing(core)|]
  }

  lemma StripPipes(core: string)
    ensures core == Opening(core) + Inside(core) + Closing(core)
    ensures Opening(core) == "|" || (Opening(core) == "" && (core == "" || core[0] != '|'))
    ensures Closing(core) == "|" || (Closing(core) == "" && (Inside(core) == "" || core[|core| - 1] != '|'))
  {
    OpeningIs(core);
    ClosingIs(core);
    ThreePieces(core, Opening(core), Closing(core));
    hide Opening, Closing;
  }

  lemma OpeningIs(core: string)
    ensures |Opening(core)| <= |core| && core[..|Opening(core)|] == Opening(core)
    ensures Opening(core) == "|" || (Opening(core) == "" && (core == "" || core[0] != '|'))
  {}

  lemma ClosingIs(core: string)
    ensures |Opening(core)| + |Closing(core)| <= |core| && core[|core| - |Closing(core)|..] == Closing(core)
    ensures Closing(core) == "|" || (Closing(core) == "" && (Inside(core) == "" || core[|core| - 1] != '|'))
  {
    hide Opening;
  }

  lemma ThreePieces(core: string, first: string, last: string)
    requires |first| + |last| <= |core| && core[..|first|] == first && core[|core| - |last|..] == last
    ensures core == first + core[|first|..|core| - |last|] + last
  {
    assert core[..|core| - |last|] == first + core[|first|..|core| - |last|];
    assert core == core[..|core| - |last|] + last;
  }

  lemma InsideSplit(line: string)
    ensures SplitTableRow(line) == TrimAll(Split(Inside(Trim(line)), '|'))
  {
    StripPipes(Trim(line));
    hide *;
    PipesStripped(Trim(line), Opening(Trim(line)), Inside(Trim(line)), Closing(Trim(line)));
    RowSteps(line, Trim(line), Inside(Trim(line)), Split(Inside(Trim(line)), '|'));
  }

  lemma PipesStripped(core: string, first: string, inner: string, last: string)
    requires core == first + inner + last
    requires first == "|" || (first == "" && (core == "" || core[0] != '|'))
    requires last == "|" || (last == "" && (inner == "" || core[|core| - 1] != '|'))
    ensures var t := if StartsWith(core, "|") then core[1..] else core;
      inner == if t != "" && t[|t| - 1] == '|' then t[..|t| - 1] else t
  {
    var t := if StartsWith(core, "|") then core[1..] else core;
    assert t == inner + last;
    if last == "|" {
      assert t[..|t| - 1] == inner;
    } else {
      assert t == inner;
      if inner != "" {
        assert core[|core| - 1] == inner[|inner| - 1];
      }
    }
  }

  /** Splitting a row gives cells that the row is made of. */
  lemma CutRow(line: string)
    ensures IsRow(line, SplitTableRow(line))
  {
    hide *;
    var core := Trim(line);
    TrimSplits(line);
    var lead, tail :| Around(line, lead, core, tail);
    StripPipes(core);
    InsideSplit(line);
    SplitWithout(Inside(core), '|');
    JoinBars(Inside(core));
    var padded := Split(Inside(core), '|');
    forall k | 0 <= k < |padded|
      ensures CellIn(padded[k], TrimAll(padded)[k])
    {
      CellsTrimmed(padded, k);
    }
    IsRowLine(line, TrimAll(padded), padded, Opening(core), Closing(core), lead, tail);
  }

  lemma JoinBars(inner: string)
    ensures Join(Split(inner, '|'), "|") == inner
  {
    assert ['|'] == "|";
    JoinSplit(inner, '|');
    hide *;
  }

  lemma IsRowLine(line: string, cells: seq<string>, padded: seq<string>, first: string, last: string, lead: string,
                  tail: string)
    requires var core := first + Join(padded, "|") + last;
      && Around(line, lead, core, tail) && Tight(core) && |padded| == |cells| >= 1
      && (first == "|" || (first == "" && (core == "" || core[0] != '|')))
      && (last == "|" || (last == "" && (Join(padded, "|") == "" || core[|core| - 1] != '|')))
    requires forall k :: 0 <= k < |cells| ==> CellIn(padded[k], cells[k])
    ensures IsRow(line, cells)
  {
    assert RowLine(line, cells, padded, first, last, lead, tail);
    hide Join, Around, Tight, CellIn;
  }

  /** And no other cells make it up. */
  lemma OnlyRow(line: string, cells: seq<string>)
    requires IsRow(line, cells)
    ensures cells == SplitTableRow(line)
  {
    var padded, first, last, lead, tail :| RowLine(line, cells, padded, first, last, lead, tail);
    RowPieces(line, cells, padded, first, last, lead, tail);
    hide *;
    var core := first + Join(padded, "|") + last;
    TrimAround(line, lead, core, tail);
    PipesStripped(core, first, Join(padded, "|"), last);
    SplitBars(padded);
    TrimAllCells(padded, cells);
    RowSteps(line, core, Join(padded, "|"), padded);
  }

  lemma RowPieces(line: string, cells: seq<string>, padded: seq<string>, first: string, last: string, lead: string,
                  tail: string)
    requires RowLine(line, cells, padded, first, last, lead, tail)
    ensures var core := first + Join(padded, "|") + last;
      && Around(line, lead, core, tail) && Tight(core) && |padded| == |cells| >= 1
      && (first == "|" || (first == "" && (core == "" || core[0] != '|')))
      && (last == "|" || (last == "" && (Join(padded, "|") == "" || core[|core| - 1] != '|')))
      && (forall k :: 0 <= k < |cells| ==> CellIn(padded[k], cells[k]))
      && forall k :: 0 <= k < |padded| ==> Without(padded[k], '|')
  {
    hide Around, Tight, Join, Without;
    forall k | 0 <= k < |padded|
      ensures Without(padded[k], '|')
    {
      assert CellIn(padded[k], cells[k]);
    }
  }

  lemma SplitBars(padded: seq<string>)
    requires padded != [] && forall k :: 0 <= k < |padded| ==> Without(padded[k], '|')
    ensures Split(Join(padded, "|"), '|') == padded
  {
    assert ['|'] == "|";
    SplitJoin(padded, '|');
    hide *;
  }

  lemma RowSteps(line: string, core: string, inner: string, padded: seq<string>)
    requires Trim(line) == core && Split(inner, '|') == padded
    requires var t := if StartsWith(core, "|") then core[1..] else core;
      inner == if t != "" && t[|t| - 1] == '|' then t[..|t| - 1] else t
    ensures SplitTableRow(line) == TrimAll(padded)
  {
    hide Trim, Split, TrimAll, StartsWith;
  }

  // ----- Delimiter rows

  /** Two dashes or more, with an optional colon on either side. */
  predicate DashCell(cell: string, left: bool, dashes: nat, right: bool) {
    dashes >= 2 && cell == (if left then ":" else "") + Times('-', dashes) + (if right then ":" else "")
  }

  ghost predicate IsDashCell(cell: string) {
    exists left, dashes, right :: DashCell(cell, left, dashes, right)
  }

  lemma CutDashCell(cell: string)
    ensures DelimiterCell(cell) ==> IsDashCell(cell)
  {
    if DelimiterCell(cell) {
      var left := StartsWith(cell, ":");
      var s := if left then cell[1..] else cell;
      var n := Count(s, '-');
      CountedPrefix(s, '-');
      assert cell == (if left then ":" else "") + s;
      assert ":" == [':'];
      assert s == Times('-', n) + s[n..];
      assert DashCell(cell, left, n, s[n..] == ":");
    }
  }

  lemma OnlyDashCell(cell: string, left: bool, dashes: nat, right: bool)
    requires DashCell(cell, left, dashes, right)
    ensures DelimiterCell(cell) && cell != ""
    ensures TableAlign(cell) == if left && right then Centre else if right then Right else Unset
  {
    var rest := Times('-', dashes) + if right then ":" else "";
    DashRest(cell, left, dashes, right, rest);
    CountTimes('-', dashes, if right then ":" else "");
    hide Count, Times;
  }

  lemma DashRest(cell: string, left: bool, dashes: nat, right: bool, rest: string)
    requires DashCell(cell, left, dashes, right) && rest == Times('-', dashes) + if right then ":" else ""
    ensures cell != "" && (StartsWith(cell, ":") <==> left) && rest == (if left then cell[1..] else cell)
    ensures rest[dashes..] == (if right then ":" else "")
    ensures cell[|cell| - 1] == ':' <==> right
  {
    assert cell == (if left then ":" else "") + rest && rest[0] == '-';
    assert cell[|cell| - 1] == rest[|rest| - 1];
    if left {
      assert cell[..1] == ":";
    } else {
      assert cell[..1] == "-" && cell[..1][0] != ':';
    }
  }

  /** A delimiter row: at least two such cells. */
  ghost predicate IsDelimiterRow(line: string, cells: seq<string>) {
    IsRow(line, cells) && |cells| >= 2 && forall k :: 0 <= k < |cells| ==> IsDashCell(cells[k])
  }

  lemma DelimiterIff(line: string)
    ensures TableDelimiter(line) <==> IsDelimiterRow(line, SplitTableRow(line))
    ensures forall cells :: IsDelimiterRow(line, cells) ==> cells == SplitTableRow(line)
  {
    var cells := SplitTableRow(line);
    CutRow(line);
    hide SplitTableRow, DelimiterCell, IsRow;
    forall k | 0 <= k < |cells|
      ensures DelimiterCell(cells[k]) <==> IsDashCell(cells[k])
    {
      CutDashCell(cells[k]);
      if IsDashCell(cells[k]) {
        var left, dashes, right :| DashCell(cells[k], left, dashes, right);
        OnlyDashCell(cells[k], left, dashes, right);
      }
    }
    hide IsDashCell;
    forall other | IsDelimiterRow(line, other)
      ensures other == cells
    {
      OnlyRow(line, other);
    }
  }
}
