/** The block parser of docs.js: a cursor over lines, six inner loops, and the HTML it emits.  renderInline and slugify
    stay opaque: tokens carry the text they are applied to. */
module Markdown {
  import opened Prelude
  import opened Text

  // ----- Line shapes, as the regular expressions test them

  predicate StartsWith(line: string, prefix: string) {
    prefix <= line
  }

  /** `/^```/`. */
  predicate Ticks(line: string) {
    StartsWith(line, "```")
  }

  function WordLength(s: string): (n: nat)
    ensures n <= |s| && (forall i :: 0 <= i < n ==> !IsSpace(s[i])) && (n < |s| ==> IsSpace(s[n]))
  {
    if s == "" || IsSpace(s[0]) then 0 else 1 + WordLength(s[1..])
  }

  /** `` /^```(\S*)\s*$/ ``: the language of an opening fence. */
  function Fence(line: string): Option<string> {
    if !Ticks(line) then None else
      var rest := line[3..];
      var n := WordLength(rest);
      if Blank(rest[n..]) then Some(rest[..n]) else None
  }

  /** `` /^```\s*$/ ``. */
  predicate FenceEnd(line: string) {
    Ticks(line) && Blank(line[3..])
  }

  function Count(line: string, c: char): (n: nat)
    ensures n <= |line| && (forall i :: 0 <= i < n ==> line[i] == c) && (n < |line| ==> line[n] != c)
  {
    if line == "" || line[0] != c then 0 else 1 + Count(line[1..], c)
  }

  /** `/^#{1,4}\s/`. */
  predicate HeadingShape(line: string) {
    var n := Count(line, '#');
    1 <= n <= 4 && n < |line| && IsSpace(line[n])
  }

  /** What `.` does not match. */
  predicate LineTerminator(c: char) {
    c == '\n' || c == '\r' || c as int == 0x2028 || c as int == 0x2029
  }

  /** `/^(#{1,4})\s+(.*?)\s*$/`: level and text. The text is what is left after trimming, if `.` can match all of
      it. */
  function Heading(line: string): Option<(nat, string)> {
    if !HeadingShape(line) then None else
      var n := Count(line, '#');
      var text := Trim(line[n..]);
      if exists i :: 0 <= i < |text| && LineTerminator(text[i]) then None else Some((n, text))
  }

  /** `/^---+\s*$/`. */
  predicate IsRule(line: string) {
    var n := Count(line, '-');
    n >= 3 && Blank(line[n..])
  }

  /** `/^>\s/`. */
  predicate QuoteStart(line: string) {
    |line| >= 2 && line[0] == '>' && IsSpace(line[1])
  }

  /** `/^>\s?/`. */
  predicate QuoteLine(line: string) {
    StartsWith(line, ">")
  }

  /** `line.replace(/^>\s?/, '')`, like the two below the line itself when the pattern does not match. */
  function QuoteText(line: string): string {
    if QuoteStart(line) then line[2..] else if QuoteLine(line) then line[1..] else line
  }

  /** `/^[*-]\s+/`. */
  predicate Bullet(line: string) {
    |line| >= 2 && (line[0] == '*' || line[0] == '-') && IsSpace(line[1])
  }

  function BulletText(line: string): string {
    if Bullet(line) then TrimStart(line[1..]) else line
  }

  function DigitCount(s: string): (n: nat)
    ensures n <= |s| && (forall i :: 0 <= i < n ==> '0' <= s[i] <= '9') && (n < |s| ==> !('0' <= s[n] <= '9'))
  {
    if s == "" || !('0' <= s[0] <= '9') then 0 else 1 + DigitCount(s[1..])
  }

  /** `/^\d+\.\s+/`. */
  predicate Numbered(line: string) {
    var n := DigitCount(line);
    n >= 1 && n + 1 < |line| && line[n] == '.' && IsSpace(line[n + 1])
  }

  function NumberedText(line: string): string {
    if Numbered(line) then TrimStart(line[DigitCount(line) + 1..]) else line
  }

  function SplitTableRow(row: string): (cells: seq<string>)
    ensures |cells| >= 1
  {
    var s := Trim(row);
    var t := if StartsWith(s, "|") then s[1..] else s;
    var u := if t != "" && t[|t| - 1] == '|' then t[..|t| - 1] else t;
    TrimAll(Split(u, '|'))
  }

  function TrimAll(cells: seq<string>): (trimmed: seq<string>)
    ensures |trimmed| == |cells|
  {
    if cells == [] then [] else [Trim(cells[0])] + TrimAll(cells[1..])
  }

  /** `:?-{2,}:?`. */
  predicate DelimiterCell(cell: string) {
    var s := if StartsWith(cell, ":") then cell[1..] else cell;
    var n := Count(s, '-');
    n >= 2 && (s[n..] == "" || s[n..] == ":")
  }

  /** TABLE_DELIM: an optional pipe, two or more delimiter cells between pipes, an optional pipe. */
  predicate TableDelimiter(line: string) {
    var cells := SplitTableRow(line);
    |cells| >= 2 && forall i :: 0 <= i < |cells| ==> DelimiterCell(cells[i])
  }

  predicate HasPipe(line: string) {
    '|' in line
  }

  predicate TableStart(lines: seq<string>, i: nat)
    requires i < |lines|
  {
    HasPipe(lines[i]) && i + 1 < |lines| && TableDelimiter(lines[i + 1])
  }

  datatype Align = Unset | Centre | Right

  function TableAlign(cell: string): Align {
    var left, right := StartsWith(cell, ":"), cell != "" && cell[|cell| - 1] == ':';
    if left && right then Centre else if right then Right else Unset
  }

  function TableAligns(cells: seq<string>): seq<Align> {
    seq(|cells|, n requires 0 <= n < |cells| => TableAlign(cells[n]))
  }

  // ----- Runs of lines

  datatype Run = CodeBody | TableBody | QuoteRun | BulletRun | NumberRun | ParagraphRun

  /** The stop guard of the paragraph loop. */
  predicate StopsParagraph(lines: seq<string>, i: nat)
    requires i < |lines|
  {
    || Blank(lines[i]) || HeadingShape(lines[i]) || Ticks(lines[i]) || Bullet(lines[i]) || Numbered(lines[i])
    || QuoteStart(lines[i]) || IsRule(lines[i]) || TableStart(lines, i)
  }

  /** The guard of an inner loop at line `i`. */
  predicate Continues(run: Run, lines: seq<string>, i: nat)
    requires i < |lines|
  {
    match run
    case CodeBody => !FenceEnd(lines[i])
    case TableBody => HasPipe(lines[i]) && !Blank(lines[i])
    case QuoteRun => QuoteLine(lines[i])
    case BulletRun => Bullet(lines[i])
    case NumberRun => Numbered(lines[i])
    case ParagraphRun => !StopsParagraph(lines, i)
  }

  function RunEnd(run: Run, lines: seq<string>, i: nat): (end: nat)
    requires i <= |lines|
    ensures i <= end <= |lines|
    decreases |lines| - i
  {
    if i == |lines| || !Continues(run, lines, i) then i else RunEnd(run, lines, i + 1)
  }

  /** What an inner loop pushes for one line. */
  datatype Item = Line(text: string) | Cells(cells: seq<string>)

  function ItemOf(run: Run, lines: seq<string>, i: nat): Item
    requires i < |lines|
  {
    match run
    case CodeBody => Line(lines[i])
    case TableBody => Cells(SplitTableRow(lines[i]))
    case QuoteRun => Line(QuoteText(lines[i]))
    case BulletRun => Line(BulletText(lines[i]))
    case NumberRun => Line(NumberedText(lines[i]))
    case ParagraphRun => Line(lines[i])
  }

  function Items(run: Run, lines: seq<string>, i: nat, end: nat): (items: seq<Item>)
    requires i <= end <= |lines|
    ensures |items| == end - i
  {
    seq(end - i, k requires 0 <= k < end - i => ItemOf(run, lines, i + k))
  }

  // ----- One turn of the outer loop

  /** Which branch of the outer loop a cursor takes; the last four branches are all runs of similar lines. */
  datatype Kind = FencedCode | HeadingLine | PipeTable | RuleLine | RunOf(run: Run) | BlankLine

  function KindAt(lines: seq<string>, i: nat): Kind
    requires i < |lines|
  {
    if Fence(lines[i]).Some? then FencedCode
    else if Heading(lines[i]).Some? then HeadingLine
    else if TableStart(lines, i) then PipeTable
    else if IsRule(lines[i]) then RuleLine
    else if QuoteStart(lines[i]) then RunOf(QuoteRun)
    else if Bullet(lines[i]) then RunOf(BulletRun)
    else if Numbered(lines[i]) then RunOf(NumberRun)
    else if Blank(lines[i]) then BlankLine
    else RunOf(ParagraphRun)
  }

  /** Listing is a blockquote, a list or a paragraph, by its run. */
  datatype Block =
    | Code(lang: string, body: seq<Item>)
    | Title(level: nat, text: string)
    | Table(head: seq<string>, aligns: seq<Align>, rows: seq<Item>)
    | Rule
    | Listing(run: Run, items: seq<Item>)
    | Gap

  /** A block and the cursor after it; a block owns the lines from where it starts to there. */
  datatype Piece = Piece(block: Block, from: nat, next: nat)

  lemma TableHasTwoLines(lines: seq<string>, i: nat)
    requires i < |lines|
    ensures KindAt(lines, i) == PipeTable ==> i + 2 <= |lines|
    ensures KindAt(lines, i) == FencedCode ==> Fence(lines[i]).Some?
    ensures KindAt(lines, i) == HeadingLine ==> Heading(lines[i]).Some?
  {
    hide Fence, Heading, IsRule, QuoteStart, Bullet, Numbered, Blank, TableDelimiter, HasPipe;
  }

  /** The body of the outer loop at cursor `i`. */
  function Turn(lines: seq<string>, i: nat): (p: Piece)
    requires i < |lines|
    ensures p.from == i <= p.next <= |lines| + 1
  {
    TableHasTwoLines(lines, i);
    match KindAt(lines, i)
    case FencedCode =>
      var end := RunEnd(CodeBody, lines, i + 1);
      Piece(Code(Fence(lines[i]).value, Items(CodeBody, lines, i + 1, end)), i, end + 1)
    case HeadingLine => Piece(Title(Heading(lines[i]).value.0, Heading(lines[i]).value.1), i, i + 1)
    case PipeTable =>
      var end := RunEnd(TableBody, lines, i + 2);
      var head, aligns := SplitTableRow(lines[i]), TableAligns(SplitTableRow(lines[i + 1]));
      Piece(Table(head, aligns, Items(TableBody, lines, i + 2, end)), i, end)
    case RuleLine => Piece(Rule, i, i + 1)
    case RunOf(run) =>
      var end := RunEnd(run, lines, i);
      Piece(Listing(run, Items(run, lines, i, end)), i, end)
    case BlankLine => Piece(Gap, i, i + 1)
  }

  /** A line that stops a paragraph but starts no block: three backticks that are no fence, or a heading shape that the
      heading pattern rejects. */
  predicate Stuck(lines: seq<string>, i: nat)
    requires i < |lines|
  {
    && !TableStart(lines, i)
    && ((Ticks(lines[i]) && Fence(lines[i]).None?) || (HeadingShape(lines[i]) && Heading(lines[i]).None?))
  }

  /** Such lines look like nothing else. */
  lemma StuckLooksLikeNothingElse(line: string)
    requires Ticks(line) || HeadingShape(line)
    ensures !IsRule(line) && !QuoteStart(line) && !Bullet(line) && !Numbered(line) && !Blank(line)
    ensures !QuoteLine(line)
  {
    assert line[0] == '`' || line[0] == '#';
    assert !IsSpace('`') && !IsSpace('#');
  }

  lemma FencesHaveShapes(line: string)
    ensures Fence(line).Some? ==> Ticks(line)
    ensures Heading(line).Some? ==> HeadingShape(line)
    ensures Ticks(line) ==> !HeadingShape(line)
    ensures QuoteStart(line) ==> QuoteLine(line)
  {}

  /** A turn finds no line for its own run exactly at a stuck line. */
  lemma EmptyRunIff(lines: seq<string>, i: nat)
    requires i < |lines|
    ensures var kind := KindAt(lines, i);
      Stuck(lines, i) <==> kind.RunOf? && !Continues(kind.run, lines, i)
    ensures var kind := KindAt(lines, i);
      kind.RunOf? ==> kind.run in {QuoteRun, BulletRun, NumberRun, ParagraphRun}
  {
    FencesHaveShapes(lines[i]);
    if Ticks(lines[i]) || HeadingShape(lines[i]) {
      StuckLooksLikeNothingElse(lines[i]);
    }
    hide Fence, Heading, HeadingShape, Ticks, IsRule, QuoteStart, QuoteLine, Bullet, Numbered, Blank, TableStart;
  }

  /** Every turn moves the cursor, except at a stuck line, where it stays for ever. */
  lemma TurnProgress(lines: seq<string>, i: nat)
    requires i < |lines|
    ensures Turn(lines, i).next == i <==> Stuck(lines, i)
  {
    EmptyRunIff(lines, i);
    hide KindAt, Stuck, Continues, Items, Fence, Heading, SplitTableRow, TableAligns;
  }
}
