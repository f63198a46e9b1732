/** Every block of a page against its source lines: which lines it is made of, and what it shows of them. */
module MarkdownBlocks {
  import opened Prelude
  import opened Text
  import opened Numerals
  import opened Markdown
  import opened MarkdownRender
  import opened MarkdownHtml
  import opened MarkdownText

  // ----- Shapes

  ghost predicate IsFence(line: string) {
    exists lang, tail :: FenceLine(line, lang, tail)
  }

  ghost predicate IsClosingFence(line: string) {
    exists tail :: FenceLine(line, "", tail)
  }

  ghost predicate IsTitle(line: string) {
    exists level, gap, text, tail :: TitleLine(line, level, gap, text, tail)
  }

  ghost predicate IsDashes(line: string) {
    exists dashes, tail :: DashLine(line, dashes, tail)
  }

  /** A quote begins with a white space after the mark, and goes on without. */
  ghost predicate BeginsQuote(line: string) {
    exists gap, text :: |gap| == 1 && QuotedLine(line, gap, text)
  }

  predicate IsQuoted(line: string) {
    line != "" && line[0] == '>'
  }

  ghost predicate IsBullet(line: string) {
    exists gap, text :: BulletLine(line, gap, text)
  }

  ghost predicate IsNumber(line: string) {
    exists digits, gap, text :: NumberLine(line, digits, gap, text)
  }

  /** A row with a pipe, and a delimiter row below it. */
  ghost predicate BeginsTable(lines: seq<string>, i: nat)
    requires i < |lines|
  {
    '|' in lines[i] && i + 1 < |lines| && IsDelimiter(lines[i + 1])
  }

  ghost predicate IsDelimiter(line: string) {
    exists cells :: IsDelimiterRow(line, cells)
  }

  /** One to four hashes and a white space, whatever follows. */
  predicate LooksLikeTitle(line: string) {
    exists n :: 1 <= n <= 4 && HashesThenSpace(line, n)
  }

  predicate HashesThenSpace(line: string, n: nat) {
    n < |line| && line[..n] == Times('#', n) && WhiteSpace(line[n])
  }

  predicate HasTicks(line: string) {
    |line| >= 3 && line[0] == line[1] == line[2] == '`'
  }

  lemma Shapes(line: string)
    ensures Fence(line).Some? <==> IsFence(line)
    ensures FenceEnd(line) <==> IsClosingFence(line)
    ensures Heading(line).Some? <==> IsTitle(line)
    ensures IsRule(line) <==> IsDashes(line)
    ensures QuoteStart(line) <==> BeginsQuote(line)
    ensures QuoteLine(line) <==> IsQuoted(line)
    ensures Bullet(line) <==> IsBullet(line)
    ensures Numbered(line) <==> IsNumber(line)
    ensures Blank(line) <==> Spaces(line)
    ensures HeadingShape(line) <==> LooksLikeTitle(line)
    ensures Ticks(line) <==> HasTicks(line)
  {
    hide *;
    FenceShape(line);
    TitleShape(line);
    DashShape(line);
    QuoteShape(line);
    BulletShape(line);
    NumberShape(line);
    SameBlank(line);
    LooseShapes(line);
  }

  lemma FenceShape(line: string)
    ensures Fence(line).Some? <==> IsFence(line)
    ensures FenceEnd(line) <==> IsClosingFence(line)
  {
    CutFence(line);
    CutFenceEnd(line);
    hide Fence, FenceEnd, FenceLine;
    if IsFence(line) {
      var lang, tail :| FenceLine(line, lang, tail);
      OnlyFence(line, lang, tail);
    }
    if IsClosingFence(line) {
      var tail :| FenceLine(line, "", tail);
      OnlyFence(line, "", tail);
    }
  }

  lemma TitleShape(line: string)
    ensures Heading(line).Some? <==> IsTitle(line)
  {
    CutTitle(line);
    hide Heading, TitleLine;
    if Heading(line).Some? {
      var (level, text) := Heading(line).value;
      var gap, tail :| TitleLine(line, level, gap, text, tail);
    }
    if IsTitle(line) {
      var level, gap, text, tail :| TitleLine(line, level, gap, text, tail);
      OnlyTitle(line, level, gap, text, tail);
    }
  }

  lemma DashShape(line: string)
    ensures IsRule(line) <==> IsDashes(line)
  {
    CutDashes(line);
    hide IsRule, DashLine;
    if IsDashes(line) {
      var dashes, tail :| DashLine(line, dashes, tail);
      OnlyDashes(line, dashes, tail);
    }
  }

  lemma QuoteShape(line: string)
    ensures QuoteStart(line) <==> BeginsQuote(line)
    ensures QuoteLine(line) <==> IsQuoted(line)
  {
    CutQuote(line);
    if IsQuoted(line) {
      assert line[..1] == ">";
    }
    hide QuoteStart, QuotedLine, QuoteText;
    if BeginsQuote(line) {
      var gap, text :| |gap| == 1 && QuotedLine(line, gap, text);
      OnlyQuote(line, gap, text);
    }
  }

  lemma BulletShape(line: string)
    ensures Bullet(line) <==> IsBullet(line)
  {
    CutBullet(line);
    hide Bullet, BulletLine, BulletText;
    if IsBullet(line) {
      var gap, text :| BulletLine(line, gap, text);
      OnlyBullet(line, gap, text);
    }
  }

  lemma NumberShape(line: string)
    ensures Numbered(line) <==> IsNumber(line)
  {
    CutNumber(line);
    hide Numbered, NumberLine, NumberedText;
    if IsNumber(line) {
      var digits, gap, text :| NumberLine(line, digits, gap, text);
      OnlyNumber(line, digits, gap, text);
    }
  }

  lemma LooseShapes(line: string)
    ensures HeadingShape(line) <==> LooksLikeTitle(line)
    ensures Ticks(line) <==> HasTicks(line)
  {
    TicksShape(line);
    var n := Count(line, '#');
    CountedPrefix(line, '#');
    if HeadingShape(line) {
      SameSpace(line[n]);
      assert line[..n] == Times('#', n);
      assert HashesThenSpace(line, n);
    }
    if LooksLikeTitle(line) {
      var k :| 1 <= k <= 4 && HashesThenSpace(line, k);
      assert line == Times('#', k) + line[k..] && line[k..][0] == line[k];
      assert !WhiteSpace('#');
      CountTimes('#', k, line[k..]);
      SameSpace(line[k]);
    }
    hide Count, IsSpace, WhiteSpace, Ticks, HasTicks;
  }

  lemma TicksShape(line: string)
    ensures Ticks(line) <==> HasTicks(line)
  {
    if HasTicks(line) {
      assert line[..3] == "```";
    }
    if Ticks(line) {
      assert line[0] == "```"[0] && line[1] == "```"[1] && line[2] == "```"[2];
    }
  }

  lemma TableShape(lines: seq<string>, i: nat)
    requires i < |lines|
    ensures TableStart(lines, i) <==> BeginsTable(lines, i)
  {
    if i + 1 < |lines| {
      DelimiterIff(lines[i + 1]);
    }
    hide TableDelimiter, IsDelimiterRow, SplitTableRow;
  }

  // ----- Which block a line begins

  /** The branch the first matching shape takes. */
  ghost predicate Begins(lines: seq<string>, i: nat, b: Block)
    requires i < |lines|
  {
    var line := lines[i];
    if IsFence(line) then b.Code?
    else if IsTitle(line) then b.Title?
    else if BeginsTable(lines, i) then b.Table?
    else if IsDashes(line) then b.Rule?
    else if BeginsQuote(line) then b.Listing? && b.run == QuoteRun
    else if IsBullet(line) then b.Listing? && b.run == BulletRun
    else if IsNumber(line) then b.Listing? && b.run == NumberRun
    else if Spaces(line) then b == Block.Gap
    else b.Listing? && b.run == ParagraphRun
  }

  lemma TurnBegins(lines: seq<string>, i: nat)
    requires i < |lines|
    ensures Begins(lines, i, Turn(lines, i).block)
  {
    hide *;
    Shapes(lines[i]);
    TableShape(lines, i);
    BlockOfKind(lines, i);
    KindBegins(lines, i, Turn(lines, i).block);
  }

  ghost predicate KindOf(kind: Kind, b: Block) {
    match kind
    case FencedCode => b.Code?
    case HeadingLine => b.Title?
    case PipeTable => b.Table?
    case RuleLine => b.Rule?
    case RunOf(run) => b.Listing? && b.run == run
    case BlankLine => b == Block.Gap
  }

  lemma BlockOfKind(lines: seq<string>, i: nat)
    requires i < |lines|
    ensures KindOf(KindAt(lines, i), Turn(lines, i).block)
  {
    hide KindAt, Fence, Heading, TableStart, SplitTableRow, TableAligns, RunEnd, Items;
  }

  lemma KindBegins(lines: seq<string>, i: nat, b: Block)
    requires i < |lines| && KindOf(KindAt(lines, i), b)
    requires Fence(lines[i]).Some? <==> IsFence(lines[i])
    requires Heading(lines[i]).Some? <==> IsTitle(lines[i])
    requires TableStart(lines, i) <==> BeginsTable(lines, i)
    requires IsRule(lines[i]) <==> IsDashes(lines[i])
    requires QuoteStart(lines[i]) <==> BeginsQuote(lines[i])
    requires Bullet(lines[i]) <==> IsBullet(lines[i])
    requires Numbered(lines[i]) <==> IsNumber(lines[i])
    requires Blank(lines[i]) <==> Spaces(lines[i])
    ensures Begins(lines, i, b)
  {
    hide Fence, Heading, TableStart, IsRule, QuoteStart, Bullet, Numbered, Blank, IsFence, IsTitle, BeginsTable,
      IsDashes, BeginsQuote, IsBullet, IsNumber, Spaces;
  }

  /** The lines over which a run goes on. */
  ghost predicate GoesOn(run: Run, lines: seq<string>, k: nat)
    requires k < |lines|
  {
    var line := lines[k];
    match run
    case CodeBody => !IsClosingFence(line)
    case TableBody => '|' in line && !Spaces(line)
    case QuoteRun => IsQuoted(line)
    case BulletRun => IsBullet(line)
    case NumberRun => IsNumber(line)
    case ParagraphRun =>
      && !Spaces(line) && !LooksLikeTitle(line) && !HasTicks(line) && !IsBullet(line) && !IsNumber(line)
      && !BeginsQuote(line) && !IsDashes(line) && !BeginsTable(lines, k)
  }

  lemma ContinuesIff(run: Run, lines: seq<string>, k: nat)
    requires k < |lines|
    ensures Continues(run, lines, k) <==> GoesOn(run, lines, k)
  {
    Shapes(lines[k]);
    TableShape(lines, k);
    hide Fence, Heading, TableStart, IsRule, QuoteStart, QuoteLine, Bullet, Numbered, Blank, IsFence, IsTitle,
      BeginsTable, IsDashes, BeginsQuote, IsQuoted, IsBullet, IsNumber, Spaces, FenceEnd, IsClosingFence, HeadingShape,
      LooksLikeTitle, Ticks, HasTicks;
  }

  // ----- What an item is of its line

  ghost predicate ItemShows(run: Run, line: string, item: Item) {
    match run
    case CodeBody => item == Line(line)
    case TableBody => item.Cells? && IsRow(line, item.cells)
    case QuoteRun => item.Line? && exists gap :: QuotedLine(line, gap, item.text)
    case BulletRun => item.Line? && exists gap :: BulletLine(line, gap, item.text)
    case NumberRun => item.Line? && exists digits, gap :: NumberLine(line, digits, gap, item.text)
    case ParagraphRun => item == Line(line)
  }

  lemma ItemIs(run: Run, lines: seq<string>, k: nat)
    requires k < |lines| && Continues(run, lines, k)
    ensures ItemShows(run, lines[k], ItemOf(run, lines, k))
  {
    match run
    case CodeBody =>
    case TableBody =>
      CutRow(lines[k]);
      hide SplitTableRow, IsRow;
    case QuoteRun =>
      CutQuote(lines[k]);
      hide QuoteText, QuotedLine, QuoteLine, QuoteStart;
    case BulletRun =>
      CutBullet(lines[k]);
      hide BulletText, BulletLine, Bullet;
    case NumberRun =>
      CutNumber(lines[k]);
      hide NumberedText, NumberLine, Numbered;
    case ParagraphRun =>
  }

  /** A run of lines, each with its item, that could not go on. */
  ghost predicate RunShows(run: Run, lines: seq<string>, first: nat, end: int, items: seq<Item>) {
    && first <= end <= |lines| && |items| == end - first
    && (forall k :: first <= k < end ==> GoesOn(run, lines, k) && ItemShows(run, lines[k], items[k - first]))
    && (end < |lines| ==> !GoesOn(run, lines, end))
  }

  lemma RunIs(run: Run, lines: seq<string>, first: nat, end: int, items: seq<Item>)
    requires Holds(run, lines, items, first, end)
    ensures RunShows(run, lines, first, end, items)
  {
    forall k: nat | first <= k < end
      ensures GoesOn(run, lines, k) && ItemShows(run, lines[k], items[k - first])
    {
      ContinuesIff(run, lines, k);
      ItemIs(run, lines, k);
    }
    if end < |lines| {
      ContinuesIff(run, lines, end);
    }
    hide Continues, GoesOn, ItemShows, ItemOf;
  }

  /** The block at `p` is made of the lines from `p.from` up to `p.next`, and of their texts. */
  ghost predicate MadeOf(lines: seq<string>, p: Piece)
    requires p.from < |lines|
  {
    var line := lines[p.from];
    match p.block
    case Code(lang, body) =>
      (exists tail :: FenceLine(line, lang, tail)) && RunShows(CodeBody, lines, p.from + 1, p.next - 1, body)
    case Title(level, text) => p.next == p.from + 1 && exists gap, tail :: TitleLine(line, level, gap, text, tail)
    case Table(head, aligns, rows) =>
      && IsRow(line, head) && RunShows(TableBody, lines, p.from + 2, p.next, rows)
      && p.from + 1 < |lines| && exists cells :: IsDelimiterRow(lines[p.from + 1], cells) && Aligned(cells, aligns)
    case Rule => p.next == p.from + 1
    case Listing(run, items) => RunShows(run, lines, p.from, p.next, items)
    case Gap => p.next == p.from + 1
  }

  /** A column is centred with a colon on both sides, right-aligned with one on the right. */
  ghost predicate Aligned(cells: seq<string>, aligns: seq<Align>) {
    && |aligns| == |cells|
    && forall k :: 0 <= k < |cells| ==> AlignedBy(cells[k], aligns[k])
  }

  ghost predicate AlignedBy(cell: string, a: Align) {
    exists left, dashes, right ::
      && DashCell(cell, left, dashes, right)
      && a == if left && right then Centre else if right then Right else Unset
  }

  lemma AlignedCells(cells: seq<string>)
    requires forall k :: 0 <= k < |cells| ==> IsDashCell(cells[k])
    ensures Aligned(cells, TableAligns(cells))
  {
    forall k | 0 <= k < |cells|
      ensures AlignedBy(cells[k], TableAligns(cells)[k])
    {
      assert IsDashCell(cells[k]);
      var left, dashes, right :| DashCell(cells[k], left, dashes, right);
      OnlyDashCell(cells[k], left, dashes, right);
    }
    hide TableAlign, DashCell, DelimiterCell, AlignedBy, IsDashCell;
  }

  /** What every block of a page is made of. */
  lemma BlocksAreTheirLines(lines: seq<string>, i: nat)
    requires i < |lines|
    ensures Begins(lines, i, Turn(lines, i).block) && MadeOf(lines, Turn(lines, i))
  {
    hide *;
    TurnBegins(lines, i);
    var p := Turn(lines, i);
    OneItemPerLine(lines, i);
    PieceFrom(lines, i);
    match p.block
    case Code(lang, body) => CodeMade(lines, i);
    case Title(level, text) => TitleMade(lines, i);
    case Table(head, aligns, rows) => TableMade(lines, i);
    case Rule => SimpleMade(lines, i);
    case Listing(run, items) => ListingMade(lines, i);
    case Gap => SimpleMade(lines, i);
  }

  lemma PieceFrom(lines: seq<string>, i: nat)
    requires i < |lines|
    ensures Turn(lines, i).from == i
  {
    hide *;
  }

  lemma CodeMade(lines: seq<string>, i: nat)
    requires i < |lines| && Turn(lines, i).block.Code?
    ensures MadeOf(lines, Turn(lines, i))
  {
    var p := Turn(lines, i);
    OneItemPerLine(lines, i);
    RunIs(CodeBody, lines, i + 1, p.next - 1, p.block.body);
    CutFence(lines[i]);
    hide RunShows, Holds, FenceLine, Fence, Heading, Items, RunEnd, SplitTableRow, TableAligns, TableStart;
  }

  lemma TitleMade(lines: seq<string>, i: nat)
    requires i < |lines| && Turn(lines, i).block.Title?
    ensures MadeOf(lines, Turn(lines, i))
  {
    hide *;
    TitleTurn(lines, i);
    CutTitle(lines[i]);
    TitleFits(lines, Turn(lines, i), Heading(lines[i]).value.0, Heading(lines[i]).value.1);
  }

  lemma TitleTurn(lines: seq<string>, i: nat)
    requires i < |lines| && Turn(lines, i).block.Title?
    ensures Heading(lines[i]).Some?
    ensures Turn(lines, i) == Piece(Title(Heading(lines[i]).value.0, Heading(lines[i]).value.1), i, i + 1)
  {
    hide Fence, Heading, Items, RunEnd, SplitTableRow, TableAligns, TableStart;
  }

  lemma TitleFits(lines: seq<string>, p: Piece, level: nat, text: string)
    requires p.from < |lines| && p == Piece(Title(level, text), p.from, p.from + 1)
    requires exists gap, tail :: TitleLine(lines[p.from], level, gap, text, tail)
    ensures MadeOf(lines, p)
  {
    hide TitleLine;
  }

  lemma TableMade(lines: seq<string>, i: nat)
    requires i < |lines| && Turn(lines, i).block.Table?
    ensures MadeOf(lines, Turn(lines, i))
  {
    hide *;
    var p := Turn(lines, i);
    OneItemPerLine(lines, i);
    TableParts(lines, i);
    TableRun(p, i);
    RunIs(TableBody, lines, i + 2, p.next, p.block.rows);
    CutRow(lines[i]);
    DelimiterIff(lines[i + 1]);
    DashCells(lines[i + 1], SplitTableRow(lines[i + 1]));
    AlignedCells(SplitTableRow(lines[i + 1]));
    TableFrom(lines, p, SplitTableRow(lines[i + 1]));
  }

  lemma TableRun(p: Piece, i: nat)
    requires p.block.Table? && p.from == i
    ensures BlockRun(p.block) == Some(TableBody) && ItemsIn(p.block) == p.block.rows
    ensures FirstLine(p) == i + 2 && EndLine(p) == p.next
  {}

  lemma DashCells(line: string, cells: seq<string>)
    requires IsDelimiterRow(line, cells)
    ensures forall k :: 0 <= k < |cells| ==> IsDashCell(cells[k])
  {
    hide IsRow, IsDashCell;
  }

  lemma TableFrom(lines: seq<string>, p: Piece, cells: seq<string>)
    requires p.block.Table? && p.from + 1 < |lines| && IsRow(lines[p.from], p.block.head)
    requires RunShows(TableBody, lines, p.from + 2, p.next, p.block.rows)
    requires IsDelimiterRow(lines[p.from + 1], cells) && Aligned(cells, p.block.aligns)
    ensures MadeOf(lines, p)
  {
    hide RunShows, IsRow, IsDelimiterRow, Aligned;
  }

  lemma TableParts(lines: seq<string>, i: nat)
    requires i < |lines| && Turn(lines, i).block.Table?
    ensures i + 1 < |lines| && TableDelimiter(lines[i + 1])
    ensures var b := Turn(lines, i).block;
      b.head == SplitTableRow(lines[i]) && b.aligns == TableAligns(SplitTableRow(lines[i + 1]))
  {
    hide Fence, Heading, Items, RunEnd, SplitTableRow, TableAligns, TableDelimiter;
  }

  lemma SimpleMade(lines: seq<string>, i: nat)
    requires i < |lines| && (Turn(lines, i).block.Rule? || Turn(lines, i).block == Block.Gap)
    ensures MadeOf(lines, Turn(lines, i))
  {
    hide Fence, Heading, Items, RunEnd, SplitTableRow, TableAligns, TableStart;
  }

  lemma ListingMade(lines: seq<string>, i: nat)
    requires i < |lines| && Turn(lines, i).block.Listing?
    ensures MadeOf(lines, Turn(lines, i))
  {
    var p := Turn(lines, i);
    OneItemPerLine(lines, i);
    RunIs(p.block.run, lines, i, p.next, p.block.items);
    hide RunShows, Holds, Turn;
  }
}
