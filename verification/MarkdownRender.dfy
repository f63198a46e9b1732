/** Whole documents: when renderMarkdown comes back, that it loses no line, and that its tags nest. */
module MarkdownRender {
  import opened Prelude
  import opened Text
  import opened Markdown

  /** The blocks emitted from a cursor on, and the line where the loop stops moving, if it ever does. */
  datatype Rendering = Rendering(pieces: seq<Piece>, stuckAt: Option<nat>)

  function RenderFrom(lines: seq<string>, i: nat): Rendering
    decreases |lines| - i
  {
    if i >= |lines| then Rendering([], None) else
      var p := Turn(lines, i);
      if p.next == i then Rendering([], Some(i)) else
        var rest := RenderFrom(lines, p.next);
        Rendering([p] + rest.pieces, rest.stuckAt)
  }

  // ----- The loops

  /** An inner loop: push lines while its guard holds. */
  method CollectRun(run: Run, lines: seq<string>, i: nat) returns (items: seq<Item>, end: nat)
    requires i <= |lines|
    ensures end == RunEnd(run, lines, i) && items == Items(run, lines, i, end)
  {
    hide Continues, ItemOf;
    items, end := [], i;
    while end < |lines| && Continues(run, lines, end)
      invariant i <= end <= |lines|
      invariant items == Items(run, lines, i, end)
      invariant RunEnd(run, lines, i) == RunEnd(run, lines, end)
    {
      items := items + [ItemOf(run, lines, end)];
      end := end + 1;
    }
  }

  /** One turn of the outer loop, guard by guard. */
  method TakeTurn(lines: seq<string>, i: nat) returns (p: Piece)
    requires i < |lines|
    ensures p == Turn(lines, i)
  {
    hide Fence, Heading, IsRule, QuoteStart, Bullet, Numbered, Blank, TableStart, SplitTableRow, TableAligns, RunEnd,
      Items;
    var line := lines[i];
    var fence := Fence(line);
    if fence.Some? {
      var body, end := CollectRun(CodeBody, lines, i + 1);
      return Piece(Code(fence.value, body), i, end + 1);
    }
    var h := Heading(line);
    if h.Some? {
      return Piece(Title(h.value.0, h.value.1), i, i + 1);
    }
    if TableStart(lines, i) {
      TableHasTwoLines(lines, i);
      var head, aligns := SplitTableRow(line), TableAligns(SplitTableRow(lines[i + 1]));
      var rows, end := CollectRun(TableBody, lines, i + 2);
      return Piece(Table(head, aligns, rows), i, end);
    }
    if IsRule(line) {
      return Piece(Rule, i, i + 1);
    }
    if QuoteStart(line) {
      var quoted, end := CollectRun(QuoteRun, lines, i);
      return Piece(Listing(QuoteRun, quoted), i, end);
    }
    if Bullet(line) {
      var items, end := CollectRun(BulletRun, lines, i);
      return Piece(Listing(BulletRun, items), i, end);
    }
    if Numbered(line) {
      var items, end := CollectRun(NumberRun, lines, i);
      return Piece(Listing(NumberRun, items), i, end);
    }
    if Blank(line) {
      return Piece(Gap, i, i + 1);
    }
    var joined, end := CollectRun(ParagraphRun, lines, i);
    p := Piece(Listing(ParagraphRun, joined), i, end);
  }

  /** renderMarkdown up to HTML.  The source has no exit for a turn that leaves the cursor where it was: it repeats that
      turn for ever, pushing an empty paragraph each time.  Here the method reports the line instead. */
  method RenderMarkdown(lines: seq<string>) returns (r: Rendering)
    ensures r == RenderFrom(lines, 0)
  {
    hide Turn;
    var out, i := [], 0;
    while i < |lines|
      invariant 0 <= i <= |lines| + 1
      invariant RenderFrom(lines, 0)
             == Rendering(out + RenderFrom(lines, i).pieces, RenderFrom(lines, i).stuckAt)
      decreases |lines| - i
    {
      var p := TakeTurn(lines, i);
      if p.next == i {
        return Rendering(out, Some(i));
      }
      assert out + ([p] + RenderFrom(lines, p.next).pieces) == out + [p] + RenderFrom(lines, p.next).pieces;
      out, i := out + [p], p.next;
    }
    r := Rendering(out, None);
  }

  // ----- Conservation

  /** The source lines of a piece. */
  function Owned(lines: seq<string>, p: Piece): seq<string>
    requires p.from <= p.next && p.from <= |lines|
  {
    lines[p.from..if p.next <= |lines| then p.next else |lines|]
  }

  function OwnedBy(lines: seq<string>, pieces: seq<Piece>): seq<string>
    requires forall p :: p in pieces ==> p.from <= p.next && p.from <= |lines|
  {
    if pieces == [] then [] else Owned(lines, pieces[0]) + OwnedBy(lines, pieces[1..])
  }

  /** Every emitted piece is a turn of the loop that moved, and the loop stops moving only at a stuck line. */
  lemma {:induction false} PiecesAreTurns(lines: seq<string>, i: nat)
    ensures var r := RenderFrom(lines, i);
      && (forall p :: p in r.pieces ==> i <= p.from < |lines| && p.from < p.next && p == Turn(lines, p.from))
      && (r.stuckAt.Some? ==> i <= r.stuckAt.value < |lines| && Stuck(lines, r.stuckAt.value))
    decreases |lines| - i
  {
    if |lines| <= i {
    } else {
      TurnProgress(lines, i);
      if Turn(lines, i).next != i {
        PiecesAreTurns(lines, Turn(lines, i).next);
        hide Turn, Stuck;
      }
    }
  }

  /** The blocks own all the lines before the stuck one, each once and in order; without a stuck line, all lines. */
  lemma {:induction false} LinesConserved(lines: seq<string>, i: nat)
    requires i <= |lines|
    ensures var r := RenderFrom(lines, i);
      && (forall p :: p in r.pieces ==> p.from <= p.next && p.from <= |lines|)
      && (r.stuckAt.Some? ==> i <= r.stuckAt.value <= |lines|)
      && OwnedBy(lines, r.pieces) == lines[i..if r.stuckAt.Some? then r.stuckAt.value else |lines|]
    decreases |lines| - i
  {
    PiecesAreTurns(lines, i);
    if |lines| <= i {
    } else if Turn(lines, i).next != i {
      var p := Turn(lines, i);
      hide Turn, Stuck;
      var next := if p.next <= |lines| then p.next else |lines|;
      assert RenderFrom(lines, p.next) == RenderFrom(lines, next);
      LinesConserved(lines, next);
      OwnedSnoc(lines, p, RenderFrom(lines, next).pieces);
      var stuckAt := RenderFrom(lines, i).stuckAt;
      JoinSlices(lines, i, next, if stuckAt.Some? then stuckAt.value else |lines|);
    }
  }

  lemma OwnedSnoc(lines: seq<string>, p: Piece, rest: seq<Piece>)
    requires p.from <= p.next && p.from <= |lines|
    requires forall q :: q in rest ==> q.from <= q.next && q.from <= |lines|
    ensures OwnedBy(lines, [p] + rest) == Owned(lines, p) + OwnedBy(lines, rest)
  {
    assert ([p] + rest)[1..] == rest;
  }

  lemma JoinSlices(lines: seq<string>, i: nat, j: nat, k: nat)
    requires i <= j <= k <= |lines|
    ensures lines[i..j] + lines[j..k] == lines[i..k]
  {}

  // What a block holds, and of which lines.

  function BlockRun(b: Block): Option<Run> {
    match b
    case Code(_, _) => Some(CodeBody)
    case Table(_, _, _) => Some(TableBody)
    case Listing(run, _) => Some(run)
    case _ => None
  }

  function ItemsIn(b: Block): seq<Item> {
    match b
    case Code(_, body) => body
    case Table(_, _, rows) => rows
    case Listing(_, items) => items
    case _ => []
  }

  /** The lines of a piece that become items: without the fence lines, without the header and delimiter row. */
  function FirstLine(p: Piece): nat {
    if p.block.Code? then p.from + 1 else if p.block.Table? then p.from + 2 else p.from
  }

  function EndLine(p: Piece): int {
    if p.block.Code? then p.next - 1 else p.next
  }

  /** `items` has one entry for each of the lines [first, end), in order, and the run could not go on. */
  ghost predicate Holds(run: Run, lines: seq<string>, items: seq<Item>, first: nat, end: int) {
    && first <= end <= |lines| && |items| == end - first
    && (forall k :: first <= k < end ==> Continues(run, lines, k) && items[k - first] == ItemOf(run, lines, k))
    && (end < |lines| ==> !Continues(run, lines, end))
  }

  /** The run goes on from `i` up to `end`, and no further. */
  ghost predicate Extends(run: Run, lines: seq<string>, i: nat, end: nat) {
    && i <= end <= |lines| && (forall k :: i <= k < end ==> Continues(run, lines, k))
    && (end < |lines| ==> !Continues(run, lines, end))
  }

  lemma {:induction false} RunExtends(run: Run, lines: seq<string>, i: nat)
    requires i <= |lines|
    ensures Extends(run, lines, i, RunEnd(run, lines, i))
    decreases |lines| - i
  {
    hide Continues;
    if |lines| <= i {
    } else if Continues(run, lines, i) {
      RunExtends(run, lines, i + 1);
    }
  }

  ghost predicate Collects(run: Run, lines: seq<string>, items: seq<Item>, i: nat, end: nat) {
    i <= end <= |lines| && |items| == end - i && forall k :: i <= k < end ==> items[k - i] == ItemOf(run, lines, k)
  }

  lemma ItemsCollect(run: Run, lines: seq<string>, i: nat, end: nat)
    requires i <= end <= |lines|
    ensures Collects(run, lines, Items(run, lines, i, end), i, end)
  {
    hide ItemOf;
  }

  lemma RunHolds(run: Run, lines: seq<string>, i: nat)
    requires i <= |lines|
    ensures Holds(run, lines, Items(run, lines, i, RunEnd(run, lines, i)), i, RunEnd(run, lines, i))
  {
    hide *;
    var end := RunEnd(run, lines, i);
    RunExtends(run, lines, i);
    ItemsCollect(run, lines, i, end);
    HoldsIf(run, lines, Items(run, lines, i, end), i, end);
  }

  lemma HoldsIf(run: Run, lines: seq<string>, items: seq<Item>, first: nat, end: nat)
    requires Extends(run, lines, first, end) && Collects(run, lines, items, first, end)
    ensures Holds(run, lines, items, first, end)
  {
    hide Continues, ItemOf;
  }

  /** A list has one item, a quote or paragraph one part, a table one row and a code block one line for each source line
      of its run, in order, and the run is as long as it can be; any other block takes one line. */
  lemma OneItemPerLine(lines: seq<string>, i: nat)
    requires i < |lines|
    ensures var p := Turn(lines, i);
      if BlockRun(p.block).None? then p.next == i + 1
      else Holds(BlockRun(p.block).value, lines, ItemsIn(p.block), FirstLine(p), EndLine(p))
  {
    hide Holds, KindAt, Fence, Heading, SplitTableRow, TableAligns, RunEnd, Items;
    TableHasTwoLines(lines, i);
    match KindAt(lines, i)
    case FencedCode => RunHolds(CodeBody, lines, i + 1);
    case HeadingLine =>
    case PipeTable => RunHolds(TableBody, lines, i + 2);
    case RuleLine =>
    case RunOf(run) => RunHolds(run, lines, i);
    case BlankLine =>
  }

  // ----- Termination

  /** Where a scan of the lines stands before a line: between blocks or right after a one-line block, inside a fenced
      block, after a table's header row, or in a run. */
  datatype Mode = Top | InCode | AfterHeader | InRun(run: Run)

  /** The mode after a line that opens a block. */
  function Opened(lines: seq<string>, k: nat): Mode
    requires k < |lines|
  {
    match KindAt(lines, k)
    case FencedCode => InCode
    case PipeTable => AfterHeader
    case RunOf(run) => InRun(run)
    case _ => Top
  }

  function NextMode(lines: seq<string>, k: nat, m: Mode): Mode
    requires k < |lines|
  {
    match m
    case InCode => if FenceEnd(lines[k]) then Top else InCode
    case AfterHeader => InRun(TableBody)
    case InRun(run) => if Continues(run, lines, k) then m else Opened(lines, k)
    case Top => Opened(lines, k)
  }

  /** The mode before line `k`, from left to right and from the shapes of the lines alone. */
  function ModeBefore(lines: seq<string>, k: nat): Mode
    requires k <= |lines|
  {
    if k == 0 then Top else NextMode(lines, k - 1, ModeBefore(lines, k - 1))
  }

  /** Line `k` opens a block. */
  predicate Opens(lines: seq<string>, k: nat)
    requires k < |lines|
  {
    match ModeBefore(lines, k)
    case Top => true
    case InRun(run) => !Continues(run, lines, k)
    case _ => false
  }

  /** Line `k` lies inside a fenced block or a table, where its shape does not matter. */
  predicate Sheltered(lines: seq<string>, k: nat)
    requires k < |lines|
  {
    match ModeBefore(lines, k)
    case InCode => true
    case AfterHeader => true
    case InRun(run) => run == TableBody && Continues(run, lines, k)
    case Top => false
  }

  lemma NotStuckInRun(run: Run, lines: seq<string>, k: nat)
    requires k < |lines|
    ensures Continues(run, lines, k) && Stuck(lines, k) ==> run == CodeBody || run == TableBody
  {
    if Stuck(lines, k) {
      StuckLooksLikeNothingElse(lines[k]);
    }
    hide Bullet, Numbered, QuoteLine, Heading, HeadingShape, Ticks, Fence, Blank, FenceEnd, IsRule, TableStart;
  }

  lemma ModeStep(lines: seq<string>, k: nat)
    requires k < |lines|
    ensures ModeBefore(lines, k + 1) == NextMode(lines, k, ModeBefore(lines, k))
  {
    hide NextMode;
  }

  lemma RunStep(run: Run, lines: seq<string>, i: nat, end: nat, k: nat)
    requires i <= k < end && Extends(run, lines, i, end) && ModeBefore(lines, k) == InRun(run)
    ensures ModeBefore(lines, k + 1) == InRun(run)
  {
    ModeStep(lines, k);
    hide ModeBefore, Continues, Opened;
  }

  /** A run stays in its mode up to its end. */
  lemma {:induction false} RunModes(run: Run, lines: seq<string>, i: nat, end: nat, k: nat)
    requires i <= k <= end <= |lines| && Extends(run, lines, i, end) && ModeBefore(lines, i) == InRun(run)
    ensures ModeBefore(lines, k) == InRun(run)
    decreases k
  {
    hide *;
    if i == k {
    } else {
      RunModes(run, lines, i, end, k - 1);
      RunStep(run, lines, i, end, k - 1);
    }
  }

  lemma CodeStep(lines: seq<string>, i: nat, end: nat, k: nat)
    requires i <= k < end && Extends(CodeBody, lines, i, end) && ModeBefore(lines, k) == InCode
    ensures ModeBefore(lines, k + 1) == InCode
  {
    ModeStep(lines, k);
    assert Continues(CodeBody, lines, k);
    hide ModeBefore, FenceEnd, Opened, Extends;
  }

  lemma {:induction false} CodeModes(lines: seq<string>, i: nat, end: nat, k: nat)
    requires i <= k <= end <= |lines| && Extends(CodeBody, lines, i, end) && ModeBefore(lines, i) == InCode
    ensures ModeBefore(lines, k) == InCode
    decreases k
  {
    hide *;
    if i == k {
    } else {
      CodeModes(lines, i, end, k - 1);
      CodeStep(lines, i, end, k - 1);
    }
  }

  /** The stuck-shaped lines from `i` up to `end` are all sheltered. */
  ghost predicate Harmless(lines: seq<string>, i: nat, end: int) {
    forall k :: i <= k < end && k < |lines| && Stuck(lines, k) ==> Sheltered(lines, k)
  }

  lemma OpensUnsheltered(lines: seq<string>, i: nat)
    requires i < |lines| && Opens(lines, i)
    ensures !Sheltered(lines, i)
    ensures ModeBefore(lines, i + 1) == Opened(lines, i)
  {
    hide Continues, KindAt;
  }

  /** After a turn that moved, the scan and the cursor agree again. */
  ghost predicate InStep(lines: seq<string>, i: nat, next: nat) {
    Harmless(lines, i + 1, next) && (next < |lines| ==> Opens(lines, next))
  }

  lemma RunTurn(run: Run, lines: seq<string>, i: nat)
    requires i < |lines| && ModeBefore(lines, i + 1) == InRun(run) && Continues(run, lines, i)
    requires run != CodeBody && run != TableBody
    ensures InStep(lines, i, RunEnd(run, lines, i))
  {
    hide Continues, Stuck, KindAt, ModeBefore;
    var next := RunEnd(run, lines, i);
    RunExtends(run, lines, i + 1);
    RunModes(run, lines, i + 1, next, next);
    forall k | i < k < next && k < |lines|
      ensures !Stuck(lines, k)
    {
      NotStuckInRun(run, lines, k);
    }
  }

  lemma CodeTurn(lines: seq<string>, i: nat)
    requires i < |lines| && ModeBefore(lines, i + 1) == InCode
    ensures InStep(lines, i, RunEnd(CodeBody, lines, i + 1) + 1)
  {
    hide Stuck, KindAt, FenceEnd, ModeBefore;
    var end := RunEnd(CodeBody, lines, i + 1);
    RunExtends(CodeBody, lines, i + 1);
    forall k | i < k <= end && k < |lines|
      ensures Sheltered(lines, k)
    {
      CodeModes(lines, i + 1, end, k);
    }
    if end + 1 < |lines| {
      assert !Continues(CodeBody, lines, end);
      CodeModes(lines, i + 1, end, end);
      ModeStep(lines, end);
      assert ModeBefore(lines, end + 1) == Top;
    }
  }

  lemma TableTurn(lines: seq<string>, i: nat)
    requires i + 2 <= |lines| && ModeBefore(lines, i + 1) == AfterHeader
    ensures InStep(lines, i, RunEnd(TableBody, lines, i + 2))
  {
    hide Continues, Stuck, KindAt, ModeBefore;
    var next := RunEnd(TableBody, lines, i + 2);
    RunExtends(TableBody, lines, i + 2);
    ModeStep(lines, i + 1);
    RunModes(TableBody, lines, i + 2, next, next);
    forall k | i < k < next && k < |lines|
      ensures Sheltered(lines, k)
    {
      if k > i + 1 {
        RunModes(TableBody, lines, i + 2, next, k);
      }
    }
  }

  /** Where each kind of turn leaves the cursor. */
  lemma NextOf(lines: seq<string>, i: nat)
    requires i < |lines|
    ensures var kind, next := KindAt(lines, i), Turn(lines, i).next;
      && (kind.FencedCode? ==> next == RunEnd(CodeBody, lines, i + 1) + 1)
      && (kind.PipeTable? ==> i + 2 <= |lines| && next == RunEnd(TableBody, lines, i + 2))
      && (kind.RunOf? ==> next == RunEnd(kind.run, lines, i))
      && (!kind.FencedCode? && !kind.PipeTable? && !kind.RunOf? ==> next == i + 1)
  {
    TableHasTwoLines(lines, i);
    hide KindAt, RunEnd, Fence, Heading, SplitTableRow, TableAligns, Items;
  }

  lemma TurnInStep(lines: seq<string>, i: nat)
    requires i < |lines| && Opens(lines, i) && !Stuck(lines, i)
    ensures InStep(lines, i, Turn(lines, i).next)
  {
    hide *;
    var kind := KindAt(lines, i);
    EmptyRunIff(lines, i);
    OpensUnsheltered(lines, i);
    NextOf(lines, i);
    OpenedBy(lines, i);
    if kind.FencedCode? {
      CodeTurn(lines, i);
    } else if kind.PipeTable? {
      TableTurn(lines, i);
    } else if kind.RunOf? {
      RunTurn(kind.run, lines, i);
    } else {
      OneLineTurn(lines, i);
    }
  }

  lemma OpenedBy(lines: seq<string>, i: nat)
    requires i < |lines|
    ensures var kind, m := KindAt(lines, i), Opened(lines, i);
      && (kind.FencedCode? ==> m == InCode) && (kind.PipeTable? ==> m == AfterHeader)
      && (kind.RunOf? ==> m == InRun(kind.run))
      && (!kind.FencedCode? && !kind.PipeTable? && !kind.RunOf? ==> m == Top)
  {
    hide KindAt;
  }

  lemma OneLineTurn(lines: seq<string>, i: nat)
    requires i < |lines| && ModeBefore(lines, i + 1) == Top
    ensures InStep(lines, i, i + 1)
  {
    hide ModeBefore, Stuck;
  }

  /** From a line that opens a block, rendering comes back exactly when all stuck-shaped lines ahead are sheltered. */
  lemma {:induction false} TerminatesFrom(lines: seq<string>, i: nat)
    requires i < |lines| ==> Opens(lines, i)
    ensures RenderFrom(lines, i).stuckAt.None? <==> Harmless(lines, i, |lines|)
    decreases |lines| - i
  {
    if |lines| <= i {
    } else {
      TurnProgress(lines, i);
      OpensUnsheltered(lines, i);
      var next := Turn(lines, i).next;
      if !Stuck(lines, i) {
        TurnInStep(lines, i);
        hide Turn, Stuck, Opens, Sheltered, ModeBefore;
        TerminatesFrom(lines, next);
        HarmlessParts(lines, i, next);
      }
      hide Turn, Stuck, Opens, Sheltered, ModeBefore;
    }
  }

  lemma HarmlessParts(lines: seq<string>, i: nat, next: nat)
    requires i < |lines| && i < next && !Stuck(lines, i) && Harmless(lines, i + 1, next)
    ensures Harmless(lines, i, |lines|) <==> Harmless(lines, next, |lines|)
  {
    hide Stuck, Sheltered;
  }

  /** renderMarkdown comes back exactly when every line that starts with three backticks but is no fence, and every
      heading-shaped line that is no heading, is sheltered by a fenced block or a table (or starts a table). */
  lemma TerminatesIff(lines: seq<string>)
    ensures RenderFrom(lines, 0).stuckAt.None?
      <==> forall k :: 0 <= k < |lines| && Stuck(lines, k) ==> Sheltered(lines, k)
  {
    TerminatesFrom(lines, 0);
    hide RenderFrom, Stuck, Sheltered;
  }

  /** In particular, a document without such lines always renders. */
  lemma TerminatesWithoutStuckLines(lines: seq<string>)
    requires forall k :: 0 <= k < |lines| ==> !Stuck(lines, k)
    ensures RenderFrom(lines, 0).stuckAt.None?
  {
    TerminatesIff(lines);
    hide RenderFrom, Stuck, Sheltered;
  }

  /** The two smallest documents that hang: a fence whose info string has a space, and a heading with a lone CR. */
  lemma HangingDocuments()
    ensures RenderFrom(["``` js x"], 0) == Rendering([], Some(0))
    ensures RenderFrom(["# a\rb"], 0) == Rendering([], Some(0))
  {
    InfoString();
    LoneReturn();
    TurnProgress(["``` js x"], 0);
    TurnProgress(["# a\rb"], 0);
    hide Turn, Stuck;
  }

  lemma InfoString()
    ensures Stuck(["``` js x"], 0)
  {
    var line := "``` js x";
    assert line[..3] == "```" && line[3..] == " js x";
    assert !IsSpace(line[3..][1]);
  }

  lemma LoneReturn()
    ensures Stuck(["# a\rb"], 0)
  {
    var text, line := "a\rb", "# a\rb";
    assert line == "# " + text && Trimmed(text) && LineTerminator(text[1]);
    HashAndSpace(text, 1);
    OnlyLine(line);
    hide *;
  }

  /** Shaped like a first-level heading, but the text holds a character that `.` does not match. */
  lemma HashAndSpace(text: string, i: nat)
    requires Trimmed(text) && i < |text| && LineTerminator(text[i])
    ensures HeadingShape("# " + text) && Heading("# " + text).None?
  {
    hide *;
    TrimPadded(text);
    OneHash(" " + text);
    AfterTheHash(text);
    NotAHeading("# " + text, i);
  }

  lemma AfterTheHash(text: string)
    ensures var line := "# " + text; line == "#" + (" " + text) && line[1..] == " " + text && IsSpace(line[1])
  {}

  lemma NotAHeading(line: string, i: nat)
    requires Count(line, '#') == 1 && |line| > 1 && IsSpace(line[1])
    requires i < |Trim(line[1..])| && LineTerminator(Trim(line[1..])[i])
    ensures HeadingShape(line) && Heading(line).None?
  {
    hide Trim, Count, LineTerminator, IsSpace;
  }

  lemma OnlyLine(line: string)
    ensures Stuck([line], 0) <==> (Ticks(line) && Fence(line).None?) || (HeadingShape(line) && Heading(line).None?)
  {
    hide TableDelimiter, HasPipe, Ticks, Fence, HeadingShape, Heading;
  }

  lemma OneHash(rest: string)
    requires rest != "" && rest[0] != '#'
    ensures Count("#" + rest, '#') == 1
  {
    assert ("#" + rest)[1..] == rest;
  }
}
