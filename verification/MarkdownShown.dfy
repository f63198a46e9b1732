/** The HTML of every block in terms of its source lines. */
module MarkdownShown {
  import opened Prelude
  import opened Text
  import opened Numerals
  import opened Markdown
  import opened MarkdownRender
  import opened MarkdownHtml
  import opened MarkdownText
  import opened MarkdownBlocks

  /** A heading shows its text under the tag of its level. */
  lemma TitleShown(lines: seq<string>, i: nat)
    requires i < |lines| && Turn(lines, i).block.Title?
    ensures var b := Turn(lines, i).block;
      && 1 <= b.level <= 4 && (exists gap, tail :: TitleLine(lines[i], b.level, gap, b.text, tail))
      && Tokens(b) == [Open("h" + Digits(Ten, b.level), ""), Inline(b.text), Close("h" + Digits(Ten, b.level))]
  {
    hide *;
    TitleTurn(lines, i);
    CutTitle(lines[i]);
    TitleLevel(lines, i);
    TitleTokens(Turn(lines, i).block.level, Turn(lines, i).block.text);
  }

  lemma TitleTokens(level: nat, text: string)
    requires 1 <= level <= 4
    ensures Tokens(Title(level, text))
      == [Open("h" + Digits(Ten, level), ""), Inline(text), Close("h" + Digits(Ten, level))]
  {
    HeadingTags();
    hide Digits;
  }

  lemma TitleLevel(lines: seq<string>, i: nat)
    requires i < |lines| && Turn(lines, i).block.Title?
    ensures 1 <= Turn(lines, i).block.level <= 4
  {
    hide SplitTableRow, TableAligns, RunEnd, Items, TableStart, Fence, Trim, Count;
  }

  lemma HeadingTags()
    ensures HeadingTag(1) == "h" + Digits(Ten, 1) && HeadingTag(2) == "h" + Digits(Ten, 2)
    ensures HeadingTag(3) == "h" + Digits(Ten, 3) && HeadingTag(4) == "h" + Digits(Ten, 4)
  {
    assert Digits(Ten, 1) == "1" && Digits(Ten, 2) == "2" && Digits(Ten, 3) == "3" && Digits(Ten, 4) == "4";
  }

  /** A paragraph shows its source lines, joined by spaces. */
  lemma ParagraphShown(lines: seq<string>, i: nat)
    requires i < |lines| && Turn(lines, i).block.Listing? && Turn(lines, i).block.run == ParagraphRun
    ensures var p := Turn(lines, i);
      i <= p.next <= |lines| && Tokens(p.block) == [Open("p", ""), Inline(Join(lines[i..p.next], " ")), Close("p")]
  {
    BlocksAreTheirLines(lines, i);
    var p := Turn(lines, i);
    PlainTexts(ParagraphRun, lines, i, p.next, p.block.items);
    hide Turn, RunShows, Join;
  }

  /** The texts of a run of whole lines are those lines. */
  lemma PlainTexts(run: Run, lines: seq<string>, first: nat, end: int, items: seq<Item>)
    requires RunShows(run, lines, first, end, items) && (run == ParagraphRun || run == CodeBody)
    ensures first <= end <= |lines| && Texts(items) == lines[first..end]
  {
    hide GoesOn;
    forall k: nat | k < |items|
      ensures TextOf(items[k]) == lines[first..end][k]
    {
      assert ItemShows(run, lines[first + k], items[first + k - first]);
    }
  }

  /** A quote shows what follows the mark of each of its lines, joined by spaces. */
  lemma QuoteShown(lines: seq<string>, i: nat)
    requires i < |lines| && Turn(lines, i).block.Listing? && Turn(lines, i).block.run == QuoteRun
    ensures var p := Turn(lines, i); var texts := Texts(p.block.items);
      && i + |texts| == p.next <= |lines|
      && (forall k :: 0 <= k < |texts| ==> ItemShows(QuoteRun, lines[i + k], Line(texts[k])))
      && Tokens(p.block) == [Open("blockquote", ""), Inline(Join(texts, " ")), Close("blockquote")]
  {
    BlocksAreTheirLines(lines, i);
    var p := Turn(lines, i);
    var texts := Texts(p.block.items);
    hide Turn, Join, GoesOn, QuotedLine;
    forall k | 0 <= k < |texts|
      ensures ItemShows(QuoteRun, lines[i + k], Line(texts[k]))
    {
      assert ItemShows(QuoteRun, lines[i + k], p.block.items[i + k - i]);
      assert p.block.items[k] == Line(texts[k]);
    }
  }

  /** The tokens of the `k`-th item of a list. */
  lemma {:induction false} ItemTokensAt(items: seq<Item>, k: nat)
    requires k < |items|
    ensures |ItemTokens(items)| == 3 * |items|
    ensures ItemTokens(items)[3 * k..3 * k + 3] == [Open("li", ""), Inline(TextOf(items[k])), Close("li")]
  {
    ItemTokensLength(items);
    ItemTokensLength(items[1..]);
    var head, rest := [Open("li", ""), Inline(TextOf(items[0])), Close("li")], ItemTokens(items[1..]);
    assert ItemTokens(items) == head + rest;
    if k == 0 {
      assert (head + rest)[..3] == head;
    } else {
      ItemTokensAt(items[1..], k - 1);
      assert (head + rest)[3 * k..3 * k + 3] == rest[3 * (k - 1)..3 * (k - 1) + 3];
    }
  }

  lemma {:induction false} ItemTokensLength(items: seq<Item>)
    ensures |ItemTokens(items)| == 3 * |items|
  {
    if items == [] {
    } else {
      ItemTokensLength(items[1..]);
    }
  }

  /** A list shows what follows the marker of each of its lines, one list item each. */
  lemma ListShown(lines: seq<string>, i: nat, k: nat)
    requires i < |lines| && Turn(lines, i).block.Listing?
    requires Turn(lines, i).block.run == BulletRun || Turn(lines, i).block.run == NumberRun
    requires i + k < Turn(lines, i).next
    ensures var p := Turn(lines, i); var tag := if p.block.run == BulletRun then "ul" else "ol";
      var tokens := Tokens(p.block); var n := p.next - i;
      && i + k < p.next <= |lines| && |tokens| == 3 * n + 2
      && tokens[0] == Open(tag, "") && tokens[3 * n + 1] == Close(tag)
      && tokens[3 * k + 1] == Open("li", "") && tokens[3 * k + 3] == Close("li") && tokens[3 * k + 2].Inline?
      && ItemShows(p.block.run, lines[i + k], Line(tokens[3 * k + 2].text))
  {
    hide *;
    var p := Turn(lines, i);
    BlocksAreTheirLines(lines, i);
    PieceFrom(lines, i);
    ListItem(lines, p, k);
    var items, tag := p.block.items, if p.block.run == BulletRun then "ul" else "ol";
    ItemTokensAt(items, k);
    ListTokens(p.block, tag);
    Inner(Tokens(p.block), Open(tag, ""), ItemTokens(items), Close(tag), 3 * k, Open("li", ""),
          Inline(TextOf(items[k])), Close("li"));
  }

  /** Three tokens inside a wrapping. */
  lemma Inner(all: seq<Token>, first: Token, inner: seq<Token>, last: Token, at: nat, x: Token, y: Token, z: Token)
    requires all == [first] + inner + [last] && at + 3 <= |inner| && inner[at..at + 3] == [x, y, z]
    ensures |all| == |inner| + 2 && all[0] == first && all[|inner| + 1] == last
    ensures all[at + 1] == x && all[at + 2] == y && all[at + 3] == z
  {
    assert x == inner[at..at + 3][0] && y == inner[at..at + 3][1] && z == inner[at..at + 3][2];
  }

  lemma ListItem(lines: seq<string>, p: Piece, k: nat)
    requires p.from < |lines| && MadeOf(lines, p) && p.block.Listing? && p.from + k < p.next
    requires p.block.run == BulletRun || p.block.run == NumberRun
    ensures p.next <= |lines| && |p.block.items| == p.next - p.from
    ensures ItemShows(p.block.run, lines[p.from + k], Line(TextOf(p.block.items[k])))
  {
    hide GoesOn, BulletLine, NumberLine;
    assert ItemShows(p.block.run, lines[p.from + k], p.block.items[p.from + k - p.from]);
    assert p.block.items[k] == Line(TextOf(p.block.items[k]));
  }

  lemma ListTokens(b: Block, tag: string)
    requires b.Listing? && ((b.run == BulletRun && tag == "ul") || (b.run == NumberRun && tag == "ol"))
    ensures Tokens(b) == [Open(tag, "")] + ItemTokens(b.items) + [Close(tag)]
  {
    hide ItemTokens;
  }

  /** A fenced block shows its source lines as they are, under the escaped language of its fence. */
  lemma CodeShown(lines: seq<string>, i: nat)
    requires i < |lines| && Turn(lines, i).block.Code?
    ensures var p := Turn(lines, i); var lang := p.block.lang;
      && i + 1 <= p.next - 1 <= |lines| && (exists tail :: FenceLine(lines[i], lang, tail))
      && Tokens(p.block)
         == [Open("div", " class=\"docs-code\"" + if lang == "" then "" else " data-lang=\"" + EscapeHtml(lang) + "\""),
             Open("pre", " class=\"docs-pre\""),
             Open("code", if lang == "" then "" else " class=\"lang-" + EscapeHtml(lang) + "\""),
             Escaped(Join(lines[i + 1..p.next - 1], "\n")), Close("code"), Close("pre"), Close("div")]
  {
    hide *;
    var p := Turn(lines, i);
    BlocksAreTheirLines(lines, i);
    PieceFrom(lines, i);
    CodeParts(lines, p);
    PlainTexts(CodeBody, lines, i + 1, p.next - 1, p.block.body);
    CodeTokens(p.block);
  }

  lemma CodeParts(lines: seq<string>, p: Piece)
    requires p.from < |lines| && p.block.Code? && MadeOf(lines, p)
    ensures exists tail :: FenceLine(lines[p.from], p.block.lang, tail)
    ensures RunShows(CodeBody, lines, p.from + 1, p.next - 1, p.block.body)
  {
    hide FenceLine, RunShows;
  }

  lemma CodeTokens(b: Block)
    requires b.Code?
    ensures Tokens(b)
      == [Open("div", " class=\"docs-code\""
                      + if b.lang == "" then "" else " data-lang=\"" + EscapeHtml(b.lang) + "\""),
          Open("pre", " class=\"docs-pre\""),
          Open("code", if b.lang == "" then "" else " class=\"lang-" + EscapeHtml(b.lang) + "\""),
          Escaped(Join(Texts(b.body), "\n")), Close("code"), Close("pre"), Close("div")]
  {
    hide EscapeHtml, Join, Texts;
  }

  // ----- Tables

  /** The class of a column, from its delimiter cell. */
  ghost predicate ColumnClass(cell: string, attrs: string) {
    exists left, dashes, right ::
      && DashCell(cell, left, dashes, right)
      && attrs == if left && right then " class=\"is-center\"" else if right then " class=\"is-right\"" else ""
  }

  /** The tokens of the `k`-th cell of a row; a cell beyond the delimiter row has no class. */
  lemma {:induction false} CellTokensAt(tag: string, cells: seq<string>, aligns: seq<Align>, n: nat, k: nat)
    requires n <= k < |cells|
    ensures |CellTokens(tag, cells, aligns, n)| == 3 * (|cells| - n)
    ensures CellTokens(tag, cells, aligns, n)[3 * (k - n)..3 * (k - n) + 3]
      == [Open(tag, AlignAttr(aligns, k)), Inline(cells[k]), Close(tag)]
    decreases k - n
  {
    CellTokensLength(tag, cells, aligns, n);
    CellTokensLength(tag, cells, aligns, n + 1);
    var head := [Open(tag, AlignAttr(aligns, n)), Inline(cells[n]), Close(tag)];
    var rest := CellTokens(tag, cells, aligns, n + 1);
    assert CellTokens(tag, cells, aligns, n) == head + rest;
    hide AlignAttr;
    if k == n {
      assert (head + rest)[..3] == head;
    } else {
      CellTokensAt(tag, cells, aligns, n + 1, k);
      assert (head + rest)[3 * (k - n)..3 * (k - n) + 3] == rest[3 * (k - n - 1)..3 * (k - n - 1) + 3];
    }
  }

  lemma {:induction false} CellTokensLength(tag: string, cells: seq<string>, aligns: seq<Align>, n: nat)
    requires n <= |cells|
    ensures |CellTokens(tag, cells, aligns, n)| == 3 * (|cells| - n)
    decreases |cells| - n
  {
    if n == |cells| {
    } else {
      CellTokensLength(tag, cells, aligns, n + 1);
    }
  }

  lemma ClassOfColumn(cells: seq<string>, aligns: seq<Align>, k: nat)
    requires Aligned(cells, aligns)
    ensures k < |cells| ==> ColumnClass(cells[k], AlignAttr(aligns, k))
    ensures k >= |cells| ==> AlignAttr(aligns, k) == ""
  {
    if k < |cells| {
      assert AlignedBy(cells[k], aligns[k]);
      var left, dashes, right :| DashCell(cells[k], left, dashes, right)
        && aligns[k] == if left && right then Centre else if right then Right else Unset;
      assert AlignAttr(aligns, k)
        == if left && right then " class=\"is-center\"" else if right then " class=\"is-right\"" else "";
      hide DashCell;
    }
  }

  /** The rows of a table, one after another. */
  lemma RowTokensOf(first: Item, rest: seq<Item>, aligns: seq<Align>)
    requires first.Cells?
    ensures RowTokens([first] + rest, aligns)
      == [Open("tr", "")] + CellTokens("td", first.cells, aligns, 0) + [Close("tr")] + RowTokens(rest, aligns)
  {
    assert ([first] + rest)[1..] == rest;
    hide CellTokens;
  }

  /** The `k`-th row of a table, wherever it is in the page. */
  ghost predicate RowShownIn(tokens: seq<Token>, cells: seq<string>, aligns: seq<Align>) {
    exists before, after ::
      tokens == before + ([Open("tr", "")] + CellTokens("td", cells, aligns, 0) + [Close("tr")]) + after
  }

  lemma {:induction false} EveryRowShown(rows: seq<Item>, aligns: seq<Align>, k: nat)
    requires k < |rows| && forall j :: 0 <= j < |rows| ==> rows[j].Cells?
    ensures RowShownIn(RowTokens(rows, aligns), rows[k].cells, aligns)
  {
    hide *;
    assert rows == [rows[0]] + rows[1..];
    RowTokensOf(rows[0], rows[1..], aligns);
    if k == 0 {
      FirstRowIn(RowTokens(rows, aligns), rows[0].cells, RowTokens(rows[1..], aligns), aligns);
    } else {
      EveryRowShown(rows[1..], aligns, k - 1);
      LaterRowIn([Open("tr", "")] + CellTokens("td", rows[0].cells, aligns, 0) + [Close("tr")],
                 RowTokens(rows[1..], aligns), rows[k].cells, aligns);
    }
  }

  lemma FirstRowIn(tokens: seq<Token>, cells: seq<string>, rest: seq<Token>, aligns: seq<Align>)
    requires tokens == [Open("tr", "")] + CellTokens("td", cells, aligns, 0) + [Close("tr")] + rest
    ensures RowShownIn(tokens, cells, aligns)
  {
    hide CellTokens;
    assert tokens == [] + ([Open("tr", "")] + CellTokens("td", cells, aligns, 0) + [Close("tr")]) + rest;
  }

  lemma LaterRowIn(row: seq<Token>, rest: seq<Token>, cells: seq<string>, aligns: seq<Align>)
    requires RowShownIn(rest, cells, aligns)
    ensures RowShownIn(row + rest, cells, aligns)
  {
    hide CellTokens;
    var own := [Open("tr", "")] + CellTokens("td", cells, aligns, 0) + [Close("tr")];
    var before, after :| rest == before + own + after;
    assert row + rest == (row + before) + own + after;
  }

  /** A table shows the cells of its header row and of every line of its body, with the classes of its delimiter row. */
  lemma TableShown(lines: seq<string>, i: nat)
    requires i < |lines| && Turn(lines, i).block.Table?
    ensures var p := Turn(lines, i); var b := p.block;
      && i + 1 < |lines| && IsRow(lines[i], b.head)
      && (exists cells :: IsDelimiterRow(lines[i + 1], cells) && Aligned(cells, b.aligns))
      && |b.rows| == p.next - i - 2
      && (forall k :: 0 <= k < |b.rows| ==>
            && b.rows[k].Cells? && i + 2 + k < |lines| && IsRow(lines[i + 2 + k], b.rows[k].cells)
            && RowShownIn(RowTokens(b.rows, b.aligns), b.rows[k].cells, b.aligns))
      && Tokens(b)
         == [Open("div", " class=\"docs-table-wrap\""), Open("table", " class=\"docs-table\""), Open("thead", ""),
             Open("tr", "")] + CellTokens("th", b.head, b.aligns, 0)
            + [Close("tr"), Close("thead"), Open("tbody", "")] + RowTokens(b.rows, b.aligns)
            + [Close("tbody"), Close("table"), Close("div")]
  {
    hide *;
    var p := Turn(lines, i);
    BlocksAreTheirLines(lines, i);
    PieceFrom(lines, i);
    TableParts(lines, i);
    TableBodyRows(lines, p);
    TableTokens(p.block);
    forall k | 0 <= k < |p.block.rows|
      ensures RowShownIn(RowTokens(p.block.rows, p.block.aligns), p.block.rows[k].cells, p.block.aligns)
    {
      EveryRowShown(p.block.rows, p.block.aligns, k);
    }
  }

  lemma TableBodyRows(lines: seq<string>, p: Piece)
    requires p.from < |lines| && p.block.Table? && MadeOf(lines, p)
    ensures p.from + 1 < |lines| && IsRow(lines[p.from], p.block.head)
    ensures exists cells :: IsDelimiterRow(lines[p.from + 1], cells) && Aligned(cells, p.block.aligns)
    ensures |p.block.rows| == p.next - p.from - 2 && p.next <= |lines|
    ensures forall k :: 0 <= k < |p.block.rows| ==>
      p.block.rows[k].Cells? && IsRow(lines[p.from + 2 + k], p.block.rows[k].cells)
  {
    hide GoesOn, IsRow, IsDelimiterRow, Aligned;
    var rows := p.block.rows;
    forall k | 0 <= k < |rows|
      ensures rows[k].Cells? && IsRow(lines[p.from + 2 + k], rows[k].cells)
    {
      assert ItemShows(TableBody, lines[p.from + 2 + k], rows[p.from + 2 + k - (p.from + 2)]);
    }
  }

  lemma TableTokens(b: Block)
    requires b.Table?
    ensures Tokens(b)
      == [Open("div", " class=\"docs-table-wrap\""), Open("table", " class=\"docs-table\""), Open("thead", ""),
          Open("tr", "")] + CellTokens("th", b.head, b.aligns, 0)
         + [Close("tr"), Close("thead"), Open("tbody", "")] + RowTokens(b.rows, b.aligns)
         + [Close("tbody"), Close("table"), Close("div")]
  {
    hide CellTokens, RowTokens;
  }

  // ----- Two small pages

  /** The page of a one-line document shows that line. */
  lemma HelloWorld()
    ensures var r := RenderFrom(["Hello world"], 0);
      r.stuckAt.None? && PageTokens(r.pieces) == [Open("p", ""), Inline("Hello world"), Close("p")]
  {
    var lines := ["Hello world"];
    PlainLine(lines[0]);
    hide *;
    OneParagraph(lines);
  }

  lemma PlainLine(line: string)
    requires line == "Hello world"
    ensures !Ticks(line) && !HeadingShape(line) && !IsRule(line) && !QuoteStart(line) && !Bullet(line)
    ensures !Numbered(line) && !Blank(line)
  {
    assert line[0] == 'H' && !IsSpace('H');
    assert Count(line, '#') == 0 && Count(line, '-') == 0 && DigitCount(line) == 0;
  }

  lemma OneParagraph(lines: seq<string>)
    requires |lines| == 1
    requires var line := lines[0];
      && !Ticks(line) && !HeadingShape(line) && !IsRule(line) && !QuoteStart(line) && !Bullet(line)
      && !Numbered(line) && !Blank(line)
    ensures var r := RenderFrom(lines, 0);
      r.stuckAt.None? && PageTokens(r.pieces) == [Open("p", ""), Inline(lines[0]), Close("p")]
  {
    hide Ticks, HeadingShape, IsRule, QuoteStart, Bullet, Numbered, Blank, TableDelimiter, HasPipe, Trim;
    var p := Turn(lines, 0);
    assert KindAt(lines, 0) == RunOf(ParagraphRun);
    assert RunEnd(ParagraphRun, lines, 1) == 1 && p.next == 1;
    assert Items(ParagraphRun, lines, 0, 1) == [Line(lines[0])];
    assert Texts([Line(lines[0])]) == [lines[0]];
    assert RenderFrom(lines, 1).pieces == [];
  }
}
