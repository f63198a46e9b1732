/** The HTML that renderMarkdown pushes, as a stream of tags and text: its tags nest, and escaped code comes back. */
module MarkdownHtml {
  import opened Prelude
  import opened Text
  import opened Markdown
  import opened MarkdownRender

  // ----- escapeHtml

  function EscapeChar(c: char): string {
    match c
    case '&' => "&amp;"
    case '<' => "&lt;"
    case '>' => "&gt;"
    case '"' => "&quot;"
    case '\'' => "&#39;"
    case _ => [c]
  }

  function EscapeHtml(s: string): string {
    if s == "" then "" else EscapeChar(s[0]) + EscapeHtml(s[1..])
  }

  /** How a browser reads the five entities back; anything else stands for itself. */
  function Unescape(s: string): string {
    if s == "" then ""
    else if "&amp;" <= s then "&" + Unescape(s[5..])
    else if "&lt;" <= s then "<" + Unescape(s[4..])
    else if "&gt;" <= s then ">" + Unescape(s[4..])
    else if "&quot;" <= s then "\"" + Unescape(s[6..])
    else if "&#39;" <= s then "'" + Unescape(s[5..])
    else [s[0]] + Unescape(s[1..])
  }

  /** The five entities differ in their second or third character. */
  lemma UnescapeEntity(c: char, rest: string)
    requires c == '&' || c == '<' || c == '>'
    ensures Unescape(EscapeChar(c) + rest) == [c] + Unescape(rest)
  {
    var s := EscapeChar(c) + rest;
    assert s[|EscapeChar(c)|..] == rest && s[1] == EscapeChar(c)[1];
    if c != '&' {
      assert !("&amp;" <= s) && s[..4] == EscapeChar(c);
    }
  }

  lemma UnescapeQuote(c: char, rest: string)
    requires c == '"' || c == '\''
    ensures Unescape(EscapeChar(c) + rest) == [c] + Unescape(rest)
  {
    var s := EscapeChar(c) + rest;
    assert s[|EscapeChar(c)|..] == rest && s[1] == EscapeChar(c)[1];
    assert s[1] != 'a' && s[1] != 'l' && s[1] != 'g';
  }

  lemma UnescapePlain(c: char, rest: string)
    requires c != '&'
    ensures Unescape([c] + rest) == [c] + Unescape(rest)
  {
    var s := [c] + rest;
    assert s[1..] == rest && s[0] != '&';
  }

  lemma UnescapeOne(c: char, rest: string)
    ensures Unescape(EscapeChar(c) + rest) == [c] + Unescape(rest)
  {
    hide Unescape;
    if c == '&' || c == '<' || c == '>' {
      UnescapeEntity(c, rest);
    } else if c == '"' || c == '\'' {
      UnescapeQuote(c, rest);
    } else {
      UnescapePlain(c, rest);
    }
  }

  lemma EscapedChar(c: char)
    ensures forall x :: x in EscapeChar(c) ==> x !in "<>'" && x as int != 34
  {}

  /** Escaping loses nothing, and leaves no character that could open or close a tag or an attribute value: no angle
      bracket, no apostrophe and no double quote (34). */
  lemma {:induction false} EscapeInverts(s: string)
    ensures Unescape(EscapeHtml(s)) == s
    ensures forall x :: x in EscapeHtml(s) ==> x !in "<>'" && x as int != 34
  {
    if s == "" {
    } else {
      EscapeInverts(s[1..]);
      EscapedChar(s[0]);
      UnescapeOne(s[0], EscapeHtml(s[1..]));
      assert [s[0]] + s[1..] == s;
      hide Unescape, EscapeChar;
    }
  }

  // ----- Tokens

  /** Inline(s) stands for renderInline(s), Escaped(s) for escapeHtml(s). */
  datatype Token = Open(tag: string, attrs: string) | Close(tag: string) | Void(tag: string)
                 | Inline(text: string) | Escaped(text: string)

  function AlignAttr(aligns: seq<Align>, n: nat): string {
    if n >= |aligns| then "" else
      match aligns[n]
      case Unset => ""
      case Centre => " class=\"is-center\""
      case Right => " class=\"is-right\""
  }

  function CellTokens(tag: string, cells: seq<string>, aligns: seq<Align>, n: nat): seq<Token>
    decreases |cells| - n
  {
    if n >= |cells| then [] else
      [Open(tag, AlignAttr(aligns, n)), Inline(cells[n]), Close(tag)] + CellTokens(tag, cells, aligns, n + 1)
  }

  function RowTokens(rows: seq<Item>, aligns: seq<Align>): seq<Token> {
    if rows == [] then [] else
      [Open("tr", "")] + CellTokens("td", CellsOf(rows[0]), aligns, 0) + [Close("tr")] + RowTokens(rows[1..], aligns)
  }

  function CellsOf(item: Item): seq<string> {
    match item
    case Cells(cells) => cells
    case Line(text) => [text]
  }

  function TextOf(item: Item): string {
    match item
    case Cells(_) => ""
    case Line(text) => text
  }

  function Texts(items: seq<Item>): (texts: seq<string>)
    ensures |texts| == |items|
    ensures forall i :: 0 <= i < |items| ==> texts[i] == TextOf(items[i])
  {
    seq(|items|, i requires 0 <= i < |items| => TextOf(items[i]))
  }

  function ItemTokens(items: seq<Item>): seq<Token> {
    if items == [] then [] else [Open("li", ""), Inline(TextOf(items[0])), Close("li")] + ItemTokens(items[1..])
  }

  function HeadingTag(level: nat): string {
    if level == 1 then "h1" else if level == 2 then "h2" else if level == 3 then "h3" else "h4"
  }

  /** What one turn pushes onto the output; the heading's id is slugify of its text, left out of the attributes. */
  function Tokens(b: Block): seq<Token> {
    match b
    case Code(lang, body) =>
      [Open("div", " class=\"docs-code\"" + if lang == "" then "" else " data-lang=\"" + EscapeHtml(lang) + "\""),
       Open("pre", " class=\"docs-pre\""),
       Open("code", if lang == "" then "" else " class=\"lang-" + EscapeHtml(lang) + "\""),
       Escaped(Join(Texts(body), "\n")), Close("code"), Close("pre"), Close("div")]
    case Title(level, text) => [Open(HeadingTag(level), ""), Inline(text), Close(HeadingTag(level))]
    case Table(head, aligns, rows) =>
      [Open("div", " class=\"docs-table-wrap\""), Open("table", " class=\"docs-table\""), Open("thead", ""),
       Open("tr", "")]
      + CellTokens("th", head, aligns, 0) + [Close("tr"), Close("thead"), Open("tbody", "")]
      + RowTokens(rows, aligns) + [Close("tbody"), Close("table"), Close("div")]
    case Rule => [Void("hr")]
    case Listing(BulletRun, items) => [Open("ul", "")] + ItemTokens(items) + [Close("ul")]
    case Listing(NumberRun, items) => [Open("ol", "")] + ItemTokens(items) + [Close("ol")]
    case Listing(QuoteRun, items) =>
      [Open("blockquote", ""), Inline(Join(Texts(items), " ")), Close("blockquote")]
    case Listing(_, items) => [Open("p", ""), Inline(Join(Texts(items), " ")), Close("p")]
    case Gap => []
  }

  function PageTokens(pieces: seq<Piece>): seq<Token> {
    if pieces == [] then [] else Tokens(pieces[0].block) + PageTokens(pieces[1..])
  }

  /** A tag stack read left to right: None when a closing tag does not match. */
  function Nest(tokens: seq<Token>, open: seq<string>): Option<seq<string>> {
    if tokens == [] then Some(open) else
      match tokens[0]
      case Open(tag, _) => Nest(tokens[1..], [tag] + open)
      case Close(tag) => if open == [] || open[0] != tag then None else Nest(tokens[1..], open[1..])
      case _ => Nest(tokens[1..], open)
  }

  ghost predicate Balanced(tokens: seq<Token>) {
    forall open :: Nest(tokens, open) == Some(open)
  }

  lemma {:induction false} NestConcat(a: seq<Token>, b: seq<Token>, open: seq<string>)
    ensures Nest(a + b, open)
         == match Nest(a, open) case None => None case Some(left) => Nest(b, left)
  {
    if a == [] {
      assert a + b == b;
    } else {
      assert (a + b)[1..] == a[1..] + b;
      match a[0]
      case Open(tag, _) => NestConcat(a[1..], b, [tag] + open);
      case Close(tag) => if open != [] && open[0] == tag { NestConcat(a[1..], b, open[1..]); }
      case _ => NestConcat(a[1..], b, open);
    }
  }

  lemma BalancedConcat(a: seq<Token>, b: seq<Token>)
    requires Balanced(a) && Balanced(b)
    ensures Balanced(a + b)
  {
    forall open { NestConcat(a, b, open); }
  }

  /** Wrapping balanced content in a tag. */
  lemma BalancedWrap(tag: string, attrs: string, a: seq<Token>)
    requires Balanced(a)
    ensures Balanced([Open(tag, attrs)] + a + [Close(tag)])
  {
    forall open
      ensures Nest([Open(tag, attrs)] + a + [Close(tag)], open) == Some(open)
    {
      var all := [Open(tag, attrs)] + a + [Close(tag)];
      assert all[1..] == a + [Close(tag)];
      NestConcat(a, [Close(tag)], [tag] + open);
      assert ([tag] + open)[1..] == open && [Close(tag)][1..] == [];
    }
  }

  lemma BalancedLeaf(t: Token)
    requires !t.Open? && !t.Close?
    ensures Balanced([t])
  {
    assert [t][1..] == [];
  }

  lemma Leaf(tag: string, attrs: string, t: Token)
    requires !t.Open? && !t.Close?
    ensures Balanced([Open(tag, attrs), t, Close(tag)])
  {
    BalancedLeaf(t);
    BalancedWrap(tag, attrs, [t]);
    assert [Open(tag, attrs)] + [t] + [Close(tag)] == [Open(tag, attrs), t, Close(tag)];
  }

  lemma {:induction false} CellsBalanced(tag: string, cells: seq<string>, aligns: seq<Align>, n: nat)
    ensures Balanced(CellTokens(tag, cells, aligns, n))
    decreases |cells| - n
  {
    if n < |cells| {
      Leaf(tag, AlignAttr(aligns, n), Inline(cells[n]));
      CellsBalanced(tag, cells, aligns, n + 1);
      BalancedConcat([Open(tag, AlignAttr(aligns, n)), Inline(cells[n]), Close(tag)],
                     CellTokens(tag, cells, aligns, n + 1));
    }
  }

  lemma {:induction false} RowsBalanced(rows: seq<Item>, aligns: seq<Align>)
    ensures Balanced(RowTokens(rows, aligns))
  {
    if rows == [] {
    } else {
      CellsBalanced("td", CellsOf(rows[0]), aligns, 0);
      BalancedWrap("tr", "", CellTokens("td", CellsOf(rows[0]), aligns, 0));
      RowsBalanced(rows[1..], aligns);
      BalancedConcat([Open("tr", "")] + CellTokens("td", CellsOf(rows[0]), aligns, 0) + [Close("tr")],
                     RowTokens(rows[1..], aligns));
    }
  }

  lemma {:induction false} ItemsBalanced(items: seq<Item>)
    ensures Balanced(ItemTokens(items))
  {
    if items == [] {
    } else {
      Leaf("li", "", Inline(TextOf(items[0])));
      ItemsBalanced(items[1..]);
      BalancedConcat([Open("li", ""), Inline(TextOf(items[0])), Close("li")], ItemTokens(items[1..]));
    }
  }

  lemma BlockBalanced(b: Block)
    ensures Balanced(Tokens(b))
  {
    hide Balanced, CellTokens, RowTokens, ItemTokens, Texts;
    match b
    case Code(lang, body) =>
      var tokens := Tokens(b);
      Leaf("code", tokens[2].attrs, tokens[3]);
      assert tokens[2..5] == [Open("code", tokens[2].attrs), tokens[3], Close("code")];
      BalancedWrap("pre", tokens[1].attrs, tokens[2..5]);
      BalancedWrap("div", tokens[0].attrs, [tokens[1]] + tokens[2..5] + [Close("pre")]);
      assert tokens == [tokens[0]] + ([tokens[1]] + tokens[2..5] + [Close("pre")]) + [Close("div")];
    case Title(level, text) => Leaf(HeadingTag(level), "", Inline(text));
    case Table(head, aligns, rows) => TableBalanced(head, aligns, rows);
    case Rule => BalancedLeaf(Void("hr"));
    case Listing(BulletRun, items) =>
      ItemsBalanced(items);
      BalancedWrap("ul", "", ItemTokens(items));
    case Listing(NumberRun, items) =>
      ItemsBalanced(items);
      BalancedWrap("ol", "", ItemTokens(items));
    case Listing(QuoteRun, items) => Leaf("blockquote", "", Inline(Join(Texts(items), " ")));
    case Listing(_, items) => Leaf("p", "", Inline(Join(Texts(items), " ")));
    case Gap => NothingBalanced();
  }

  lemma NothingBalanced()
    ensures Balanced([])
  {}

  function Element(tag: string, attrs: string, inner: seq<Token>): seq<Token> {
    [Open(tag, attrs)] + inner + [Close(tag)]
  }

  function TableElement(th: seq<Token>, tb: seq<Token>): seq<Token> {
    Element("div", " class=\"docs-table-wrap\"",
            Element("table", " class=\"docs-table\"",
                    Element("thead", "", Element("tr", "", th)) + Element("tbody", "", tb)))
  }

  lemma TableTokens(head: seq<string>, aligns: seq<Align>, rows: seq<Item>)
    ensures Tokens(Table(head, aligns, rows))
         == TableElement(CellTokens("th", head, aligns, 0), RowTokens(rows, aligns))
  {
    hide CellTokens, RowTokens, AlignAttr, EscapeHtml, Texts, ItemTokens, HeadingTag, Join;
  }

  lemma ElementBalanced(tag: string, attrs: string, inner: seq<Token>)
    requires Balanced(inner)
    ensures Balanced(Element(tag, attrs, inner))
  {
    BalancedWrap(tag, attrs, inner);
    hide Balanced;
  }

  lemma TableBalanced(head: seq<string>, aligns: seq<Align>, rows: seq<Item>)
    ensures Balanced(Tokens(Table(head, aligns, rows)))
  {
    TableTokens(head, aligns, rows);
    var th, tb := CellTokens("th", head, aligns, 0), RowTokens(rows, aligns);
    hide Tokens, Balanced, Element, CellTokens, RowTokens;
    CellsBalanced("th", head, aligns, 0);
    RowsBalanced(rows, aligns);
    ElementBalanced("tr", "", th);
    ElementBalanced("thead", "", Element("tr", "", th));
    ElementBalanced("tbody", "", tb);
    var sections := Element("thead", "", Element("tr", "", th)) + Element("tbody", "", tb);
    BalancedConcat(Element("thead", "", Element("tr", "", th)), Element("tbody", "", tb));
    ElementBalanced("table", " class=\"docs-table\"", sections);
    ElementBalanced("div", " class=\"docs-table-wrap\"", Element("table", " class=\"docs-table\"", sections));
  }

  /** Every page's block-level tags are properly nested and all closed, whatever the document. */
  lemma {:induction false} PageBalanced(pieces: seq<Piece>)
    ensures Balanced(PageTokens(pieces))
  {
    if pieces == [] {
    } else {
      BlockBalanced(pieces[0].block);
      PageBalanced(pieces[1..]);
      BalancedConcat(Tokens(pieces[0].block), PageTokens(pieces[1..]));
    }
  }

  function Opened(tokens: seq<Token>, tag: string): nat {
    if tokens == [] then 0 else
      (if tokens[0].Open? && tokens[0].tag == tag then 1 else 0) + Opened(tokens[1..], tag)
  }

  function Closed(tokens: seq<Token>, tag: string): nat {
    if tokens == [] then 0 else (if tokens[0] == Close(tag) then 1 else 0) + Closed(tokens[1..], tag)
  }

  /** The stack holds the tags that are still open. */
  lemma {:induction false} StackCounts(tokens: seq<Token>, open: seq<string>, tag: string)
    requires Nest(tokens, open).Some?
    ensures multiset(Nest(tokens, open).value)[tag] + Closed(tokens, tag) == multiset(open)[tag] + Opened(tokens, tag)
  {
    if tokens == [] {
    } else {
      match tokens[0]
      case Open(t, _) => StackCounts(tokens[1..], [t] + open, tag);
      case Close(t) =>
        assert open == [t] + open[1..];
        StackCounts(tokens[1..], open[1..], tag);
      case _ => StackCounts(tokens[1..], open, tag);
    }
  }

  /** Read from the start, a page has never closed a tag more often than it opened it, and at the end exactly as
      often. */
  lemma PageTagsPair(pieces: seq<Piece>, tag: string, k: nat)
    requires k <= |PageTokens(pieces)|
    ensures var page := PageTokens(pieces);
      && Closed(page[..k], tag) <= Opened(page[..k], tag)
      && Closed(page, tag) == Opened(page, tag)
  {
    var page := PageTokens(pieces);
    PageBalanced(pieces);
    assert Nest(page, []) == Some([]);
    assert page[..k] + page[k..] == page;
    hide PageTokens, Nest, Opened, Closed;
    NestConcat(page[..k], page[k..], []);
    StackCounts(page, [], tag);
    StackCounts(page[..k], [], tag);
  }

  /** A page is what its blocks push, in order: cut anywhere, the page of the whole is those of the parts. */
  lemma {:induction false} PageInParts(first: seq<Piece>, p: Piece, rest: seq<Piece>)
    ensures PageTokens(first + [p] + rest) == PageTokens(first) + Tokens(p.block) + PageTokens(rest)
    ensures PageTokens([]) == []
  {
    var all := first + [p] + rest;
    if first == [] {
      assert all[0] == p && all[1..] == rest;
      assert PageTokens(first) + Tokens(p.block) == Tokens(p.block);
      hide Tokens;
    } else {
      assert all[0] == first[0] && all[1..] == first[1..] + [p] + rest;
      PageInParts(first[1..], p, rest);
      hide Tokens;
      FourInARow(Tokens(first[0].block), PageTokens(first[1..]), Tokens(p.block), PageTokens(rest));
    }
  }

  lemma FourInARow(a: seq<Token>, b: seq<Token>, c: seq<Token>, d: seq<Token>)
    ensures a + (b + c + d) == a + b + c + d
  {}

  // ----- Code comes back

  /** What a reader of the page gets from a fenced block: its body unescaped and cut at line feeds. */
  function ReadBack(b: Block): seq<string>
    requires b.Code?
  {
    Split(Unescape(EscapeHtml(Join(Texts(b.body), "\n"))), '\n')
  }

  /** A fenced block shows its source lines exactly; an empty one shows one empty line. */
  lemma CodeComesBack(lines: seq<string>, i: nat)
    requires i < |lines| && Turn(lines, i).block.Code?
    requires forall k :: 0 <= k < |lines| ==> Without(lines[k], '\n')
    ensures var p := Turn(lines, i);
      var end := EndLine(p);
      && i + 1 <= end <= |lines|
      && ReadBack(p.block) == (if end == i + 1 then [""] else lines[i + 1..end])
      && Tokens(p.block)[3] == Escaped(Join(Texts(p.block.body), "\n"))
  {
    var p := Turn(lines, i);
    OneItemPerLine(lines, i);
    EscapeInverts(Join(Texts(p.block.body), "\n"));
    hide Turn, Unescape, EscapeHtml;
    BodyLines(lines, p);
    if p.block.body == [] {
      assert Texts(p.block.body) == [];
    } else {
      SplitJoin(Texts(p.block.body), '\n');
    }
  }

  lemma BodyLines(lines: seq<string>, p: Piece)
    requires p.block.Code? && Holds(CodeBody, lines, p.block.body, p.from + 1, EndLine(p))
    ensures Texts(p.block.body) == lines[p.from + 1..EndLine(p)]
  {
    var body, first := p.block.body, p.from + 1;
    forall k | 0 <= k < |body|
      ensures TextOf(body[k]) == lines[first + k]
    {
      assert body[first + k - first] == ItemOf(CodeBody, lines, first + k);
    }
  }

  /** `md.replace(/\r\n/g, '\n')`. */
  function NormalizeNewlines(md: string): string {
    if |md| < 2 then md
    else if md[0] == '\r' && md[1] == '\n' then "\n" + NormalizeNewlines(md[2..])
    else [md[0]] + NormalizeNewlines(md[1..])
  }

  predicate NoCrLf(s: string) {
    forall i :: 0 < i < |s| ==> s[i] != '\n' || s[i - 1] != '\r'
  }

  lemma {:induction false} NewlineAfter(head: string, rest: string)
    requires NoCrLf(head)
    ensures NormalizeNewlines(head) == head
    ensures NormalizeNewlines(head + "\r\n" + rest) == head + "\n" + NormalizeNewlines(rest)
  {
    if head == "" {
      assert head + "\r\n" + rest == "\r\n" + rest;
      CrLfFirst(rest);
    } else {
      var s := head + "\r\n" + rest;
      PlainFirst(head);
      PlainFirst(s);
      assert s[1] == if |head| > 1 then head[1] else '\r';
      assert s[1..] == head[1..] + "\r\n" + rest && [head[0]] + head[1..] == head;
      NewlineAfter(head[1..], rest);
      hide NormalizeNewlines, NoCrLf;
      assert [head[0]] + (head[1..] + "\n" + NormalizeNewlines(rest)) == head + "\n" + NormalizeNewlines(rest);
    }
  }

  lemma CrLfFirst(rest: string)
    ensures NormalizeNewlines("") == "" && NormalizeNewlines("\r\n" + rest) == "\n" + NormalizeNewlines(rest)
  {
    assert ("\r\n" + rest)[2..] == rest;
  }

  lemma PlainFirst(s: string)
    requires s != "" && (|s| == 1 || s[0] != '\r' || s[1] != '\n')
    ensures NormalizeNewlines(s) == [s[0]] + NormalizeNewlines(s[1..])
  {
    assert |s| == 1 ==> s[1..] == "" && [s[0]] == s;
  }

  /** Parts that hold no CR LF, joined by CR LF, come out joined by LF. */
  lemma {:induction false} NewlinesNormalized(parts: seq<string>)
    requires parts != [] && forall i :: 0 <= i < |parts| ==> NoCrLf(parts[i])
    ensures NormalizeNewlines(Join(parts, "\r\n")) == Join(parts, "\n")
  {
    hide NormalizeNewlines, NoCrLf;
    if |parts| == 1 {
      NewlineAfter(parts[0], "");
    } else {
      NewlineAfter(parts[0], Join(parts[1..], "\r\n"));
      NewlinesNormalized(parts[1..]);
    }
  }

  /** The lines of a document never contain a line feed, so every fenced block of every document shows its lines. */
  lemma DocumentLines(md: string)
    ensures var lines := Split(NormalizeNewlines(md), '\n');
      && |lines| >= 1 && (forall k :: 0 <= k < |lines| ==> Without(lines[k], '\n'))
      && Join(lines, "\n") == NormalizeNewlines(md)
  {
    SplitWithout(NormalizeNewlines(md), '\n');
    JoinSplit(NormalizeNewlines(md), '\n');
    assert ['\n'] == "\n";
  }
}
