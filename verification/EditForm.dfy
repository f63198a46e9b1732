/** The edit mode of publish-custom.js: a manifest is shown in form controls and rebuilt from them on save.  What each
    kind of control does to a value, and exactly which values come back. */
module EditForm {
  import opened Prelude
  import opened Text
  import opened Numerals

  /** A manifest value, as the schema types it. */
  datatype Value = Text(text: string) | Items(items: seq<string>) | Codes(codes: seq<int>) | Data(elements: seq<string>)

  /** Line is `<input>`, Area `<textarea>`, Choice `<select>`; Mandatory is a line that is saved even when empty. A
      list is joined by a comma and `gap`; Json is a text area that holds an array. */
  datatype Kind = Line | Area | Choice(options: set<string>) | Mandatory | Commas(gap: string) | Numbers | Json

  /** `initial` is the value in the page; `populated` says that edit mode fills the control from the manifest. */
  datatype Control = Control(kind: Kind, initial: string, populated: bool)

  /** JSON.stringify(x, null, 2) and JSON.parse, on arrays; elements travel as their own text. */
  datatype Codec = Codec(stringify: seq<string> -> string, parse: string -> Option<seq<string>>)

  ghost predicate Faithful(codec: Codec) {
    forall es :: es != [] ==>
      && codec.parse(codec.stringify(es)) == Some(es)
      && codec.stringify(es) != "" && Trimmed(codec.stringify(es)) && Without(codec.stringify(es), '\r')
  }

  predicate Typed(k: Kind, v: Value) {
    match k
    case Commas(_) => v.Items?
    case Numbers => v.Codes?
    case Json => v.Data?
    case _ => v.Text?
  }

  // ----- Numbers as text

  /** String(n). */
  function Decimal(n: int): string {
    if n < 0 then "-" + Digits(Ten, -n) else Digits(Ten, n)
  }

  function Negated(n: int): Option<int> {
    Some(-n)
  }

  /** Number(s) on integers: the empty string counts as 0. */
  function ReadNumber(s: string): Option<int> {
    if s != "" && s[0] == '-' then
      if s[1..] == "" || ReadDigits(Ten, s[1..]).None? then None else Negated(ReadDigits(Ten, s[1..]).value)
    else if ReadDigits(Ten, s).None? then None else Some(ReadDigits(Ten, s).value)
  }

  /** Nothing in a number is trimmed or split. */
  predicate Plain(c: char) {
    '0' <= c <= '9' || c == '-'
  }

  lemma DigitsArePlain(s: string)
    requires AllDigits(Ten, s) && s != ""
    ensures s[0] != '-' && forall i :: 0 <= i < |s| ==> Plain(s[i])
  {}

  lemma DecimalReadsBack(n: int)
    ensures ReadNumber(Decimal(n)) == Some(n)
    ensures Decimal(n) != "" && (Decimal(n)[0] == '-' <==> n < 0)
    ensures Decimal(n) != "" && forall i :: 0 <= i < |Decimal(n)| ==> Plain(Decimal(n)[i])
  {
    var s := Digits(Ten, if n < 0 then -n else n);
    DigitsReadBack(Ten, if n < 0 then -n else n);
    ReadsIffDigits(Ten, s);
    DigitsArePlain(s);
    if n < 0 {
      assert Decimal(n)[1..] == s;
    }
    hide Digits, ReadDigits, AllDigits;
  }

  function Decimals(ns: seq<int>): (ss: seq<string>)
    ensures |ss| == |ns|
  {
    if ns == [] then [] else [Decimal(ns[0])] + Decimals(ns[1..])
  }

  function ReadNumbers(parts: seq<string>): seq<int> {
    if parts == [] then [] else
      var n := ReadNumber(Trim(parts[0]));
      (if n.Some? then [n.value] else []) + ReadNumbers(parts[1..])
  }

  // ----- Showing

  /** A control holds no line breaks, or normalises them, or only knows its options. */
  function Held(k: Kind, s: string): string {
    match k
    case Choice(options) => if s in options then s else ""
    case Area => UnixLines(s)
    case Json => UnixLines(s)
    case _ => OneLine(s)
  }

  function OneLine(s: string): string {
    if s == "" then "" else (if s[0] == '\n' || s[0] == '\r' then "" else [s[0]]) + OneLine(s[1..])
  }

  function UnixLines(s: string): string {
    if s == "" then ""
    else if s[0] != '\r' then [s[0]] + UnixLines(s[1..])
    else if |s| > 1 && s[1] == '\n' then UnixLines(s[1..])
    else ['\n'] + UnixLines(s[1..])
  }

  /** The text given to the control; None when populateFromManifest skips it. */
  function Written(codec: Codec, k: Kind, v: Value): Option<string> {
    match v
    case Text(s) => Some(s)
    case Items(xs) => Some(Join(xs, "," + if k.Commas? then k.gap else ""))
    case Codes(ns) => Some(Join(Decimals(ns), ","))
    case Data(es) => if es == [] then None else Some(codec.stringify(es))
  }

  /** What the control holds once the form is filled. */
  function Shown(codec: Codec, c: Control, v: Option<Value>): string {
    if !c.populated || v.None? || Written(codec, c.kind, v.value).None? then c.initial
    else Held(c.kind, Written(codec, c.kind, v.value).value)
  }

  // ----- Saving

  function NonBlank(parts: seq<string>): seq<string> {
    if parts == [] then [] else (if Trim(parts[0]) == "" then [] else [Trim(parts[0])]) + NonBlank(parts[1..])
  }

  /** What buildPayload makes of a control's content; None leaves the key out. */
  function Read(codec: Codec, k: Kind, s: string): Option<Value> {
    var v := Trim(s);
    if k.Mandatory? then Some(Text(v))
    else if v == "" then None
    else match k
      case Commas(_) => Some(Items(NonBlank(Split(v, ','))))
      case Numbers => Some(Codes(ReadNumbers(Split(v, ','))))
      case Json => (var es := codec.parse(v); if es.None? then None else Some(Data(es.value)))
      case _ => Some(Text(v))
  }

  /** An item that survives being joined and split. */
  predicate CleanItem(s: string) {
    s != "" && Trimmed(s) && Without(s, ',') && Without(s, '\n') && Without(s, '\r')
  }

  predicate CleanItems(xs: seq<string>) {
    xs != [] && forall i :: 0 <= i < |xs| ==> CleanItem(xs[i])
  }

  predicate CleanText(k: Kind, s: string) {
    match k
    case Choice(options) => s in options && s != "" && Trimmed(s)
    case Area => s != "" && Trimmed(s) && Without(s, '\r')
    case Mandatory => Trimmed(s) && Without(s, '\n') && Without(s, '\r')
    case _ => s != "" && Trimmed(s) && Without(s, '\n') && Without(s, '\r')
  }

  /** The values that saving an untouched form gives back. */
  predicate Survives(c: Control, v: Option<Value>) {
    if v.None? then Blank(c.initial) && !c.kind.Mandatory?
    else c.populated && match v.value
      case Text(s) => CleanText(c.kind, s)
      case Items(xs) => CleanItems(xs)
      case Codes(ns) => ns != []
      case Data(es) => es != []
  }

  /** Lists, numbers and JSON start out empty in the page, and so does whatever edit mode does not fill. */
  predicate WellFormed(c: Control) {
    && ((c.kind.Commas? || c.kind.Numbers? || c.kind.Json? || !c.populated) ==> c.initial == "")
    && (c.kind.Mandatory? ==> c.populated)
    && (c.kind.Commas? ==> c.kind.gap == "" || c.kind.gap == " ")
  }
}
