/**
 Written catalog forms: what a form looks like with any layout and comments between its tokens. The reader is proved to
 undo this printer.
 */
module CatalogSyntax {
  import opened CatalogReader

  // ---- Gaps ----

  /** What stands inside a block comment. */
  datatype Part = Words(text: string) | Nested(body: seq<Part>)

  /** White space, a line comment, or a block comment. */
  datatype Piece = Space(c: char) | Line(text: string) | Block(body: seq<Part>)

  type Gap = seq<Piece>

  function ShowPart(p: Part): string
    decreases p, 0
  {
    match p
    case Words(text) => text
    case Nested(body) => "#|" + ShowParts(body) + "|#"
  }

  function ShowParts(body: seq<Part>): string
    decreases body, 1
  {
    if body == [] then "" else ShowPart(body[0]) + ShowParts(body[1..])
  }

  function Max(a: nat, b: nat): nat { if a < b then b else a }

  /** How many comments are nested inside a body. */
  function PartsDepth(body: seq<Part>): nat
    decreases body, 1
  {
    if body == [] then 0
    else
      Max(match body[0] case Words(_) => 0 case Nested(inner) => 1 + PartsDepth(inner), PartsDepth(body[1..]))
  }

  /** Text that, with what follows it, neither opens nor closes a comment. */
  predicate ValidWords(text: string, after: string) {
    forall i :: 0 <= i < |text| ==> !Pair(text + after, i, '#', '|') && !Pair(text + after, i, '|', '#')
  }

  predicate ValidParts(body: seq<Part>, after: string)
    decreases body, 1
  {
    body == [] ||
    ((match body[0]
      case Words(text) => ValidWords(text, ShowParts(body[1..]) + after)
      case Nested(inner) => ValidParts(inner, "|#"))
     && ValidParts(body[1..], after))
  }

  function ShowPiece(p: Piece): string {
    match p
    case Space(c) => [c]
    case Line(text) => ";" + text
    case Block(body) => "#|" + ShowParts(body) + "|#"
  }

  /** A line comment goes on to the end of the line, or of the source. */
  predicate ValidPiece(p: Piece, after: string) {
    match p
    case Space(c) => White(c)
    case Line(text) => (forall i :: 0 <= i < |text| ==> text[i] != '\n') && (after == "" || after[0] == '\n')
    case Block(body) => ValidParts(body, "|#") && 1 + PartsDepth(body) <= MAXIMUM_DEPTH
  }

  function ShowGap(gap: Gap): string {
    if gap == [] then "" else ShowPiece(gap[0]) + ShowGap(gap[1..])
  }

  predicate ValidGap(gap: Gap, after: string) {
    gap == [] || (ValidPiece(gap[0], ShowGap(gap[1..]) + after) && ValidGap(gap[1..], after))
  }

  /** A gap of white space only. */
  predicate Blank(gap: Gap) {
    forall i :: 0 <= i < |gap| ==> gap[i].Space? && White(gap[i].c)
  }

  lemma {:induction false} BlankIsValid(gap: Gap, after: string)
    requires Blank(gap)
    ensures ValidGap(gap, after)
    decreases |gap|
  {
    if gap != [] {
      BlankIsValid(gap[1..], after);
    }
  }

  // ---- Atoms ----

  function DigitChar(n: nat): char
    requires n < 10
  {
    "0123456789"[n]
  }

  function Digits(n: nat): string {
    if n < 10 then [DigitChar(n)] else Digits(n / 10) + [DigitChar(n % 10)]
  }

  function Decimal(n: int): string {
    if n < 0 then "-" + Digits(-n) else Digits(n)
  }

  function Escape(v: string): string {
    if v == "" then ""
    else (if v[0] == '"' || v[0] == '\\' then ['\\', v[0]] else [v[0]]) + Escape(v[1..])
  }

  predicate LowerKeyword(name: string) {
    name != "" && forall i :: 0 <= i < |name| ==> KeywordChar(name[i]) && Lower(name[i]) == name[i]
  }

  predicate ValidAtom(f: Form) {
    match f
    case Keyword(name) => LowerKeyword(name)
    case Text(_) => true
    case Integer(n) => -I64_MAX - 1 <= n <= I64_MAX
    case List(_) => false
  }

  function ShowAtom(f: Form): string {
    match f
    case Keyword(name) => ":" + name
    case Text(value) => "\"" + Escape(value) + "\""
    case Integer(n) => Decimal(n)
    case List(_) => "()"
  }

  // ---- Forms ----

  /** A form as written: its tokens and the gaps between them. */
  datatype Syntax = Atom(form: Form) | Node(items: seq<Item>, close: Gap)
  datatype Item = Item(gap: Gap, node: Syntax)

  function Show(node: Syntax): string
    decreases node, 0
  {
    match node
    case Atom(form) => ShowAtom(form)
    case Node(items, close) => "(" + ShowItems(items) + (ShowGap(close) + ")")
  }

  function ShowItems(items: seq<Item>): string
    decreases items, 1
  {
    if items == [] then "" else ShowGap(items[0].gap) + Show(items[0].node) + ShowItems(items[1..])
  }

  function Meaning(node: Syntax): Form
    decreases node, 0
  {
    match node
    case Atom(form) => form
    case Node(items, _) => List(Meanings(items))
  }

  function Meanings(items: seq<Item>): (forms: seq<Form>)
    ensures |forms| == |items|
    decreases items, 1
  {
    if items == [] then [] else [Meaning(items[0].node)] + Meanings(items[1..])
  }

  /** A keyword or a number ends only where a delimiter begins. */
  predicate Bare(node: Syntax) {
    node.Atom? && !node.form.Text?
  }

  predicate Delimited(rest: string) {
    rest == "" || Delimiter(rest[0])
  }

  predicate ValidSyntax(node: Syntax)
    decreases node, 0
  {
    match node
    case Atom(form) => ValidAtom(form)
    case Node(items, close) => ValidGap(close, ")") && ValidItems(items, ShowGap(close) + ")")
  }

  predicate ValidItems(items: seq<Item>, after: string)
    decreases items, 1
  {
    items == [] ||
    (ValidGap(items[0].gap, Show(items[0].node)) && ValidSyntax(items[0].node)
     && (Bare(items[0].node) ==> Delimited(ShowItems(items[1..]) + after))
     && ValidItems(items[1..], after))
  }

  /** The nodes a form has, and how deep its lists are nested. */
  function Count(f: Form): (n: nat)
    ensures n >= 1
    decreases f, 0
  {
    match f
    case List(forms) => 1 + CountAll(forms)
    case _ => 1
  }

  function CountAll(forms: seq<Form>): nat
    decreases forms, 1
  {
    if forms == [] then 0 else Count(forms[0]) + CountAll(forms[1..])
  }

  function Height(f: Form): nat
    decreases f, 0
  {
    match f
    case List(forms) => HeightAll(forms)
    case _ => 0
  }

  /** One more than the height of the highest of the forms, or 0 when there are none. */
  function HeightAll(forms: seq<Form>): nat
    decreases forms, 1
  {
    if forms == [] then 0 else Max(1 + Height(forms[0]), HeightAll(forms[1..]))
  }

  // ---- The plain printing of a form ----

  predicate Printable(f: Form)
    decreases f, 0
  {
    match f
    case List(forms) => AllPrintable(forms)
    case _ => ValidAtom(f)
  }

  predicate AllPrintable(forms: seq<Form>)
    decreases forms, 1
  {
    forms == [] || (Printable(forms[0]) && AllPrintable(forms[1..]))
  }

  /** One blank before every item. */
  function Plain(f: Form): Syntax
    decreases f, 0
  {
    match f
    case List(forms) => Node(PlainItems(forms), [])
    case _ => Atom(f)
  }

  function PlainItems(forms: seq<Form>): seq<Item>
    decreases forms, 1
  {
    if forms == [] then [] else [Item([Space(' ')], Plain(forms[0]))] + PlainItems(forms[1..])
  }

  lemma {:induction false} PlainMeans(f: Form)
    requires Printable(f)
    ensures ValidSyntax(Plain(f)) && Meaning(Plain(f)) == f
    decreases f, 0
  {
    if f.List? {
      assert ShowGap([]) == "";
      PlainItemsMean(f.forms);
    }
  }

  lemma {:induction false} PlainItemsMean(forms: seq<Form>)
    requires AllPrintable(forms)
    ensures ValidItems(PlainItems(forms), "" + ")") && Meanings(PlainItems(forms)) == forms
    decreases forms, 1
  {
    if forms != [] {
      var items := PlainItems(forms);
      PlainMeans(forms[0]);
      PlainItemsMean(forms[1..]);
      assert items[1..] == PlainItems(forms[1..]);
      BlankIsValid(items[0].gap, Show(items[0].node));
      PlainStartsWithBlank(forms[1..]);
    }
  }

  lemma PlainStartsWithBlank(forms: seq<Form>)
    ensures Delimited(ShowItems(PlainItems(forms)) + ("" + ")"))
  {
    if forms != [] {
      var items := PlainItems(forms);
      assert ShowGap([Space(' ')]) == [' '] + ShowGap([]);
      assert ShowItems(items)[0] == ' ';
    }
  }
}
