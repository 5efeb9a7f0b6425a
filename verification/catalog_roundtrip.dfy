/** The reader gives every written form back, whatever white space and comments stand between its tokens. */
module CatalogRoundTrip {
  import opened Wrappers
  import opened CatalogReader
  import opened CatalogSyntax

  /** The text stands in the source at the cursor. */
  predicate At(s: string, c: nat, text: string) {
    c + |text| <= |s| && s[c..c + |text|] == text
  }

  lemma AtSplit(s: string, c: nat, a: string, b: string)
    requires At(s, c, a + b)
    ensures At(s, c, a) && At(s, c + |a|, b)
  {
    var t := s[c..c + |a + b|];
    assert s[c..c + |a|] == t[..|a|] == a;
    assert s[c + |a|..c + |a| + |b|] == t[|a|..] == b;
  }

  lemma AtChar(s: string, c: nat, text: string, i: nat)
    requires At(s, c, text) && i < |text|
    ensures c + i < |s| && s[c + i] == text[i]
  {
    assert s[c..c + |text|][i] == text[i];
  }

  lemma AtRest(s: string, c: nat, text: string)
    requires At(s, c, text) && text != ""
    ensures s[c] == text[0] && At(s, c + 1, text[1..])
  {
    AtChar(s, c, text, 0);
    assert text == text[..1] + text[1..];
    AtSplit(s, c, text[..1], text[1..]);
  }

  // ---- Gaps ----

  lemma PairAt(s: string, c: nat, text: string, i: nat, first: char, second: char)
    requires At(s, c, text) && i + 2 <= |text|
    ensures Pair(s, c + i, first, second) == Pair(text, i, first, second)
  {
    AtChar(s, c, text, i);
    AtChar(s, c, text, i + 1);
  }

  lemma WordsGoOn(text: string, after: string)
    requires text != "" && ValidWords(text, after)
    ensures ValidWords(text[1..], after) && (text + after)[1..] == text[1..] + after
  {
    var now := text[1..] + after;
    assert (text + after)[1..] == now;
    forall i | 0 <= i < |text[1..]|
      ensures !Pair(now, i, '#', '|') && !Pair(now, i, '|', '#')
    {
      assert !Pair(text + after, i + 1, '#', '|') && !Pair(text + after, i + 1, '|', '#');
    }
  }

  lemma {:induction false} SkipsWords(s: string, c: nat, text: string, after: string, depth: nat)
    requires At(s, c, text + after) && after != "" && ValidWords(text, after) && depth >= 1
    ensures SkipBlock(s, c, depth) == SkipBlock(s, c + |text|, depth)
    decreases |text|
  {
    if text != "" {
      WordsGoOn(text, after);
      AtRest(s, c, text + after);
      PairAt(s, c, text + after, 0, '#', '|');
      PairAt(s, c, text + after, 0, '|', '#');
      SkipsWords(s, c + 1, text[1..], after, depth);
    }
  }

  /** A body is its first part and the others. */
  lemma FirstPart(body: seq<Part>, after: string)
    requires body != [] && ValidParts(body, after)
    ensures ShowParts(body) + after == ShowPart(body[0]) + (ShowParts(body[1..]) + after)
    ensures |ShowParts(body)| == |ShowPart(body[0])| + |ShowParts(body[1..])|
    ensures ValidParts(body[1..], after) && PartsDepth(body[1..]) <= PartsDepth(body)
    ensures body[0].Words? ==> ValidWords(body[0].text, ShowParts(body[1..]) + after) && ShowPart(body[0]) == body[0].text
    ensures body[0].Nested? ==>
      && ValidParts(body[0].body, "|#") && 1 + PartsDepth(body[0].body) <= PartsDepth(body)
      && ShowPart(body[0]) == "#|" + ShowParts(body[0].body) + "|#"
  {
    hide ValidWords;
    Associates(ShowPart(body[0]), ShowParts(body[1..]), after);
  }

  lemma {:induction false} SkipsParts(s: string, c: nat, body: seq<Part>, after: string, depth: nat)
    requires At(s, c, ShowParts(body) + after) && after != "" && ValidParts(body, after)
    requires depth >= 1 && depth + PartsDepth(body) <= MAXIMUM_DEPTH
    ensures SkipBlock(s, c, depth) == SkipBlock(s, c + |ShowParts(body)|, depth)
    decreases body, 1
  {
    hide SkipBlock, At, ValidWords, ValidParts, ShowPart, ShowParts, PartsDepth;
    if body == [] {
      NoParts();
    } else {
      FirstPart(body, after);
      var first, rest := ShowPart(body[0]), ShowParts(body[1..]);
      AtSplit(s, c, first, rest + after);
      SkipsParts(s, c + |first|, body[1..], after, depth);
      match body[0]
      case Words(text) => SkipsWords(s, c, text, rest + after, depth);
      case Nested(inner) => SkipsNested(s, c, inner, depth);
    }
  }

  lemma NoParts()
    ensures ValidParts([], "|#") && ShowParts([]) == "" && PartsDepth([]) == 0
  {
  }

  lemma Associates(a: string, b: string, c: string)
    ensures a + b + c == a + (b + c)
  {
  }

  lemma {:induction false} SkipsNested(s: string, c: nat, inner: seq<Part>, depth: nat)
    requires At(s, c, "#|" + ShowParts(inner) + "|#") && ValidParts(inner, "|#")
    requires depth >= 1 && depth + 1 + PartsDepth(inner) <= MAXIMUM_DEPTH
    ensures SkipBlock(s, c, depth) == SkipBlock(s, c + |ShowParts(inner)| + 4, depth)
    decreases inner, 2
  {
    BlockMarks(s, c, ShowParts(inner));
    SkipsParts(s, c + 2, inner, "|#", depth + 1);
  }

  /** Where a block comment stands, its marks and what is between them stand. */
  lemma BlockMarks(s: string, c: nat, text: string)
    requires At(s, c, "#|" + text + "|#")
    ensures Pair(s, c, '#', '|') && At(s, c + 2, text + "|#") && Pair(s, c + 2 + |text|, '|', '#')
  {
    Associates("#|", text, "|#");
    AtSplit(s, c, "#|", text + "|#");
    PairAt(s, c, "#|", 0, '#', '|');
    AtSplit(s, c + 2, text, "|#");
    PairAt(s, c + 2 + |text|, "|#", 0, '|', '#');
  }

  /** A line comment is skipped up to where it ends. */
  lemma {:induction false} SkipsLine(s: string, c: nat, text: string)
    requires At(s, c, text) && forall i :: 0 <= i < |text| ==> text[i] != '\n'
    requires c + |text| == |s| || s[c + |text|] == '\n'
    ensures SkipLine(s, c) == c + |text|
    decreases |text|
  {
    if text != "" {
      AtRest(s, c, text);
      SkipsLine(s, c + 1, text[1..]);
    }
  }

  lemma WhiteIsSkipped(s: string, c: nat)
    requires c < |s| && White(s[c])
    ensures SkipSpace(s, c) == SkipSpace(s, c + 1)
  {
  }

  lemma LineIsSkipped(s: string, c: nat, text: string)
    requires At(s, c, ";" + text) && forall i :: 0 <= i < |text| ==> text[i] != '\n'
    requires c + 1 + |text| == |s| || s[c + 1 + |text|] == '\n'
    ensures SkipSpace(s, c) == SkipSpace(s, c + |text| + 1)
  {
    AtSplit(s, c, ";", text);
    AtChar(s, c, ";", 0);
    SkipsLine(s, c + 1, text);
    LineStarts(s, c, c + 1 + |text|);
  }

  lemma LineStarts(s: string, c: nat, e: nat)
    requires c < |s| && s[c] == ';' && SkipLine(s, c + 1) == e
    ensures SkipSpace(s, c) == SkipSpace(s, e)
  {
  }

  lemma BlockIsSkipped(s: string, c: nat, body: seq<Part>)
    requires At(s, c, "#|" + ShowParts(body) + "|#") && ValidParts(body, "|#") && 1 + PartsDepth(body) <= MAXIMUM_DEPTH
    ensures SkipSpace(s, c) == SkipSpace(s, c + |ShowParts(body)| + 4)
  {
    var text := ShowParts(body);
    BlockMarks(s, c, text);
    SkipsParts(s, c + 2, body, "|#", 1);
    BlockCloses(s, c + 2 + |text|);
    BlockStarts(s, c, c + |text| + 4);
  }

  lemma BlockCloses(s: string, c: nat)
    requires Pair(s, c, '|', '#')
    ensures SkipBlock(s, c, 1) == Ok(c + 2)
  {
  }

  lemma BlockStarts(s: string, c: nat, e: nat)
    requires Pair(s, c, '#', '|') && SkipBlock(s, c + 2, 1) == Ok(e)
    ensures e <= |s| && SkipSpace(s, c) == SkipSpace(s, e)
  {
  }

  lemma {:induction false} SkipsPiece(s: string, c: nat, p: Piece, after: string)
    requires At(s, c, ShowPiece(p) + after) && ValidPiece(p, after) && (after == "" ==> c + |ShowPiece(p)| == |s|)
    ensures SkipSpace(s, c) == SkipSpace(s, c + |ShowPiece(p)|)
  {
    hide SkipSpace, ShowParts;
    AtSplit(s, c, ShowPiece(p), after);
    match p
    case Space(_) => AtChar(s, c, ShowPiece(p), 0); WhiteIsSkipped(s, c);
    case Line(text) =>
      if after != "" {
        AtChar(s, c + |ShowPiece(p)|, after, 0);
      }
      LineIsSkipped(s, c, text);
    case Block(body) => BlockIsSkipped(s, c, body);
  }

  lemma {:induction false} SkipsGap(s: string, c: nat, gap: Gap, after: string)
    requires At(s, c, ShowGap(gap) + after) && ValidGap(gap, after) && (after == "" ==> c + |ShowGap(gap)| == |s|)
    ensures SkipSpace(s, c) == SkipSpace(s, c + |ShowGap(gap)|)
    decreases |gap|
  {
    hide SkipSpace, ShowPiece, ValidPiece;
    if gap != [] {
      var first, rest := ShowPiece(gap[0]), ShowGap(gap[1..]);
      Associates(first, rest, after);
      AtSplit(s, c, first, rest + after);
      SkipsPiece(s, c, gap[0], rest + after);
      SkipsGap(s, c + |first|, gap[1..], after);
    }
  }

  /** A character no gap starts with. */
  predicate Solid(c: char) {
    !White(c) && c != ';' && c != '#'
  }

  lemma SolidStops(s: string, c: nat)
    requires c == |s| || (c < |s| && Solid(s[c]))
    ensures SkipSpace(s, c) == Ok(c)
  {
  }

  // ---- Atoms ----

  lemma {:induction false} ReadsString(s: string, c: nat, v: string, before: string)
    requires At(s, c, Escape(v) + "\"")
    ensures ReadString(s, c, before) == Ok((before + v, c + |Escape(v)| + 1))
    decreases |v|
  {
    if v == "" {
      AtChar(s, c, "" + "\"", 0);
      assert before + v == before;
    } else {
      var first := if v[0] == '"' || v[0] == '\\' then ['\\', v[0]] else [v[0]];
      assert Escape(v) + "\"" == first + (Escape(v[1..]) + "\"");
      AtSplit(s, c, first, Escape(v[1..]) + "\"");
      AtChar(s, c, first, 0);
      if |first| == 2 {
        AtChar(s, c, first, 1);
      }
      ReadsString(s, c + |first|, v[1..], before + [v[0]]);
      assert before + [v[0]] + v[1..] == before + v;
    }
  }

  predicate TokenText(t: string) {
    t != "" && forall i :: 0 <= i < |t| ==> !Delimiter(t[i])
  }

  lemma {:induction false} FindsTokenEnd(s: string, c: nat, t: string)
    requires At(s, c, t) && (forall i :: 0 <= i < |t| ==> !Delimiter(t[i]))
    requires c + |t| == |s| || Delimiter(s[c + |t|])
    ensures TokenEnd(s, c) == c + |t|
    decreases |t|
  {
    if t != "" {
      AtRest(s, c, t);
      FindsTokenEnd(s, c + 1, t[1..]);
    }
  }

  lemma LowerIsKept(name: string)
    requires LowerKeyword(name)
    ensures LowerAll(name) == name
  {
  }

  lemma KeywordIsToken(name: string)
    requires LowerKeyword(name)
    ensures TokenText(":" + name) && ParseToken(":" + name) == Ok(Keyword(name))
  {
    LowerIsKept(name);
    assert (":" + name)[1..] == name;
    forall i | 0 <= i < |":" + name|
      ensures !Delimiter((":" + name)[i])
    {
      if i > 0 {
        assert KeywordChar(name[i - 1]);
      }
    }
  }

  lemma {:induction false} DigitsRead(n: nat)
    ensures Digits(n) != "" && (forall i :: 0 <= i < |Digits(n)| ==> Digit(Digits(n)[i])) && Value(Digits(n)) == n
  {
    DigitRead(n % 10);
    if n >= 10 {
      DigitsRead(n / 10);
      assert Digits(n)[..|Digits(n)| - 1] == Digits(n / 10);
    } else {
      assert Digits(n)[..0] == "";
    }
  }

  lemma DigitRead(n: nat)
    requires n < 10
    ensures Digit(DigitChar(n)) && DigitChar(n) as int - '0' as int == n
  {
  }

  lemma NotNil(t: string)
    requires t != "" && (t[0] == '-' || Digit(t[0]))
    ensures LowerAll(t) != "nil"
  {
    assert LowerAll(t)[0] == t[0];
    assert "nil"[0] == 'n';
  }

  lemma IntegerParses(t: string, m: int, negative: bool)
    requires m >= 0 && t == if negative then "-" + Digits(m) else Digits(m)
    requires m <= I64_MAX || (negative && m == I64_MAX + 1)
    ensures ParseInteger(t) == Ok(Integer(if negative then -m else m))
  {
    hide Digits, Value;
    DigitsRead(m);
    if negative {
      assert t[1..] == Digits(m);
    }
    assert Unsigned(t) == Digits(m);
  }

  lemma DecimalChars(n: int)
    ensures var t := Decimal(n); t != "" && (t[0] == '-' || Digit(t[0])) && Digit(t[|t| - 1])
    ensures forall i :: 0 <= i < |Decimal(n)| ==> !Delimiter(Decimal(n)[i])
  {
    hide Digits, Value;
    var m: nat := if n < 0 then -n else n;
    var t := Decimal(n);
    DigitsRead(m);
    assert t == (if n < 0 then "-" else "") + Digits(m);
    assert t[|t| - 1] == Digits(m)[|Digits(m)| - 1];
  }

  lemma DecimalIsToken(n: int)
    requires -I64_MAX - 1 <= n <= I64_MAX
    ensures TokenText(Decimal(n)) && ParseToken(Decimal(n)) == Ok(Integer(n))
    ensures Decimal(n)[0] == '-' || Digit(Decimal(n)[0])
  {
    DecimalChars(n);
    NotNil(Decimal(n));
    IntegerParses(Decimal(n), if n < 0 then -n else n, n < 0);
    hide LowerAll, ParseInteger, Decimal;
  }

  lemma BareIsToken(f: Form)
    requires ValidAtom(f) && !f.Text?
    ensures TokenText(ShowAtom(f)) && ParseToken(ShowAtom(f)) == Ok(f)
    ensures var t := ShowAtom(f)[0]; t == ':' || t == '-' || Digit(t)
  {
    hide ParseToken, Decimal;
    match f
    case Keyword(name) => KeywordIsToken(name);
    case Integer(n) => DecimalIsToken(n);
  }

  /** A bare token is followed by the end of the source or by a delimiter. */
  predicate Ended(s: string, e: nat) {
    e <= |s| && (e == |s| || Delimiter(s[e]))
  }

  lemma ReadsText(s: string, c: nat, v: string, nodes: nat, depth: nat)
    requires At(s, c, "\"" + Escape(v) + "\"")
    requires depth <= MAXIMUM_DEPTH && nodes + 1 <= MAXIMUM_NODES
    ensures ReadForm(s, c, nodes, depth) == Ok(Parsed(Text(v), c + |Escape(v)| + 2, nodes + 1))
  {
    hide Escape, ReadString, SkipSpace;
    assert "\"" + Escape(v) + "\"" == "\"" + (Escape(v) + "\"");
    AtSplit(s, c, "\"", Escape(v) + "\"");
    AtChar(s, c, "\"", 0);
    SolidStops(s, c);
    ReadsString(s, c + 1, v, "");
    assert "" + v == v;
  }

  lemma ReadsBare(s: string, c: nat, t: string, f: Form, nodes: nat, depth: nat)
    requires At(s, c, t) && TokenText(t) && ParseToken(t) == Ok(f) && Ended(s, c + |t|)
    requires t[0] == ':' || t[0] == '-' || Digit(t[0])
    requires depth <= MAXIMUM_DEPTH && nodes + 1 <= MAXIMUM_NODES
    ensures ReadForm(s, c, nodes, depth) == Ok(Parsed(f, c + |t|, nodes + 1))
  {
    hide ParseToken, SkipSpace, TokenEnd;
    AtRest(s, c, t);
    SolidStops(s, c);
    FindsTokenEnd(s, c + 1, t[1..]);
  }

  lemma {:induction false} ReadsAtom(s: string, c: nat, f: Form, nodes: nat, depth: nat)
    requires At(s, c, ShowAtom(f)) && ValidAtom(f) && (!f.Text? ==> Ended(s, c + |ShowAtom(f)|))
    requires depth <= MAXIMUM_DEPTH && nodes + 1 <= MAXIMUM_NODES
    ensures ReadForm(s, c, nodes, depth) == Ok(Parsed(f, c + |ShowAtom(f)|, nodes + 1))
  {
    hide ReadForm, At, Escape, Decimal, Ended, LowerKeyword, Digits;
    if f.Text? {
      ReadsText(s, c, f.value, nodes, depth);
    } else {
      BareIsToken(f);
      ReadsBare(s, c, ShowAtom(f), f, nodes, depth);
    }
  }

  // ---- Forms ----

  lemma ShowStartsSolid(node: Syntax)
    requires ValidSyntax(node)
    ensures Show(node) != "" && Solid(Show(node)[0]) && Show(node)[0] != ')'
  {
    match node
    case Atom(f) =>
      if !f.Text? {
        BareIsToken(f);
      }
    case Node(_, _) =>
  }

  lemma {:induction false} ReadsNode(s: string, c: nat, node: Syntax, nodes: nat, depth: nat)
    requires At(s, c, Show(node)) && ValidSyntax(node) && (Bare(node) ==> Ended(s, c + |Show(node)|))
    requires depth + Height(Meaning(node)) <= MAXIMUM_DEPTH && nodes + Count(Meaning(node)) <= MAXIMUM_NODES
    ensures ReadForm(s, c, nodes, depth)
         == Ok(Parsed(Meaning(node), c + |Show(node)|, nodes + Count(Meaning(node))))
    decreases node, 0
  {
    hide ReadForm, ReadItems, ShowItems, ShowGap, ShowAtom, ValidItems;
    match node
    case Atom(f) => ReadsAtom(s, c, f, nodes, depth);
    case Node(items, close) =>
      var tail := ShowItems(items) + (ShowGap(close) + ")");
      assert Show(node) == "(" + tail;
      AtSplit(s, c, "(", tail);
      ReadsItems(s, c + 1, items, close, nodes + 1, depth);
      ReadsList(s, c, nodes, depth, ReadItems(s, c + 1, nodes + 1, depth).value);
  }

  lemma ReadsList(s: string, c: nat, nodes: nat, depth: nat, items: ParsedList)
    requires At(s, c, "(") && depth <= MAXIMUM_DEPTH && nodes + 1 <= MAXIMUM_NODES
    requires ReadItems(s, c + 1, nodes + 1, depth) == Ok(items)
    ensures ReadForm(s, c, nodes, depth) == Ok(Parsed(List(items.forms), items.cursor, items.nodes))
  {
    hide ReadItems, SkipSpace;
    AtChar(s, c, "(", 0);
    SolidStops(s, c);
  }

  lemma ReadsNext(s: string, c: nat, d: nat, nodes: nat, depth: nat, first: Parsed, rest: ParsedList)
    requires c <= |s| && d < |s| && SkipSpace(s, c) == Ok(d) && s[d] != ')'
    requires ReadForm(s, d, nodes, depth + 1) == Ok(first) && first.cursor <= |s|
    requires ReadItems(s, first.cursor, first.nodes, depth) == Ok(rest)
    ensures ReadItems(s, c, nodes, depth) == Ok(ParsedList([first.form] + rest.forms, rest.cursor, rest.nodes))
  {
    hide ReadForm, SkipSpace;
  }

  lemma ShowsFirst(items: seq<Item>)
    requires items != []
    ensures ShowItems(items) == ShowGap(items[0].gap) + Show(items[0].node) + ShowItems(items[1..])
  {
    hide ShowGap, Show;
  }

  lemma FirstItem(s: string, c: nat, items: seq<Item>, after: string)
    requires items != [] && At(s, c, ShowItems(items) + after)
    ensures var gap, node, rest := ShowGap(items[0].gap), Show(items[0].node), ShowItems(items[1..]) + after;
      At(s, c, gap + node) && At(s, c + |gap|, node) && At(s, c + |gap| + |node|, rest)
      && |ShowItems(items)| == |gap| + |node| + |ShowItems(items[1..])|
  {
    hide ShowGap, Show, ShowItems, At;
    var gap, node, tail := ShowGap(items[0].gap), Show(items[0].node), ShowItems(items[1..]);
    ShowsFirst(items);
    Regroup(gap, node, tail, after);
    AtSplit(s, c, gap, node + (tail + after));
    AtSplit(s, c + |gap|, node, tail + after);
    Associates(gap, node, tail + after);
    AtSplit(s, c, gap + node, tail + after);
  }

  lemma Regroup(a: string, b: string, c: string, d: string)
    ensures a + b + c + d == a + (b + (c + d))
  {
  }

  lemma {:induction false} ReadsItems(s: string, c: nat, items: seq<Item>, close: Gap, nodes: nat, depth: nat)
    requires At(s, c, ShowItems(items) + (ShowGap(close) + ")"))
    requires ValidItems(items, ShowGap(close) + ")") && ValidGap(close, ")")
    requires depth + HeightAll(Meanings(items)) <= MAXIMUM_DEPTH && nodes + CountAll(Meanings(items)) <= MAXIMUM_NODES
    ensures ReadItems(s, c, nodes, depth)
         == Ok(ParsedList(Meanings(items), c + |ShowItems(items)| + |ShowGap(close)| + 1,
                          nodes + CountAll(Meanings(items))))
    decreases items, 1
  {
    hide ReadForm, ReadItems, SkipSpace, ShowGap, Show, ValidSyntax, ValidGap, Meaning, Count, Height, At;
    var after := ShowGap(close) + ")";
    if items == [] {
      assert ShowItems(items) + after == after;
      ReadsClose(s, c, close, nodes, depth);
    } else {
      var gap, node, rest := ShowGap(items[0].gap), items[0].node, ShowItems(items[1..]) + after;
      var d := c + |gap|;
      var e := d + |Show(node)|;
      FirstItem(s, c, items, after);
      ShowStartsSolid(node);
      AtChar(s, d, Show(node), 0);
      SkipsGap(s, c, items[0].gap, Show(node));
      SolidStops(s, d);
      AtChar(s, e, rest, 0);
      ReadsNode(s, d, node, nodes, depth + 1);
      ReadsItems(s, e, items[1..], close, nodes + Count(Meaning(node)), depth);
      ReadsNext(s, c, d, nodes, depth, Parsed(Meaning(node), e, nodes + Count(Meaning(node))),
                ReadItems(s, e, nodes + Count(Meaning(node)), depth).value);
    }
  }

  lemma ReadsClose(s: string, c: nat, close: Gap, nodes: nat, depth: nat)
    requires At(s, c, ShowGap(close) + ")") && ValidGap(close, ")")
    ensures ReadItems(s, c, nodes, depth) == Ok(ParsedList([], c + |ShowGap(close)| + 1, nodes))
  {
    hide SkipSpace, ShowGap, ValidGap, ReadForm;
    AtSplit(s, c, ShowGap(close), ")");
    SkipsGap(s, c, close, ")");
    AtChar(s, c + |ShowGap(close)|, ")", 0);
    SolidStops(s, c + |ShowGap(close)|);
  }

  /**
   Any form within the limits, written with any gaps around and between its tokens, is read back unchanged.
   */
  lemma {:induction false} ReaderUndoesPrinter(lead: Gap, node: Syntax, trail: Gap)
    requires ValidGap(lead, Show(node)) && ValidSyntax(node) && ValidGap(trail, "")
    requires Bare(node) ==> Delimited(ShowGap(trail))
    requires Height(Meaning(node)) <= MAXIMUM_DEPTH && Count(Meaning(node)) <= MAXIMUM_NODES
    requires |ShowGap(lead) + Show(node) + ShowGap(trail)| <= MAXIMUM_CATALOG_BYTES
    ensures ReadSource(ShowGap(lead) + Show(node) + ShowGap(trail)) == Ok(Meaning(node))
  {
    hide SkipSpace, ShowGap, Show, ValidGap, ValidSyntax, ReadForm, Meaning, Count, Height;
    var s := ShowGap(lead) + Show(node) + ShowGap(trail);
    var d := |ShowGap(lead)|;
    var e := d + |Show(node)|;
    assert At(s, 0, ShowGap(lead) + Show(node)) && At(s, d, Show(node)) && At(s, e, ShowGap(trail) + "");
    ShowStartsSolid(node);
    SkipsGap(s, 0, lead, Show(node));
    AtChar(s, d, Show(node), 0);
    if ShowGap(trail) != "" {
      AtChar(s, e, ShowGap(trail) + "", 0);
    }
    ReadsNode(s, d, node, 0, 0);
    SolidStops(s, d);
    SameFromGap(s, 0, d, 0, 0);
    SkipsGap(s, e, trail, "");
    SolidStops(s, |s|);
  }

  /** Reading a form from a cursor or from behind the space there is the same. */
  lemma SameFromGap(s: string, c: nat, d: nat, nodes: nat, depth: nat)
    requires c <= |s| && d <= |s| && SkipSpace(s, c) == SkipSpace(s, d)
    ensures ReadForm(s, c, nodes, depth) == ReadForm(s, d, nodes, depth)
  {
    hide SkipSpace, ReadItems, ReadString, TokenEnd, ParseToken;
  }

  /** Every form a source can hold can be written plainly, and the reader gives it back. */
  lemma PlainRoundTrip(f: Form)
    requires CatalogSyntax.Printable(f) && Height(f) <= MAXIMUM_DEPTH && Count(f) <= MAXIMUM_NODES
    requires |Show(Plain(f))| <= MAXIMUM_CATALOG_BYTES
    ensures ReadSource(Show(Plain(f))) == Ok(f)
  {
    PlainMeans(f);
    ReaderUndoesPrinter([], Plain(f), []);
    assert ShowGap([]) + Show(Plain(f)) + ShowGap([]) == Show(Plain(f));
  }

  // ---- What the reader accepts ----

  /** Whatever the reader returns is within its limits, counted exactly, and can be written again. */
  lemma {:induction false} ReadFormIsSound(s: string, c: nat, nodes: nat, depth: nat)
    requires c <= |s|
    ensures var r := ReadForm(s, c, nodes, depth);
      r.Ok? ==> && CatalogSyntax.Printable(r.value.form)
                && r.value.nodes == nodes + Count(r.value.form) && r.value.nodes <= MAXIMUM_NODES
                && depth + Height(r.value.form) <= MAXIMUM_DEPTH
    decreases |s| - c, 1
  {
    var r := ReadForm(s, c, nodes, depth);
    if r.Ok? {
      var d := SkipSpace(s, c).value;
      if s[d] == '(' {
        ReadItemsIsSound(s, d + 1, nodes + 1, depth);
      } else if s[d] != '"' {
        TokenIsSound(s[d..TokenEnd(s, d + 1)]);
      }
    }
  }

  lemma {:induction false} ReadItemsIsSound(s: string, c: nat, nodes: nat, depth: nat)
    requires c <= |s| && nodes <= MAXIMUM_NODES && depth <= MAXIMUM_DEPTH
    ensures var r := ReadItems(s, c, nodes, depth);
      r.Ok? ==> && AllPrintable(r.value.forms)
                && r.value.nodes == nodes + CountAll(r.value.forms) && r.value.nodes <= MAXIMUM_NODES
                && depth + HeightAll(r.value.forms) <= MAXIMUM_DEPTH
    decreases |s| - c, 2
  {
    var r := ReadItems(s, c, nodes, depth);
    if r.Ok? && r.value.forms != [] {
      var d := SkipSpace(s, c).value;
      ReadFormIsSound(s, d, nodes, depth + 1);
      var first := ReadForm(s, d, nodes, depth + 1).value;
      ReadItemsIsSound(s, first.cursor, first.nodes, depth);
      assert r.value.forms[1..] == ReadItems(s, first.cursor, first.nodes, depth).value.forms;
    }
  }

  lemma TokenIsSound(token: string)
    ensures var r := ParseToken(token);
      r.Ok? ==> CatalogSyntax.Printable(r.value) && Count(r.value) == 1 && Height(r.value) == 0
  {
    var r := ParseToken(token);
    if r.Ok? && r.value.Keyword? {
      LowerAllIsLower(token[1..]);
    }
    hide LowerAll, LowerKeyword, Value;
  }

  lemma LowerAllIsLower(name: string)
    requires name != "" && forall i :: 0 <= i < |name| ==> KeywordChar(name[i])
    ensures LowerKeyword(LowerAll(name))
  {
    var low := LowerAll(name);
    forall i | 0 <= i < |low|
      ensures KeywordChar(low[i]) && Lower(low[i]) == low[i]
    {
      assert KeywordChar(name[i]);
    }
  }

  /** So every accepted source has a plain form of its own, and reading that gives the same form. */
  lemma ReadingIsStable(s: string)
    requires ReadSource(s).Ok?
    ensures var f := ReadSource(s).value;
      CatalogSyntax.Printable(f) && Height(f) <= MAXIMUM_DEPTH && Count(f) <= MAXIMUM_NODES
      && (|Show(Plain(f))| <= MAXIMUM_CATALOG_BYTES ==> ReadSource(Show(Plain(f))) == Ok(f))
  {
    var f := ReadSource(s).value;
    ReadFormIsSound(s, 0, 0, 0);
    if |Show(Plain(f))| <= MAXIMUM_CATALOG_BYTES {
      PlainRoundTrip(f);
    }
  }
}
