/**
 The saved dashboard appearance: what the uploader writes (`native/src/uploader/mod.rs`, `encode_palette`) and what
 `parse_appearance_override` reads back (`native/src/catalog.rs`).
 */
module CatalogAppearance {
  import opened Wrappers
  import opened CatalogReader
  import opened CatalogSyntax
  import opened CatalogRoundTrip
  import opened CatalogSchema
  import CatalogTsv

  type Palette = seq<(string, string)>

  /** The appearance file is read back with this bound. */
  const MAX_APPEARANCE_BYTES: nat := 4096

  function Entry(e: (string, string)): string {
    ":" + e.0 + " \"" + e.1 + "\""
  }

  function Entries(p: Palette): string {
    if p == [] then ""
    else if |p| == 1 then Entry(p[0])
    else Entry(p[0]) + "\n   " + Entries(p[1..])
  }

  function EncodePalette(p: Palette): string {
    "(:version 2\n :palette\n  (" + Entries(p) + "))\n"
  }

  // ---- The file as written syntax ----

  const BLANK: Gap := [Space(' ')]
  const NEXT_LINE: Gap := [Space('\n'), Space(' ')]
  const NEXT_LIST: Gap := [Space('\n'), Space(' '), Space(' ')]
  const NEXT_ENTRY: Gap := [Space('\n'), Space(' '), Space(' '), Space(' ')]

  function EntryItems(e: (string, string), lead: Gap): seq<Item> {
    [Item(lead, Atom(Keyword(e.0))), Item(BLANK, Atom(Text(e.1)))]
  }

  function PaletteItems(p: Palette, lead: Gap): seq<Item> {
    if p == [] then [] else EntryItems(p[0], lead) + PaletteItems(p[1..], NEXT_ENTRY)
  }

  function PaletteNode(p: Palette): Syntax {
    Node(PaletteItems(p, []), [])
  }

  const VERSION: Item := Item([], Atom(Keyword("version")))
  const TWO: Item := Item(BLANK, Atom(Integer(2)))
  const PALETTE: Item := Item(NEXT_LINE, Atom(Keyword("palette")))

  function AppearanceItems(p: Palette): seq<Item> {
    [VERSION, TWO] + ([PALETTE, Item(NEXT_LIST, PaletteNode(p))] + [])
  }

  function AppearanceNode(p: Palette): Syntax {
    Node(AppearanceItems(p), [])
  }

  function PaletteForms(p: Palette): seq<Form> {
    if p == [] then [] else [Keyword(p[0].0), Text(p[0].1)] + PaletteForms(p[1..])
  }

  /** Role names and colours as the uploader writes them: no character of theirs needs an escape. */
  predicate Writable(p: Palette) {
    forall i :: 0 <= i < |p| ==> LowerKeyword(p[i].0) && |p[i].0| <= 18 && CanonicalRgb(p[i].1)
  }

  lemma GapsShow()
    ensures ShowGap([]) == "" && ShowGap(BLANK) == " " && ShowGap(NEXT_LINE) == "\n " && ShowGap(NEXT_LIST) == "\n  "
    ensures ShowGap(NEXT_ENTRY) == "\n   "
    ensures Blank([]) && Blank(BLANK) && Blank(NEXT_LINE) && Blank(NEXT_LIST) && Blank(NEXT_ENTRY)
  {
    assert BLANK[1..] == [] && NEXT_LINE[1..] == BLANK;
    assert NEXT_LIST[1..] == [Space(' ')] + BLANK && NEXT_LIST[1..][1..] == BLANK;
    assert ShowGap(NEXT_LIST[1..]) == "  ";
    assert NEXT_ENTRY[1..] == [Space(' ')] + NEXT_LIST[1..] && NEXT_ENTRY[1..][1..] == NEXT_LIST[1..];
    assert ShowGap(NEXT_ENTRY[1..]) == "   ";
  }

  lemma {:induction false} EscapeKeepsColor(s: string)
    requires forall i :: 0 <= i < |s| ==> s[i] == '#' || HexDigit(s[i])
    ensures Escape(s) == s
  {
    if s != "" {
      EscapeKeepsColor(s[1..]);
      assert [s[0]] + s[1..] == s;
    }
  }

  lemma TwoItems(a: Item, b: Item, rest: seq<Item>)
    ensures ShowItems([a, b] + rest) == ShowGap(a.gap) + Show(a.node) + (ShowGap(b.gap) + Show(b.node) + ShowItems(rest))
    ensures Meanings([a, b] + rest) == [Meaning(a.node), Meaning(b.node)] + Meanings(rest)
  {
    var s := [a, b] + rest;
    assert s[1..] == [b] + rest && s[1..][1..] == rest;
    hide ShowGap, Show, Meaning;
    assert ShowItems([b] + rest) == ShowGap(b.gap) + Show(b.node) + ShowItems(rest);
  }

  lemma EntryText(e: (string, string))
    ensures Entry(e) == ":" + e.0 + " " + ("\"" + e.1 + "\"")
  {
  }

  lemma EntryNodes(e: (string, string))
    requires CanonicalRgb(e.1)
    ensures Show(Atom(Keyword(e.0))) == ":" + e.0 && Show(Atom(Text(e.1))) == "\"" + e.1 + "\""
  {
    EscapeKeepsColor(e.1);
    hide Escape, CanonicalRgb;
  }

  lemma EntryShows(e: (string, string), lead: Gap, rest: seq<Item>)
    requires CanonicalRgb(e.1)
    ensures ShowItems(EntryItems(e, lead) + rest) == ShowGap(lead) + Entry(e) + ShowItems(rest)
  {
    EntryNodes(e);
    EntryText(e);
    GapsShow();
    TwoItems(Item(lead, Atom(Keyword(e.0))), Item(BLANK, Atom(Text(e.1))), rest);
    EntryParts(ShowGap(lead), ":" + e.0, "\"" + e.1 + "\"", ShowItems(rest));
    hide ShowItems, ShowGap, Show, Entry, CanonicalRgb;
  }

  lemma EntryParts(lead: string, a: string, b: string, rest: string)
    ensures lead + a + (" " + b + rest) == lead + (a + " " + b) + rest
  {
  }

  lemma {:induction false} PaletteShows(p: Palette, lead: Gap)
    requires Writable(p)
    ensures ShowItems(PaletteItems(p, lead)) == if p == [] then "" else ShowGap(lead) + Entries(p)
  {
    if p != [] {
      EntryShows(p[0], lead, PaletteItems(p[1..], NEXT_ENTRY));
      PaletteShows(p[1..], NEXT_ENTRY);
      GapsShow();
      hide ShowItems, ShowGap, CanonicalRgb, LowerKeyword, Entry;
      Reassociate(ShowGap(lead), Entry(p[0]), "\n   ", Entries(p[1..]));
    }
  }

  lemma Reassociate(a: string, b: string, c: string, d: string)
    ensures a + b + (c + d) == a + (b + c + d)
    ensures a + b + "" == a + b
  {
  }

  lemma {:induction false} PaletteIsValidSyntax(p: Palette, lead: Gap, after: string)
    requires Writable(p) && Blank(lead)
    ensures ValidItems(PaletteItems(p, lead), after)
    ensures Meanings(PaletteItems(p, lead)) == PaletteForms(p)
  {
    if p != [] {
      GapsShow();
      var rest := PaletteItems(p[1..], NEXT_ENTRY);
      var role, color := Item(lead, Atom(Keyword(p[0].0))), Item(BLANK, Atom(Text(p[0].1)));
      PaletteIsValidSyntax(p[1..], NEXT_ENTRY, after);
      TwoItems(role, color, rest);
      TwoValid(role, color, rest, after);
    }
  }

  lemma TwoValid(a: Item, b: Item, rest: seq<Item>, after: string)
    requires Blank(a.gap) && b.gap == BLANK && ValidSyntax(a.node) && ValidSyntax(b.node)
    requires ValidItems(rest, after) && (Bare(b.node) ==> Delimited(ShowItems(rest) + after))
    ensures ValidItems([a, b] + rest, after)
  {
    GapsShow();
    BlankIsValid(a.gap, Show(a.node));
    BlankIsValid(b.gap, Show(b.node));
    var s := [a, b] + rest;
    assert s[1..] == [b] + rest && s[1..][1..] == rest;
    assert ShowItems([b] + rest) == " " + Show(b.node) + ShowItems(rest);
    hide ValidSyntax, Show, ShowGap, ValidGap, Blank;
    assert ValidItems([b] + rest, after);
  }

  lemma PaletteNodeShows(p: Palette)
    requires Writable(p)
    ensures Show(PaletteNode(p)) == "(" + Entries(p) + ")"
  {
    PaletteShows(p, []);
    GapsShow();
    assert "" + Entries(p) == Entries(p);
    assert ShowGap([]) + ")" == ")";
  }

  lemma HeaderShows()
    ensures ShowGap(VERSION.gap) + Show(VERSION.node) == ":version" && ShowGap(TWO.gap) + Show(TWO.node) == " 2"
    ensures ShowGap(PALETTE.gap) + Show(PALETTE.node) == "\n :palette"
  {
    GapsShow();
    assert ShowAtom(Integer(2)) == "2";
  }

  lemma Spelled(entries: string)
    ensures "(" + (":version" + (" 2" + ("\n :palette" + ("\n  " + ("(" + entries + ")") + "")))) + ("" + ")") + "\n"
         == "(:version 2\n :palette\n  (" + entries + "))\n"
  {
  }

  lemma AppearanceShows(p: Palette)
    requires Writable(p)
    ensures Show(AppearanceNode(p)) + "\n" == EncodePalette(p)
  {
    PaletteNodeShows(p);
    GapsShow();
    HeaderShows();
    var node := Item(NEXT_LIST, PaletteNode(p));
    TwoItems(VERSION, TWO, [PALETTE, node] + []);
    TwoItems(PALETTE, node, []);
    Spelled(Entries(p));
    hide ShowGap, ShowAtom, Entries, PaletteNode, VERSION, TWO, PALETTE, NEXT_LIST;
    assert ShowItems([]) == "";
  }

  lemma AppearanceIsValidSyntax(p: Palette)
    requires Writable(p)
    ensures ValidSyntax(AppearanceNode(p))
    ensures Meaning(AppearanceNode(p)) == List([Keyword("version"), Integer(2), Keyword("palette"), List(PaletteForms(p))])
  {
    GapsShow();
    PaletteIsValidSyntax(p, [], ShowGap([]) + ")");
    var node := Item(NEXT_LIST, PaletteNode(p));
    HeaderIsValid();
    hide ValidItems, ValidGap, ShowGap, Blank;
    NodeIsValid(p, node);
    TwoItems(VERSION, TWO, [PALETTE, node] + []);
    TwoItems(PALETTE, node, []);
  }

  lemma HeaderIsValid()
    ensures ValidSyntax(VERSION.node) && ValidSyntax(TWO.node) && ValidSyntax(PALETTE.node)
  {
  }

  lemma NodeIsValid(p: Palette, node: Item)
    requires node == Item(NEXT_LIST, PaletteNode(p)) && ValidSyntax(node.node)
    ensures ValidItems(AppearanceItems(p), ShowGap([]) + ")")
  {
    GapsShow();
    HeaderIsValid();
    LastValid(PALETTE, node, ShowGap([]) + ")");
    TwoItems(PALETTE, node, []);
    var rest := [PALETTE, node] + [];
    assert ShowItems(rest)[0] == '\n';
    TwoValid(VERSION, TWO, rest, ShowGap([]) + ")");
  }

  lemma LastValid(a: Item, b: Item, after: string)
    requires Blank(a.gap) && b.gap == NEXT_LIST && ValidSyntax(a.node) && ValidSyntax(b.node) && !Bare(b.node)
    ensures ValidItems([a, b] + [], after)
  {
    GapsShow();
    BlankIsValid(a.gap, Show(a.node));
    BlankIsValid(b.gap, Show(b.node));
    var s := [a, b] + [];
    assert s[1..] == [b] && s[1..][1..] == [];
    assert ShowItems([b]) == "\n  " + Show(b.node) + "";
    hide ValidSyntax, Show, ShowGap, ValidGap, Blank;
    assert ValidItems([b], after);
  }

  // ---- Its size ----

  lemma TwoMeasure(a: Form, b: Form, rest: seq<Form>)
    ensures CountAll([a, b] + rest) == Count(a) + Count(b) + CountAll(rest)
    ensures HeightAll([a, b] + rest) == Max(1 + Height(a), Max(1 + Height(b), HeightAll(rest)))
  {
    var forms := [a, b] + rest;
    assert forms[1..] == [b] + rest && forms[1..][1..] == rest;
    hide Count, Height;
    assert CountAll([b] + rest) == Count(b) + CountAll(rest);
    assert HeightAll([b] + rest) == Max(1 + Height(b), HeightAll(rest));
  }

  lemma {:induction false} PaletteFormsMeasure(p: Palette)
    ensures |PaletteForms(p)| == 2 * |p| && CountAll(PaletteForms(p)) == 2 * |p| && HeightAll(PaletteForms(p)) <= 1
  {
    if p != [] {
      PaletteFormsMeasure(p[1..]);
      TwoMeasure(Keyword(p[0].0), Text(p[0].1), PaletteForms(p[1..]));
    }
  }

  lemma AppearanceMeasure(p: Palette)
    requires |p| == 22
    ensures var f := List([Keyword("version"), Integer(2), Keyword("palette"), List(PaletteForms(p))]);
      Count(f) <= MAXIMUM_NODES && Height(f) <= MAXIMUM_DEPTH
  {
    PaletteFormsMeasure(p);
    var last := List(PaletteForms(p));
    TwoMeasure(Keyword("palette"), last, []);
    TwoMeasure(Keyword("version"), Integer(2), [Keyword("palette"), last] + []);
    assert [Keyword("version"), Integer(2)] + ([Keyword("palette"), last] + [])
        == [Keyword("version"), Integer(2), Keyword("palette"), last];
    hide PaletteForms;
  }

  lemma {:induction false} EntriesLength(p: Palette)
    requires Writable(p)
    ensures |Entries(p)| <= 33 * |p|
  {
    if |p| > 1 {
      EntriesLength(p[1..]);
    }
  }

  // ---- Reading it back ----

  lemma EarlyRoleIsKeyword(i: nat)
    requires i < 11
    ensures LowerKeyword(PALETTE_ROLES[i]) && |PALETTE_ROLES[i]| <= 18
  {
    if i < 6 {
    } else {
    }
  }

  lemma LateRoleIsKeyword(i: nat)
    requires 11 <= i < |PALETTE_ROLES|
    ensures LowerKeyword(PALETTE_ROLES[i]) && |PALETTE_ROLES[i]| <= 18
  {
    if i < 16 {
    } else {
    }
  }

  lemma RoleIsKeyword(i: nat)
    requires i < |PALETTE_ROLES|
    ensures LowerKeyword(PALETTE_ROLES[i]) && |PALETTE_ROLES[i]| <= 18
  {
    hide LowerKeyword;
    if i < 11 {
      EarlyRoleIsKeyword(i);
    } else {
      LateRoleIsKeyword(i);
    }
  }

  lemma PaletteIsWritable(p: Palette)
    requires ValidPalette(p, PALETTE_ROLES)
    ensures Writable(p)
  {
    forall i | 0 <= i < |p|
      ensures LowerKeyword(p[i].0) && |p[i].0| <= 18
    {
      RoleIsKeyword(i);
    }
  }

  predicate Held(m: map<string, Form>, p: Palette) {
    forall i :: 0 <= i < |p| ==> p[i].0 in m && m[p[i].0] == Text(p[i].1)
  }

  predicate NewRoles(p: Palette, got: map<string, Form>, allowed: seq<string>) {
    && (forall i :: 0 <= i < |p| ==> p[i].0 in allowed && p[i].0 !in got)
    && (forall i, j :: 0 <= i < j < |p| ==> p[i].0 != p[j].0)
  }

  /** The written pairs are gathered under their roles, on top of those already there. */
  lemma {:induction false} PairsUp(p: Palette, allowed: seq<string>, got: map<string, Form>)
    requires NewRoles(p, got, allowed)
    ensures |PaletteForms(p)| % 2 == 0
    ensures var r := PairUp(PaletteForms(p), allowed, got);
      r.Ok? && Held(r.value, p) && forall k :: k in got ==> k in r.value && r.value[k] == got[k]
    decreases |p|
  {
    PaletteFormsMeasure(p);
    if p != [] {
      var next := got[p[0].0 := Text(p[0].1)];
      assert PaletteForms(p)[2..] == PaletteForms(p[1..]);
      forall i | 0 <= i < |p[1..]|
        ensures p[1..][i].0 in allowed && p[1..][i].0 !in next
      {
        assert p[1..][i] == p[i + 1];
      }
      PairsUp(p[1..], allowed, next);
      var r := PairUp(PaletteForms(p), allowed, got);
      assert r == PairUp(PaletteForms(p[1..]), allowed, next);
      forall i | 0 <= i < |p|
        ensures p[i].0 in r.value && r.value[p[i].0] == Text(p[i].1)
      {
        if i > 0 {
          assert p[1..][i - 1] == p[i];
        } else {
          assert p[0].0 in next;
        }
      }
    }
  }

  lemma ColorIsRead(s: string)
    requires CanonicalRgb(s)
    ensures RgbOf(Text(s)) == Ok(s)
  {
    UpperHexIsCanonical(s);
    assert forall i :: 1 <= i < 7 ==> HexDigit(s[i]);
  }

  lemma {:induction false} ColorsAreRead(values: map<string, Form>, p: Palette, roles: seq<string>)
    requires ValidPalette(p, roles) && Held(values, p)
    ensures forall k :: k in roles ==> k in values
    ensures ColorsOf(values, roles) == Ok(p)
  {
    hide RgbOf, CanonicalRgb;
    forall k | k in roles
      ensures k in values
    {
      var i :| 0 <= i < |roles| && roles[i] == k;
      assert p[i].0 == k;
    }
    if p == [] {
      assert roles == [];
    } else {
      assert p[0].0 == roles[0];
      ColorIsRead(p[0].1);
      ColorsAreRead(values, p[1..], roles[1..]);
      assert [p[0]] + p[1..] == p;
    }
  }

  lemma RolesAreNew(p: Palette)
    requires ValidPalette(p, PALETTE_ROLES)
    ensures NewRoles(p, map[], PALETTE_ROLES) && |p| == 22
  {
    CatalogTsv.RolesAreWords();
    assert |PALETTE_ROLES| == 22;
    hide PALETTE_ROLES, CanonicalRgb;
    forall i | 0 <= i < |p|
      ensures p[i].0 in PALETTE_ROLES
    {
      assert p[i].0 == PALETTE_ROLES[i];
    }
    forall i, j | 0 <= i < j < |p|
      ensures p[i].0 != p[j].0
    {
      assert p[i].0 == PALETTE_ROLES[i] && p[j].0 == PALETTE_ROLES[j];
    }
  }

  lemma PaletteIsGathered(p: Palette)
    requires ValidPalette(p, PALETTE_ROLES)
    ensures var r := Plist(List(PaletteForms(p)), PALETTE_ROLES, PALETTE_ROLES); r.Ok? && Held(r.value, p)
  {
    RolesAreNew(p);
    PaletteFormsMeasure(p);
    assert |PALETTE_ROLES| == 22;
    hide PairUp, CanonicalRgb, PaletteForms, PALETTE_ROLES, NewRoles, CountAll, HeightAll;
    PairsUp(p, PALETTE_ROLES, map[]);
    var m := PairUp(PaletteForms(p), PALETTE_ROLES, map[]).value;
    forall k | k in PALETTE_ROLES
      ensures k in m
    {
      var i :| 0 <= i < |PALETTE_ROLES| && PALETTE_ROLES[i] == k;
      assert p[i].0 == k;
    }
  }

  lemma PaletteIsRead(p: Palette)
    requires ValidPalette(p, PALETTE_ROLES)
    ensures PaletteOf(List(PaletteForms(p))) == Ok(p)
  {
    hide Plist, PaletteForms, ColorsOf, PALETTE_ROLES, ValidPalette, Held;
    PaletteIsGathered(p);
    ColorsAreRead(Plist(List(PaletteForms(p)), PALETTE_ROLES, PALETTE_ROLES).value, p, PALETTE_ROLES);
  }

  lemma AppearanceIsRead(palette: Form)
    ensures AppearanceOf(List([Keyword("version"), Integer(2), Keyword("palette"), palette])) == PaletteOf(palette)
  {
    hide PaletteOf;
    var forms := [Keyword("version"), Integer(2), Keyword("palette"), palette];
    var m1: map<string, Form> := map["version" := Integer(2)];
    assert forms[2..] == [Keyword("palette"), palette];
    assert PairUp(forms[2..], APPEARANCE_KEYS, m1) == Ok(m1["palette" := palette]) by {
      assert APPEARANCE_KEYS[2] == "palette";
      assert forms[2..][2..] == [];
    }
    assert APPEARANCE_KEYS[0] == "version";
    assert PairUp(forms, APPEARANCE_KEYS, map[]) == Ok(m1["palette" := palette]);
  }

  lemma NewlineShows()
    ensures ShowGap([Space('\n')]) == "\n" && ShowGap([]) == ""
    ensures ValidGap([Space('\n')], "") && forall after :: ValidGap([], after)
  {
    assert [Space('\n')][1..] == [];
  }

  lemma Framed(text: string)
    ensures "" + text + "\n" == text + "\n"
  {
  }

  /** The saved text is read as the form that was shown. */
  lemma AppearanceSourceIsRead(p: Palette)
    requires Writable(p)
    requires |EncodePalette(p)| <= MAXIMUM_CATALOG_BYTES
    requires Height(Meaning(AppearanceNode(p))) <= MAXIMUM_DEPTH && Count(Meaning(AppearanceNode(p))) <= MAXIMUM_NODES
    ensures ReadSource(EncodePalette(p)) == Ok(Meaning(AppearanceNode(p)))
  {
    assert AppearanceNode(p).Node?;
    hide Show, ShowGap, ValidGap, AppearanceNode, ValidSyntax, EncodePalette, Count, Height, ReadSource, Writable, Meaning;
    AppearanceShows(p);
    AppearanceIsValidSyntax(p);
    NewlineShows();
    Framed(Show(AppearanceNode(p)));
    ReaderUndoesPrinter([], AppearanceNode(p), [Space('\n')]);
  }

  lemma AppearanceFits(p: Palette)
    requires ValidPalette(p, PALETTE_ROLES)
    ensures Writable(p) && |p| == 22 && |EncodePalette(p)| <= MAX_APPEARANCE_BYTES
  {
    PaletteIsWritable(p);
    EntriesLength(p);
    RolesAreNew(p);
  }

  /** Reading a saved appearance gives back the palette that was saved, and the file fits the bound it is read with. */
  lemma AppearanceRoundTrip(p: Palette)
    requires ValidPalette(p, PALETTE_ROLES)
    ensures ParseAppearanceOverride(EncodePalette(p)) == Ok(p)
    ensures |EncodePalette(p)| <= MAX_APPEARANCE_BYTES
  {
    AppearanceFits(p);
    AppearanceMeasure(p);
    AppearanceIsValidSyntax(p);
    PaletteIsRead(p);
    AppearanceIsRead(List(PaletteForms(p)));
    hide EncodePalette, AppearanceNode, ValidSyntax, PaletteForms, AppearanceOf, Count, Height, ReadSource, PaletteOf,
      PALETTE_ROLES, NewRoles, ValidPalette, Writable, Meaning;
    AppearanceSourceIsRead(p);
  }
}
