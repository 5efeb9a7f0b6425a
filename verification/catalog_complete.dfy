/**
 Every catalog the schema allows can be written: its form, printed plainly, is accepted by `parse_catalog` and gives back
 the catalog (`native/src/catalog.rs`).
 */
module CatalogComplete {
  import opened Wrappers
  import opened CatalogMetadata
  import opened CatalogReader
  import opened CatalogSyntax
  import opened CatalogRoundTrip
  import opened CatalogSchema
  import CatalogAppearance

  type Pairs = seq<(string, Form)>

  /** Keys and values in turn. */
  function Flat(ps: Pairs): (forms: seq<Form>)
    ensures |forms| == 2 * |ps|
  {
    if ps == [] then [] else [Keyword(ps[0].0), ps[0].1] + Flat(ps[1..])
  }

  function GamePairs(g: CatalogGame): Pairs {
    [("id", Text(g.id)), ("title", Text(g.title)), ("system", Keyword(g.system)), ("rom", Text(g.rom)), ("color", Text(g.color))]
  }

  function GameForm(g: CatalogGame): Form {
    List(Flat(GamePairs(g)))
  }

  function GameForms(games: seq<CatalogGame>): (forms: seq<Form>)
    ensures |forms| == |games|
  {
    if games == [] then [] else [GameForm(games[0])] + GameForms(games[1..])
  }

  function CatalogPairs(c: Catalog): Pairs {
    [("version", Integer(7)), ("palette", List(CatalogAppearance.PaletteForms(c.palette))), ("games", List(GameForms(c.games)))]
  }

  function CatalogForm(c: Catalog): Form {
    List(Flat(CatalogPairs(c)))
  }

  /** A source for the catalog. */
  function Source(c: Catalog): string {
    Show(Plain(CatalogForm(c)))
  }

  // ---- Property lists ----

  predicate Held(m: map<string, Form>, ps: Pairs) {
    forall i :: 0 <= i < |ps| ==> ps[i].0 in m && m[ps[i].0] == ps[i].1
  }

  predicate NewKeys(ps: Pairs, got: map<string, Form>, allowed: seq<string>) {
    && (forall i :: 0 <= i < |ps| ==> ps[i].0 in allowed && ps[i].0 !in got)
    && (forall i, j :: 0 <= i < j < |ps| ==> ps[i].0 != ps[j].0)
  }

  ghost predicate Gathered(r: Result<map<string, Form>, SchemaError>, ps: Pairs, got: map<string, Form>) {
    r.Ok? && Held(r.value, ps) && forall k :: k in got ==> k in r.value && r.value[k] == got[k]
  }

  lemma NewKeysGoOn(ps: Pairs, got: map<string, Form>, allowed: seq<string>)
    requires ps != [] && NewKeys(ps, got, allowed)
    ensures NewKeys(ps[1..], got[ps[0].0 := ps[0].1], allowed)
  {
    forall i | 0 <= i < |ps[1..]|
      ensures ps[1..][i].0 in allowed && ps[1..][i].0 !in got && ps[1..][i].0 != ps[0].0
    {
      assert ps[1..][i] == ps[i + 1];
    }
  }

  lemma HeldGrows(m: map<string, Form>, ps: Pairs)
    requires ps != [] && Held(m, ps[1..]) && ps[0].0 in m && m[ps[0].0] == ps[0].1
    ensures Held(m, ps)
  {
    forall i | 0 <= i < |ps|
      ensures ps[i].0 in m && m[ps[i].0] == ps[i].1
    {
      if i > 0 {
        assert ps[1..][i - 1] == ps[i];
      }
    }
  }

  lemma PairUpFirst(ps: Pairs, allowed: seq<string>, got: map<string, Form>)
    requires ps != [] && NewKeys(ps, got, allowed)
    ensures PairUp(Flat(ps), allowed, got) == PairUp(Flat(ps[1..]), allowed, got[ps[0].0 := ps[0].1])
  {
    assert Flat(ps)[2..] == Flat(ps[1..]);
  }

  lemma {:induction false} PairsUp(ps: Pairs, allowed: seq<string>, got: map<string, Form>)
    requires NewKeys(ps, got, allowed)
    ensures Gathered(PairUp(Flat(ps), allowed, got), ps, got)
    decreases |ps|
  {
    if ps != [] {
      var next := got[ps[0].0 := ps[0].1];
      NewKeysGoOn(ps, got, allowed);
      PairUpFirst(ps, allowed, got);
      assert ps[0].0 !in got;
      hide PairUp, Flat, NewKeys;
      PairsUp(ps[1..], allowed, next);
      assert ps[0].0 in next;
      HeldGrows(PairUp(Flat(ps), allowed, got).value, ps);
    }
  }

  predicate KeysOf(ps: Pairs, keys: seq<string>) {
    |ps| == |keys| && forall i :: 0 <= i < |ps| ==> ps[i].0 == keys[i]
  }

  predicate Different(keys: seq<string>) {
    forall i, j :: 0 <= i < j < |keys| ==> keys[i] != keys[j]
  }

  lemma PlistIsRead(ps: Pairs, keys: seq<string>)
    requires keys != [] && KeysOf(ps, keys) && Different(keys)
    ensures Plist(List(Flat(ps)), keys, keys).Ok? && Held(Plist(List(Flat(ps)), keys, keys).value, ps)
  {
    forall i | 0 <= i < |ps|
      ensures ps[i].0 in keys
    {
      assert keys[i] == ps[i].0;
    }
    PairsUp(ps, keys, map[]);
    hide PairUp, Flat;
    var m := PairUp(Flat(ps), keys, map[]).value;
    forall k | k in keys
      ensures k in m
    {
      var i :| 0 <= i < |keys| && keys[i] == k;
      assert ps[i].0 == k;
    }
  }

  // ---- Games ----

  lemma GameKeysDiffer(g: CatalogGame)
    ensures Different(GAME_KEYS) && KeysOf(GamePairs(g), GAME_KEYS)
  {
  }

  lemma ColorIsRead(g: CatalogGame)
    requires ValidGame(g)
    ensures GameColorOf(Text(g.color)) == Ok(g.color)
  {
    hide ValidRom, ValidId, Xterm, ColorValue;
    CatalogAppearance.ColorIsRead(g.color);
  }

  predicate Fields(m: map<string, Form>, g: CatalogGame) {
    && (forall k :: k in GAME_KEYS ==> k in m)
    && m["id"] == Text(g.id) && m["title"] == Text(g.title) && m["system"] == Keyword(g.system)
    && m["rom"] == Text(g.rom) && m["color"] == Text(g.color)
  }

  lemma FieldsAreRead(g: CatalogGame)
    ensures Plist(GameForm(g), GAME_KEYS, GAME_KEYS).Ok? && Fields(Plist(GameForm(g), GAME_KEYS, GAME_KEYS).value, g)
  {
    GameKeysDiffer(g);
    PlistIsRead(GamePairs(g), GAME_KEYS);
    var ps := GamePairs(g);
    assert ps[0] == ("id", Text(g.id)) && ps[1] == ("title", Text(g.title)) && ps[2] == ("system", Keyword(g.system))
           && ps[3] == ("rom", Text(g.rom)) && ps[4] == ("color", Text(g.color));
    hide GamePairs, Flat;
  }

  lemma GameIsRead(g: CatalogGame)
    requires ValidGame(g)
    ensures GameOf(GameForm(g)) == Ok(g)
  {
    FieldsAreRead(g);
    ColorIsRead(g);
    hide Plist, ValidRom, ValidId, TrimmedTitle, PrintableText, GameColorOf, ParseSystem, GameForm, RomSuffix, Xterm,
      CanonicalRgb;
  }

  lemma FirstGame(forms: seq<Form>, g: CatalogGame, rest: seq<CatalogGame>)
    requires forms != [] && GameOf(forms[0]) == Ok(g) && GamesOf(forms[1..]) == Ok(rest)
    ensures GamesOf(forms) == Ok([g] + rest)
  {
    hide GameOf;
  }

  lemma FormsOfGames(games: seq<CatalogGame>)
    requires games != []
    ensures var forms := GameForms(games);
      forms != [] && forms[0] == GameForm(games[0]) && forms[1..] == GameForms(games[1..])
  {
    hide GameForm;
  }

  lemma {:induction false} GamesAreRead(games: seq<CatalogGame>)
    requires forall i :: 0 <= i < |games| ==> ValidGame(games[i])
    ensures GamesOf(GameForms(games)) == Ok(games)
    decreases |games|
  {
    hide GameOf, ValidGame, GameForm;
    if games != [] {
      GameIsRead(games[0]);
      GamesAreRead(games[1..]);
      FormsOfGames(games);
      hide GameForms, GamesOf;
      FirstGame(GameForms(games), games[0], games[1..]);
      assert [games[0]] + games[1..] == games;
    }
  }

  lemma CatalogKeysDiffer(c: Catalog)
    ensures Different(CATALOG_KEYS) && KeysOf(CatalogPairs(c), CATALOG_KEYS)
  {
  }

  lemma CatalogIsRead(c: Catalog)
    requires ValidCatalog(c)
    ensures CatalogOf(CatalogForm(c)) == Ok(c)
  {
    CatalogKeysDiffer(c);
    PlistIsRead(CatalogPairs(c), CATALOG_KEYS);
    GamesAreRead(c.games);
    CatalogAppearance.PaletteIsRead(c.palette);
    var m := Plist(CatalogForm(c), CATALOG_KEYS, CATALOG_KEYS).value;
    var ps := CatalogPairs(c);
    assert ps[0].0 == "version" && ps[1].0 == "palette" && ps[2].0 == "games";
    assert m["version"] == Integer(7) && m["games"] == List(GameForms(c.games))
           && m["palette"] == List(CatalogAppearance.PaletteForms(c.palette));
    hide Plist, GamesOf, PaletteOf, ValidGame, ValidPalette, GameForms, CatalogAppearance.PaletteForms, Flat, CatalogPairs,
      DistinctIds, DistinctRoms;
  }

  // ---- The printed catalog ----

  lemma {:induction false} TwoPlain(a: Form, b: Form, rest: seq<Form>)
    ensures AllPrintable([a, b] + rest) == (CatalogSyntax.Printable(a) && CatalogSyntax.Printable(b) && AllPrintable(rest))
    ensures |ShowItems(PlainItems([a, b] + rest))|
         == 2 + |Show(Plain(a))| + |Show(Plain(b))| + |ShowItems(PlainItems(rest))|
  {
    var forms := [a, b] + rest;
    assert forms[1..] == [b] + rest && forms[1..][1..] == rest;
    OnePlain(a, [b] + rest);
    OnePlain(b, rest);
    assert [a] + ([b] + rest) == forms;
    hide CatalogSyntax.Printable, Show, Plain;
    assert AllPrintable([b] + rest) == (CatalogSyntax.Printable(b) && AllPrintable(rest));
  }

  lemma {:induction false} OnePlain(a: Form, rest: seq<Form>)
    ensures |ShowItems(PlainItems([a] + rest))| == 1 + |Show(Plain(a))| + |ShowItems(PlainItems(rest))|
  {
    var forms := [a] + rest;
    assert forms[1..] == rest;
    var items := PlainItems(forms);
    assert items == [Item([Space(' ')], Plain(a))] + PlainItems(rest);
    assert items[1..] == PlainItems(rest);
    assert ShowGap([Space(' ')]) == " " by {
      assert [Space(' ')][1..] == [];
    }
    hide Show, Plain, PlainItems;
  }

  lemma {:induction false} ListSize(forms: seq<Form>)
    ensures |Show(Plain(List(forms)))| == 2 + |ShowItems(PlainItems(forms))|
  {
    assert ShowGap([]) == "";
  }

  lemma {:induction false} EscapeAtMostDoubles(v: string)
    ensures |Escape(v)| <= 2 * |v|
  {
    if v != "" {
      EscapeAtMostDoubles(v[1..]);
    }
  }

  lemma {:induction false} PathsAreNotEscaped(v: string)
    requires forall i :: 0 <= i < |v| ==> RomChar(v[i])
    ensures Escape(v) == v
  {
    if v != "" {
      PathsAreNotEscaped(v[1..]);
      assert RomChar(v[0]);
      assert [v[0]] + v[1..] == v;
    }
  }

  lemma AtomSizes(v: string)
    ensures |Show(Plain(Text(v)))| == |Escape(v)| + 2 && |Show(Plain(Keyword(v)))| == |v| + 1
    ensures CatalogSyntax.Printable(Text(v)) && (CatalogSyntax.Printable(Keyword(v)) <==> LowerKeyword(v))
  {
    hide Escape, LowerKeyword;
  }

  lemma KeysAreLower()
    ensures LowerKeyword("id") && LowerKeyword("title") && LowerKeyword("system") && LowerKeyword("rom") && LowerKeyword("color")
    ensures LowerKeyword("version") && LowerKeyword("palette") && LowerKeyword("games")
  {
  }

  lemma SystemIsLower(system: string)
    requires ParseSystem(system).Some?
    ensures LowerKeyword(system) && |system| <= 4
  {
  }

  lemma {:induction false} FlatFirst(ps: Pairs)
    requires ps != []
    ensures Flat(ps) == [Keyword(ps[0].0), ps[0].1] + Flat(ps[1..])
  {
  }

  /** The printing of one pair, by the size of its value. */
  lemma {:induction false} PairPrints(ps: Pairs)
    requires ps != [] && LowerKeyword(ps[0].0)
    ensures AllPrintable(Flat(ps)) == (CatalogSyntax.Printable(ps[0].1) && AllPrintable(Flat(ps[1..])))
    ensures |ShowItems(PlainItems(Flat(ps)))|
         == 3 + |ps[0].0| + |Show(Plain(ps[0].1))| + |ShowItems(PlainItems(Flat(ps[1..])))|
  {
    FlatFirst(ps);
    TwoPlain(Keyword(ps[0].0), ps[0].1, Flat(ps[1..]));
    AtomSizes(ps[0].0);
    hide Flat, Show, Plain, LowerKeyword, CatalogSyntax.Printable;
  }

  lemma NothingPrints()
    ensures AllPrintable(Flat([])) && |ShowItems(PlainItems(Flat([])))| == 0
  {
  }

  /** The printing of five pairs. */
  lemma {:induction false} FivePairsPrint(ps: Pairs)
    requires |ps| == 5 && forall i :: 0 <= i < 5 ==> LowerKeyword(ps[i].0) && CatalogSyntax.Printable(ps[i].1)
    ensures AllPrintable(Flat(ps))
    ensures |ShowItems(PlainItems(Flat(ps)))|
         == 15 + |ps[0].0| + |ps[1].0| + |ps[2].0| + |ps[3].0| + |ps[4].0|
            + |Show(Plain(ps[0].1))| + |Show(Plain(ps[1].1))| + |Show(Plain(ps[2].1))| + |Show(Plain(ps[3].1))|
            + |Show(Plain(ps[4].1))|
  {
    hide Flat, Show, Plain, LowerKeyword, CatalogSyntax.Printable, ShowItems, PlainItems, AllPrintable;
    PairPrints(ps);
    PairPrints(ps[1..]);
    assert ps[1..][1..] == ps[2..] && ps[2..][1..] == ps[3..] && ps[3..][1..] == ps[4..] && ps[4..][1..] == [];
    PairPrints(ps[2..]);
    PairPrints(ps[3..]);
    PairPrints(ps[4..]);
    NothingPrints();
  }

  /** The sizes of a game's values. */
  lemma GameValuesPrint(g: CatalogGame)
    requires ValidGame(g)
    ensures |Show(Plain(Text(g.id)))| <= 66 && |Show(Plain(Text(g.title)))| <= 98 && |Show(Plain(Keyword(g.system)))| <= 5
    ensures |Show(Plain(Text(g.rom)))| <= 514 && |Show(Plain(Text(g.color)))| <= 16
    ensures CatalogSyntax.Printable(Text(g.id)) && CatalogSyntax.Printable(Text(g.title))
    ensures CatalogSyntax.Printable(Keyword(g.system))
    ensures CatalogSyntax.Printable(Text(g.rom)) && CatalogSyntax.Printable(Text(g.color))
  {
    SystemIsLower(g.system);
    assert |g.id| <= 32 && |g.title| <= 48 && |g.rom| <= 512 && |g.color| == 7;
    EscapeAtMostDoubles(g.id);
    EscapeAtMostDoubles(g.title);
    EscapeAtMostDoubles(g.color);
    PathsAreNotEscaped(g.rom);
    AtomSizes(g.id);
    AtomSizes(g.title);
    AtomSizes(g.system);
    AtomSizes(g.rom);
    AtomSizes(g.color);
    hide Show, Plain, LowerKeyword, ValidGame, Escape, CatalogSyntax.Printable, RomChar;
  }

  lemma GamePrints(g: CatalogGame)
    requires ValidGame(g)
    ensures CatalogSyntax.Printable(GameForm(g)) && |Show(Plain(GameForm(g)))| <= 760
  {
    KeysAreLower();
    var ps := GamePairs(g);
    assert ps[0] == ("id", Text(g.id)) && ps[1] == ("title", Text(g.title)) && ps[2] == ("system", Keyword(g.system))
           && ps[3] == ("rom", Text(g.rom)) && ps[4] == ("color", Text(g.color)) && |ps| == 5;
    assert GameForm(g) == List(Flat(ps));
    hide GamePairs, GameForm, Flat, Show, Plain, LowerKeyword, ValidGame, ShowItems, PlainItems, AllPrintable;
    assert CatalogSyntax.Printable(List(Flat(ps))) == AllPrintable(Flat(ps));
    hide CatalogSyntax.Printable;
    GameValuesPrint(g);
    FivePairsPrint(ps);
    ListSize(Flat(ps));
  }

  lemma {:induction false} GamesPrint(games: seq<CatalogGame>)
    requires forall i :: 0 <= i < |games| ==> ValidGame(games[i])
    ensures AllPrintable(GameForms(games)) && |ShowItems(PlainItems(GameForms(games)))| <= 761 * |games|
    decreases |games|
  {
    hide ValidGame, GameForm, Show, Plain, CatalogSyntax.Printable;
    if games != [] {
      GamePrints(games[0]);
      GamesPrint(games[1..]);
      OnePlain(GameForm(games[0]), GameForms(games[1..]));
      assert GameForms(games)[1..] == GameForms(games[1..]);
    } else {
      assert PlainItems([]) == [];
    }
  }

  lemma {:induction false} PalettePrints(p: CatalogAppearance.Palette)
    requires CatalogAppearance.Writable(p)
    ensures AllPrintable(CatalogAppearance.PaletteForms(p))
    ensures |ShowItems(PlainItems(CatalogAppearance.PaletteForms(p)))| <= 37 * |p|
    decreases |p|
  {
    if p != [] {
      PalettePrints(p[1..]);
      AtomSizes(p[0].0);
      AtomSizes(p[0].1);
      EscapeAtMostDoubles(p[0].1);
      assert |p[0].1| == 7 && |p[0].0| <= 18 && LowerKeyword(p[0].0);
      hide Show, Plain, LowerKeyword, CanonicalRgb, CatalogSyntax.Printable;
      TwoPlain(Keyword(p[0].0), Text(p[0].1), CatalogAppearance.PaletteForms(p[1..]));
    } else {
      assert PlainItems([]) == [];
    }
  }

  lemma {:induction false} ThreePairsPrint(ps: Pairs)
    requires |ps| == 3 && forall i :: 0 <= i < 3 ==> LowerKeyword(ps[i].0) && CatalogSyntax.Printable(ps[i].1)
    ensures AllPrintable(Flat(ps))
    ensures |ShowItems(PlainItems(Flat(ps)))|
         == 9 + |ps[0].0| + |ps[1].0| + |ps[2].0|
            + |Show(Plain(ps[0].1))| + |Show(Plain(ps[1].1))| + |Show(Plain(ps[2].1))|
  {
    hide Flat, Show, Plain, LowerKeyword, CatalogSyntax.Printable, ShowItems, PlainItems, AllPrintable;
    PairPrints(ps);
    PairPrints(ps[1..]);
    assert ps[1..][1..] == ps[2..] && ps[2..][1..] == [];
    PairPrints(ps[2..]);
    NothingPrints();
  }

  lemma PaletteValuePrints(palette: CatalogAppearance.Palette)
    requires ValidPalette(palette, PALETTE_ROLES)
    ensures var f := List(CatalogAppearance.PaletteForms(palette)); CatalogSyntax.Printable(f) && |Show(Plain(f))| <= 816
  {
    CatalogAppearance.PaletteIsWritable(palette);
    CatalogAppearance.RolesAreNew(palette);
    PalettePrints(palette);
    ListSize(CatalogAppearance.PaletteForms(palette));
    hide Show, Plain, ShowItems, PlainItems, AllPrintable, CatalogAppearance.PaletteForms, ValidPalette,
      CatalogAppearance.Writable, CatalogAppearance.NewRoles, PALETTE_ROLES;
  }

  lemma GamesValuePrints(games: seq<CatalogGame>)
    requires |games| <= 64 && forall i :: 0 <= i < |games| ==> ValidGame(games[i])
    ensures var f := List(GameForms(games)); CatalogSyntax.Printable(f) && |Show(Plain(f))| <= 48706
  {
    GamesPrint(games);
    ListSize(GameForms(games));
    hide Show, Plain, ShowItems, PlainItems, AllPrintable, GameForms, ValidGame;
  }

  /** The sizes of a catalog's values. */
  lemma CatalogValuesPrint(c: Catalog)
    requires ValidCatalog(c)
    ensures var palette, games := List(CatalogAppearance.PaletteForms(c.palette)), List(GameForms(c.games));
      && CatalogSyntax.Printable(palette) && |Show(Plain(palette))| <= 816
      && CatalogSyntax.Printable(games) && |Show(Plain(games))| <= 48706
    ensures CatalogSyntax.Printable(Integer(7)) && |Show(Plain(Integer(7)))| == 1
  {
    assert |Show(Plain(Integer(7)))| == 1 && CatalogSyntax.Printable(Integer(7));
    hide Show, Plain, CatalogSyntax.Printable, GameForms, CatalogAppearance.PaletteForms, ValidGame, ValidPalette,
      DistinctIds, DistinctRoms;
    PaletteValuePrints(c.palette);
    GamesValuePrints(c.games);
  }

  lemma CatalogPrints(c: Catalog)
    requires ValidCatalog(c)
    ensures CatalogSyntax.Printable(CatalogForm(c)) && |Source(c)| <= MAXIMUM_CATALOG_BYTES
  {
    KeysAreLower();
    var ps := CatalogPairs(c);
    assert ps[0] == ("version", Integer(7)) && ps[1] == ("palette", List(CatalogAppearance.PaletteForms(c.palette)))
           && ps[2] == ("games", List(GameForms(c.games))) && |ps| == 3;
    assert CatalogForm(c) == List(Flat(ps));
    hide CatalogPairs, CatalogForm, Flat, Show, Plain, LowerKeyword, ValidCatalog, ShowItems, PlainItems, AllPrintable, GameForms,
      CatalogAppearance.PaletteForms;
    assert CatalogSyntax.Printable(List(Flat(ps))) == AllPrintable(Flat(ps));
    hide CatalogSyntax.Printable;
    CatalogValuesPrint(c);
    ThreePairsPrint(ps);
    ListSize(Flat(ps));
  }

  // ---- Its nodes ----

  lemma {:induction false} PairMeasures(ps: Pairs)
    requires ps != []
    ensures CountAll(Flat(ps)) == 1 + Count(ps[0].1) + CountAll(Flat(ps[1..]))
    ensures HeightAll(Flat(ps)) == Max(1, Max(1 + Height(ps[0].1), HeightAll(Flat(ps[1..]))))
  {
    FlatFirst(ps);
    CatalogAppearance.TwoMeasure(Keyword(ps[0].0), ps[0].1, Flat(ps[1..]));
    hide Flat;
  }

  lemma NothingMeasures()
    ensures CountAll(Flat([])) == 0 && HeightAll(Flat([])) == 0
  {
  }

  lemma GameMeasures(g: CatalogGame)
    ensures Count(GameForm(g)) == 11 && Height(GameForm(g)) == 1
  {
    var ps := GamePairs(g);
    assert Count(GameForm(g)) == 1 + CountAll(Flat(ps)) && Height(GameForm(g)) == HeightAll(Flat(ps));
    hide Flat, CountAll, HeightAll;
    PairMeasures(ps);
    PairMeasures(ps[1..]);
    assert ps[1..][1..] == ps[2..] && ps[2..][1..] == ps[3..] && ps[3..][1..] == ps[4..] && ps[4..][1..] == [];
    PairMeasures(ps[2..]);
    PairMeasures(ps[3..]);
    PairMeasures(ps[4..]);
    NothingMeasures();
  }

  lemma {:induction false} GamesMeasure(games: seq<CatalogGame>)
    ensures CountAll(GameForms(games)) == 11 * |games| && HeightAll(GameForms(games)) <= 2
    decreases |games|
  {
    if games != [] {
      GameMeasures(games[0]);
      GamesMeasure(games[1..]);
      assert GameForms(games)[1..] == GameForms(games[1..]);
      hide GameForm;
    }
  }

  lemma {:induction false} ThreePairsMeasure(ps: Pairs)
    requires |ps| == 3
    ensures CountAll(Flat(ps)) == 3 + Count(ps[0].1) + Count(ps[1].1) + Count(ps[2].1)
    ensures HeightAll(Flat(ps)) <= Max(1, Max(1 + Height(ps[0].1), Max(1 + Height(ps[1].1), 1 + Height(ps[2].1))))
  {
    hide Flat, CountAll, HeightAll, Count, Height;
    PairMeasures(ps);
    PairMeasures(ps[1..]);
    assert ps[1..][1..] == ps[2..] && ps[2..][1..] == [];
    PairMeasures(ps[2..]);
    NothingMeasures();
  }

  lemma {:induction false} ListMeasures(forms: seq<Form>)
    ensures Count(List(forms)) == 1 + CountAll(forms) && Height(List(forms)) == HeightAll(forms)
  {
  }

  lemma ValuesMeasure(c: Catalog)
    requires ValidCatalog(c)
    ensures var palette, games := List(CatalogAppearance.PaletteForms(c.palette)), List(GameForms(c.games));
      Count(palette) == 45 && Height(palette) <= 1 && Count(games) <= 705 && Height(games) <= 2
  {
    CatalogAppearance.RolesAreNew(c.palette);
    assert 1 <= |c.games| <= 64;
    CatalogAppearance.PaletteFormsMeasure(c.palette);
    GamesMeasure(c.games);
    ListMeasures(CatalogAppearance.PaletteForms(c.palette));
    ListMeasures(GameForms(c.games));
    hide CountAll, HeightAll, Count, Height, GameForms, CatalogAppearance.PaletteForms, ValidCatalog,
      CatalogAppearance.NewRoles;
  }

  predicate SmallValues(ps: Pairs) {
    && |ps| == 3
    && Count(ps[0].1) <= 1 && Count(ps[1].1) <= 45 && Count(ps[2].1) <= 705
    && Height(ps[0].1) <= 2 && Height(ps[1].1) <= 2 && Height(ps[2].1) <= 2
  }

  lemma {:induction false} SmallValuesMeasure(ps: Pairs)
    requires SmallValues(ps)
    ensures CountAll(Flat(ps)) <= 754 && HeightAll(Flat(ps)) <= 3
  {
    ThreePairsMeasure(ps);
    hide Flat, CountAll, HeightAll, Count, Height;
  }

  lemma CatalogValuesAreSmall(c: Catalog)
    requires ValidCatalog(c)
    ensures SmallValues(CatalogPairs(c))
  {
    ValuesMeasure(c);
    assert Count(Integer(7)) == 1 && Height(Integer(7)) == 0;
    hide Count, Height, GameForms, CatalogAppearance.PaletteForms, ValidCatalog;
  }

  lemma CatalogMeasures(c: Catalog)
    requires ValidCatalog(c)
    ensures Count(CatalogForm(c)) <= MAXIMUM_NODES && Height(CatalogForm(c)) <= MAXIMUM_DEPTH
  {
    hide CatalogPairs, Flat, CountAll, HeightAll, Count, Height, ValidCatalog, SmallValues;
    CatalogValuesAreSmall(c);
    SmallValuesMeasure(CatalogPairs(c));
    ListMeasures(Flat(CatalogPairs(c)));
  }

  /** Every valid catalog has a source that is accepted and means it. */
  lemma ValidCatalogsAreAccepted(c: Catalog)
    requires ValidCatalog(c)
    ensures ParseCatalog(Source(c)) == Ok(c)
  {
    CatalogPrints(c);
    CatalogMeasures(c);
    CatalogIsRead(c);
    hide CatalogForm, Show, Plain, CatalogSyntax.Printable, Count, Height, CatalogOf, ValidCatalog, ReadSource;
    PlainRoundTrip(CatalogForm(c));
  }

  /** So the catalogs that sources can mean are exactly the valid ones. */
  lemma AcceptedExactlyWhenValid(c: Catalog)
    ensures (exists source :: ParseCatalog(source) == Ok(c)) <==> ValidCatalog(c)
  {
    hide ParseCatalog, ValidCatalog, Source;
    if ValidCatalog(c) {
      ValidCatalogsAreAccepted(c);
    }
    if exists source :: ParseCatalog(source) == Ok(c) {
      var source :| ParseCatalog(source) == Ok(c);
      ParsedCatalogIsValid(source);
    }
  }
}
