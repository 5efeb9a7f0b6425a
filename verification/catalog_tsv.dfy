/**
 The compiled catalog: the two files the compiler writes (`native/src/catalog.rs`) and the two loaders the dashboard reads
 them with (`native/src/dashboard/policy.rs`).
 */
module CatalogTsv {
  import opened Wrappers
  import opened CatalogMetadata
  import opened CatalogSchema
  import opened TextRows

  const MAX_MANIFEST_BYTES: nat := 65536
  const MAX_PALETTE_BYTES: nat := 4096

  // ---- Writing ----

  function GameFields(g: CatalogGame): seq<string> {
    [g.id, g.title, g.system, g.rom, g.color]
  }

  function GameRow(g: CatalogGame): string {
    Join(GameFields(g), '\t')
  }

  function GameRows(games: seq<CatalogGame>): (rows: seq<string>)
    ensures |rows| == |games| && forall i :: 0 <= i < |games| ==> rows[i] == GameRow(games[i])
  {
    if games == [] then [] else [GameRow(games[0])] + GameRows(games[1..])
  }

  function GamesTsv(c: Catalog): string {
    Rows(GameRows(c.games))
  }

  function PaletteRow(entry: (string, string)): string {
    Join([entry.0, entry.1], '\t')
  }

  function PaletteRows(p: seq<(string, string)>): (rows: seq<string>)
    ensures |rows| == |p| && forall i :: 0 <= i < |p| ==> rows[i] == PaletteRow(p[i])
  {
    if p == [] then [] else [PaletteRow(p[0])] + PaletteRows(p[1..])
  }

  function PaletteTsv(p: seq<(string, string)>): string {
    Rows(PaletteRows(p))
  }

  // ---- Loading games ----

  datatype MenuGame = MenuGame(id: string, title: string, system: System, rom: string, color: nat)

  datatype LoadError = WrongSize | LineTooLong | WrongFields | InvalidId | InvalidTitle | InvalidRom | InvalidSystem
                     | RepeatedId | RepeatedRom | InvalidColor | TooManyGames | NoGames
                     | InvalidIcon | UnknownRole | RepeatedRole | MissingRole

  predicate MenuId(s: string) {
    1 <= |s| <= 48 &&
    forall i :: 0 <= i < |s| ==> 'a' <= s[i] <= 'z' || '0' <= s[i] <= '9' || (s[i] == '-' && 0 < i < |s| - 1)
  }

  predicate Control(c: char) {
    c < ' ' || c == '\U{7f}'
  }

  /** The text the menu can draw: no control characters, a question mark for what is not ASCII, at most 64 characters. */
  function Display(s: string): string {
    var shown := Drawn(s);
    if |shown| > 64 then shown[..64] else shown
  }

  function Drawn(s: string): string {
    if s == "" then ""
    else (if Control(s[0]) then "" else if s[0] > '\U{7f}' then "?" else [s[0]]) + Drawn(s[1..])
  }

  datatype Loading = Loading(games: seq<MenuGame>, ids: set<string>, roms: set<string>, data: bool)

  predicate Header(f: seq<string>) {
    |f| == 5 && f[0] == "id" && f[1] == "title" && f[2] == "system" && f[3] == "rom"
    && (f[4] == "color" || f[4] == "#RRGGBB")
  }

  function LoadFields(st: Loading, f: seq<string>): (r: Result<Loading, LoadError>)
    ensures r.Ok? ==> r.value.data
  {
    if |f| != 5 then Err(WrongFields)
    else if !MenuId(f[0]) then Err(InvalidId)
    else if Display(f[1]) == "" || f[1][0] == ' ' || f[1][|f[1]| - 1] == ' ' then Err(InvalidTitle)
    else if f[3] == "" || |f[3]| > 4095 || f[3][0] != '/' || f[3][|f[3]| - 1] == ' ' then Err(InvalidRom)
    else if ParseSystem(f[2]).None? then Err(InvalidSystem)
    else if f[0] in st.ids then Err(RepeatedId)
    else if f[3] in st.roms then Err(RepeatedRom)
    else if !RgbText(f[4]) then Err(InvalidColor)
    else
      var game := MenuGame(f[0], Display(f[1]), ParseSystem(f[2]).value, f[3], ColorValue(f[4]));
      if |st.games| + 1 > 64 then Err(TooManyGames)
      else Ok(Loading(st.games + [game], st.ids + {f[0]}, st.roms + {f[3]}, true))
  }

  function LoadLine(st: Loading, line: string): Result<Loading, LoadError> {
    var l := StripReturn(line);
    if |line| > 4096 then Err(LineTooLong)
    else if l == "" || l[0] == '#' then Ok(st)
    else
      var f := Split(l, '\t');
      if !st.data && Header(f) then Ok(st.(data := true)) else LoadFields(st.(data := true), f)
  }

  function LoadLines(st: Loading, lines: seq<string>): Result<Loading, LoadError>
    decreases |lines|
  {
    if lines == [] then Ok(st)
    else
      match LoadLine(st, lines[0])
      case Err(e) => Err(e)
      case Ok(next) => LoadLines(next, lines[1..])
  }

  function LoadedGames(text: string): Result<seq<MenuGame>, LoadError> {
    if !(1 <= |text| <= MAX_MANIFEST_BYTES) then Err(WrongSize)
    else
      match LoadLines(Loading([], {}, {}, false), Lines(text))
      case Err(e) => Err(e)
      case Ok(st) => if st.games == [] then Err(NoGames) else Ok(st.games)
  }

  method LoadGames(text: string) returns (r: Result<seq<MenuGame>, LoadError>)
    ensures r == LoadedGames(text)
  {
    if !(1 <= |text| <= MAX_MANIFEST_BYTES) {
      return Err(WrongSize);
    }
    var lines := Lines(text);
    var games: seq<MenuGame>, ids: set<string>, roms: set<string>, data := [], {}, {}, false;
    var n := 0;
    hide LoadFields, Header, Split, StripReturn, Lines;
    while n < |lines|
      invariant n <= |lines|
      invariant LoadLines(Loading([], {}, {}, false), lines) == LoadLines(Loading(games, ids, roms, data), lines[n..])
    {
      var line := lines[n];
      assert lines[n..][1..] == lines[n + 1..];
      n := n + 1;
      if |line| > 4096 {
        return Err(LineTooLong);
      }
      var l := StripReturn(line);
      if l == "" || l[0] == '#' {
        continue;
      }
      var f := Split(l, '\t');
      if !data && Header(f) {
        data := true;
        continue;
      }
      data := true;
      var next := LoadFields(Loading(games, ids, roms, data), f);
      if next.Err? {
        return Err(next.error);
      }
      games, ids, roms := next.value.games, next.value.ids, next.value.roms;
    }
    if games == [] {
      return Err(NoGames);
    }
    return Ok(games);
  }

  // ---- Loading the palette ----

  predicate IconText(s: string) {
    1 <= |s| <= 64 && forall i :: 0 <= i < |s| ==> IdChar(s[i])
  }

  datatype PaletteLoading = PaletteLoading(got: map<string, nat>, icon: bool)

  function LoadPaletteLine(st: PaletteLoading, line: string): Result<PaletteLoading, LoadError> {
    var l := StripReturn(line);
    if l == "" || l[0] == '#' then Ok(st)
    else
      var f := Split(l, '\t');
      if |f| != 2 then Err(WrongFields)
      else if f[0] == "settings-icon" then
        if st.icon || !IconText(f[1]) then Err(InvalidIcon) else Ok(st.(icon := true))
      else if f[0] !in PALETTE_ROLES then Err(UnknownRole)
      else if !RgbText(f[1]) then Err(InvalidColor)
      else if f[0] in st.got then Err(RepeatedRole)
      else Ok(st.(got := st.got[f[0] := ColorValue(f[1])]))
  }

  function LoadPaletteLines(st: PaletteLoading, lines: seq<string>): Result<PaletteLoading, LoadError>
    decreases |lines|
  {
    if lines == [] then Ok(st)
    else
      match LoadPaletteLine(st, lines[0])
      case Err(e) => Err(e)
      case Ok(next) => LoadPaletteLines(next, lines[1..])
  }

  function InOrder(got: map<string, nat>, roles: seq<string>): Result<seq<(string, nat)>, LoadError> {
    if roles == [] then Ok([])
    else if roles[0] !in got then Err(MissingRole)
    else
      match InOrder(got, roles[1..])
      case Err(e) => Err(e)
      case Ok(rest) => Ok([(roles[0], got[roles[0]])] + rest)
  }

  function LoadedPalette(text: string): Result<seq<(string, nat)>, LoadError> {
    if !(1 <= |text| <= MAX_PALETTE_BYTES) then Err(WrongSize)
    else
      match LoadPaletteLines(PaletteLoading(map[], false), Lines(text))
      case Err(e) => Err(e)
      case Ok(st) => InOrder(st.got, PALETTE_ROLES)
  }

  method LoadPalette(text: string) returns (r: Result<seq<(string, nat)>, LoadError>)
    ensures r == LoadedPalette(text)
  {
    if !(1 <= |text| <= MAX_PALETTE_BYTES) {
      return Err(WrongSize);
    }
    var lines := Lines(text);
    var st := PaletteLoading(map[], false);
    var n := 0;
    while n < |lines|
      invariant n <= |lines|
      invariant LoadPaletteLines(PaletteLoading(map[], false), lines) == LoadPaletteLines(st, lines[n..])
    {
      assert lines[n..][1..] == lines[n + 1..];
      var next := LoadPaletteLine(st, lines[n]);
      if next.Err? {
        return Err(next.error);
      }
      st := next.value;
      n := n + 1;
    }
    return InOrder(st.got, PALETTE_ROLES);
  }

  // ---- The loaders undo the writers ----

  predicate Loadable(g: CatalogGame) {
    ParseSystem(g.system).Some? && RgbText(g.color)
  }

  function MenuGameOf(g: CatalogGame): MenuGame
    requires Loadable(g)
  {
    MenuGame(g.id, g.title, ParseSystem(g.system).value, g.rom, ColorValue(g.color))
  }

  lemma {:induction false} DrawnPrintable(s: string)
    requires forall i :: 0 <= i < |s| ==> ' ' <= s[i] <= '~'
    ensures Drawn(s) == s
  {
    if s != "" {
      DrawnPrintable(s[1..]);
      assert [s[0]] + s[1..] == s;
    }
  }

  predicate Plainly(s: string) {
    forall i :: 0 <= i < |s| ==> ' ' <= s[i] <= '~'
  }

  lemma SystemIsPlain(s: string)
    requires ParseSystem(s).Some?
    ensures 1 <= |s| <= 4 && Plainly(s) && s != "system"
  {
  }

  lemma ColorIsPlain(s: string)
    requires RgbText(s)
    ensures Plainly(s)
  {
    forall i | 0 <= i < |s|
      ensures ' ' <= s[i] <= '~'
    {
      if i > 0 {
        assert HexDigit(s[i]);
      }
    }
  }

  lemma JoinOfFive(a: string, b: string, c: string, d: string, e: string)
    ensures Join([a, b, c, d, e], '\t') == a + "\t" + (b + "\t" + (c + "\t" + (d + "\t" + e)))
  {
    var f := [a, b, c, d, e];
    assert f[1..] == [b, c, d, e] && [b, c, d, e][1..] == [c, d, e] && [c, d, e][1..] == [d, e] && [d, e][1..] == [e];
    assert Join([d, e], '\t') == d + "\t" + e;
    assert Join([c, d, e], '\t') == c + "\t" + (d + "\t" + e);
  }

  lemma FiveFields(a: string, b: string, c: string, d: string, e: string)
    requires Plainly(a) && Plainly(b) && Plainly(c) && Plainly(d) && Plainly(e) && e != ""
    ensures var row := Join([a, b, c, d, e], '\t');
      && Split(row, '\t') == [a, b, c, d, e] && CleanRow(row) && StripReturn(row) == row
      && |row| == |a| + |b| + |c| + |d| + |e| + 4
      && (a != "" ==> row[0] == a[0])
  {
    SplitJoin([a, b, c, d, e], '\t');
    JoinOfFive(a, b, c, d, e);
    hide Split, Join;
    var row := Join([a, b, c, d, e], '\t');
    assert row[|row| - 1] == e[|e| - 1];
  }

  lemma GameRowIsClean(g: CatalogGame)
    requires ValidGame(g)
    ensures var row := GameRow(g);
      Split(row, '\t') == GameFields(g) && CleanRow(row) && StripReturn(row) == row
      && 1 <= |row| <= 607 && row[0] == g.id[0]
  {
    SystemIsPlain(g.system);
    ColorIsPlain(g.color);
    FiveFields(g.id, g.title, g.system, g.rom, g.color);
  }

  lemma IdIsMenuId(s: string)
    requires PrintableText(s, 32) && ValidId(s)
    ensures MenuId(s) && s[0] != '#'
  {
    forall i | 0 <= i < |s|
      ensures 'a' <= s[i] <= 'z' || '0' <= s[i] <= '9' || (s[i] == '-' && 0 < i < |s| - 1)
    {
      assert IdChar(s[i]);
    }
  }

  lemma RomIsAbsolute(g: CatalogGame)
    requires ValidGame(g)
    ensures g.rom[0] == '/' && g.rom[|g.rom| - 1] != ' '
  {
    assert RomPrefix(g.system) <= g.rom;
    assert RomPrefix(g.system)[0] == '/';
    assert RomChar(g.rom[|g.rom| - 1]);
  }

  function AfterGame(st: Loading, g: CatalogGame): Loading
    requires Loadable(g)
  {
    Loading(st.games + [MenuGameOf(g)], st.ids + {g.id}, st.roms + {g.rom}, true)
  }

  /** One written game is loaded as itself; in particular it is never taken for a header or a comment. */
  lemma LoadsGameRow(st: Loading, g: CatalogGame)
    requires ValidGame(g) && Loadable(g) && g.id !in st.ids && g.rom !in st.roms && |st.games| < 64
    ensures LoadLine(st, GameRow(g)) == Ok(AfterGame(st, g))
  {
    GameRowIsClean(g);
    SystemIsPlain(g.system);
    IdIsMenuId(g.id);
    hide ValidGame, Loadable, AfterGame, LoadFields, GameRow, Split, StripReturn, MenuId, ParseSystem, Plainly;
    assert !Header(GameFields(g)) by {
      assert GameFields(g)[2] == g.system;
    }
    LoadsGameFields(st.(data := true), g);
    SameAfter(st, g);
  }

  lemma SameAfter(st: Loading, g: CatalogGame)
    requires Loadable(g)
    ensures AfterGame(st.(data := true), g) == AfterGame(st, g)
  {
  }

  lemma TitleIsShown(title: string)
    requires PrintableText(title, 48) && TrimmedTitle(title)
    ensures Display(title) == title && title != "" && title[0] != ' ' && title[|title| - 1] != ' '
  {
    DrawnPrintable(title);
    hide Drawn;
  }

  lemma LoadsGameFields(st: Loading, g: CatalogGame)
    requires ValidGame(g) && Loadable(g) && g.id !in st.ids && g.rom !in st.roms && |st.games| < 64
    ensures LoadFields(st, GameFields(g)) == Ok(AfterGame(st, g))
  {
    IdIsMenuId(g.id);
    RomIsAbsolute(g);
    TitleIsShown(g.title);
    assert g.rom != "" && |g.rom| <= 4095;
    hide ValidGame, Display, MenuId, ParseSystem, RgbText, ColorValue, LoadFields;
    GoodFieldsLoad(st, g.id, g.title, g.system, g.rom, g.color);
  }

  /** Five fields that pass every check become a game. */
  lemma GoodFieldsLoad(st: Loading, id: string, title: string, system: string, rom: string, color: string)
    requires MenuId(id) && Display(title) == title && title != "" && title[0] != ' ' && title[|title| - 1] != ' '
    requires rom != "" && |rom| <= 4095 && rom[0] == '/' && rom[|rom| - 1] != ' '
    requires ParseSystem(system).Some? && RgbText(color)
    requires id !in st.ids && rom !in st.roms && |st.games| < 64
    ensures LoadFields(st, [id, title, system, rom, color])
         == Ok(Loading(st.games + [MenuGame(id, title, ParseSystem(system).value, rom, ColorValue(color))],
                       st.ids + {id}, st.roms + {rom}, true))
  {
    hide Display, MenuId, ParseSystem, RgbText, ColorValue;
  }

  lemma ValidIsLoadable(g: CatalogGame)
    requires ValidGame(g)
    ensures Loadable(g)
  {
    hide ParseSystem, RgbText, ValidRom, Xterm;
  }

  function MenuGamesOf(games: seq<CatalogGame>): (r: seq<MenuGame>)
    requires forall i :: 0 <= i < |games| ==> Loadable(games[i])
    ensures |r| == |games| && forall i :: 0 <= i < |games| ==> r[i] == MenuGameOf(games[i])
  {
    if games == [] then [] else [MenuGameOf(games[0])] + MenuGamesOf(games[1..])
  }

  ghost predicate Fresh(st: Loading, games: seq<CatalogGame>) {
    forall i :: 0 <= i < |games| ==> games[i].id !in st.ids && games[i].rom !in st.roms
  }

  lemma StillFresh(st: Loading, games: seq<CatalogGame>)
    requires games != [] && Loadable(games[0]) && DistinctIds(games) && DistinctRoms(games) && Fresh(st, games)
    ensures DistinctIds(games[1..]) && DistinctRoms(games[1..]) && Fresh(AfterGame(st, games[0]), games[1..])
    ensures games[0].id !in st.ids && games[0].rom !in st.roms
  {
    hide Loadable, MenuGameOf;
    forall i | 0 <= i < |games[1..]|
      ensures games[1..][i].id !in AfterGame(st, games[0]).ids && games[1..][i].rom !in AfterGame(st, games[0]).roms
    {
      assert games[1..][i] == games[i + 1];
    }
  }

  ghost predicate AllValid(games: seq<CatalogGame>) {
    forall i :: 0 <= i < |games| ==> ValidGame(games[i]) && Loadable(games[i])
  }

  lemma LoadStep(st: Loading, row: string, rows: seq<string>, next: Loading)
    requires LoadLine(st, row) == Ok(next)
    ensures LoadLines(st, [row] + rows) == LoadLines(next, rows)
  {
    hide LoadLine;
    assert ([row] + rows)[1..] == rows;
  }

  ghost predicate LoadsAll(st: Loading, games: seq<CatalogGame>)
    requires AllValid(games)
  {
    var r := LoadLines(st, GameRows(games));
    r.Ok? && r.value.games == st.games + MenuGamesOf(games)
  }

  lemma Regroup<T>(a: seq<T>, x: T, b: seq<T>)
    ensures a + [x] + b == a + ([x] + b)
  {
  }

  lemma LoadsOneMore(st: Loading, games: seq<CatalogGame>)
    requires AllValid(games) && games != []
    requires LoadLine(st, GameRow(games[0])) == Ok(AfterGame(st, games[0]))
    requires LoadsAll(AfterGame(st, games[0]), games[1..])
    ensures LoadsAll(st, games)
  {
    hide LoadLine, GameRow, LoadLines, Loadable, MenuGameOf, ValidGame;
    LoadStep(st, GameRow(games[0]), GameRows(games[1..]), AfterGame(st, games[0]));
    Regroup(st.games, MenuGameOf(games[0]), MenuGamesOf(games[1..]));
  }

  lemma {:induction false} LoadsGameRows(st: Loading, games: seq<CatalogGame>)
    requires AllValid(games) && DistinctIds(games) && DistinctRoms(games) && Fresh(st, games)
    requires |st.games| + |games| <= 64
    ensures LoadsAll(st, games)
    decreases |games|
  {
    hide LoadLine, ValidGame, GameRow, Loadable, MenuGameOf, DistinctIds, DistinctRoms, Fresh;
    if games != [] {
      hide LoadsAll;
      StillFresh(st, games);
      LoadsGameRow(st, games[0]);
      assert AllValid(games[1..]);
      LoadsGameRows(AfterGame(st, games[0]), games[1..]);
      LoadsOneMore(st, games);
    }
  }

  /** For every catalog that `parse_catalog` accepts, the dashboard loads the compiled file as the same games in order. */
  lemma GamesRoundTrip(source: string)
    requires ParseCatalog(source).Ok?
    ensures var c := ParseCatalog(source).value;
      AllValid(c.games) && LoadedGames(GamesTsv(c)) == Ok(MenuGamesOf(c.games))
  {
    ParsedCatalogIsValid(source);
    ValidGamesRoundTrip(ParseCatalog(source).value);
  }

  lemma ValidGamesAreLoadable(games: seq<CatalogGame>)
    requires forall i :: 0 <= i < |games| ==> ValidGame(games[i])
    ensures AllValid(games)
  {
    hide Loadable, ValidGame;
    forall i | 0 <= i < |games|
      ensures Loadable(games[i])
    {
      ValidIsLoadable(games[i]);
    }
  }

  lemma GamesAreLines(games: seq<CatalogGame>)
    requires 1 <= |games| <= MAXIMUM_GAMES && AllValid(games)
    ensures Lines(Rows(GameRows(games))) == GameRows(games) && 1 <= |Rows(GameRows(games))| <= MAX_MANIFEST_BYTES
  {
    hide Lines, Loadable, GameRow, ValidGame;
    var rows := GameRows(games);
    forall i | 0 <= i < |rows|
      ensures CleanRow(rows[i]) && |rows[i]| + 1 <= 608
    {
      GameRowIsClean(games[i]);
    }
    LinesOfRows(rows);
    RowsLength(rows, 608);
    assert Rows(rows) == rows[0] + "\n" + Rows(rows[1..]);
  }

  lemma ValidGamesRoundTrip(c: Catalog)
    requires ValidCatalog(c)
    ensures AllValid(c.games) && LoadedGames(GamesTsv(c)) == Ok(MenuGamesOf(c.games))
  {
    hide LoadLine, LoadLines, GameRow, Lines, Loadable, MenuGameOf, ValidGame, GameRows, MenuGamesOf;
    ValidGamesAreLoadable(c.games);
    GamesAreLines(c.games);
    LoadsGameRows(Loading([], {}, {}, false), c.games);
    assert [] + MenuGamesOf(c.games) == MenuGamesOf(c.games);
  }

  // ---- The palette ----

  /** The role names are plain words, all different. */
  lemma RolesAreWords()
    ensures forall i :: 0 <= i < |PALETTE_ROLES| ==>
      1 <= |PALETTE_ROLES[i]| <= 18 && PALETTE_ROLES[i] != "settings-icon" && PALETTE_ROLES[i][0] != '#'
    ensures forall i, j :: 0 <= i < j < |PALETTE_ROLES| ==> PALETTE_ROLES[i] != PALETTE_ROLES[j]
  {
  }

  lemma RoleIsPlain(i: nat)
    requires i < |PALETTE_ROLES|
    ensures Plainly(PALETTE_ROLES[i])
  {
    if i < 11 {
    } else {
    }
  }

  lemma JoinOfTwo(a: string, b: string)
    requires Plainly(a) && Plainly(b) && a != "" && b != ""
    ensures var row := Join([a, b], '\t');
      && row == a + "\t" + b
      && Split(row, '\t') == [a, b] && CleanRow(row) && StripReturn(row) == row && |row| == |a| + |b| + 1
      && row[0] == a[0]
  {
    var f := [a, b];
    assert f[1..] == [b] && Join([b], '\t') == b;
    SplitJoin(f, '\t');
    var row := Join(f, '\t');
    assert row[|row| - 1] == b[|b| - 1];
  }

  lemma LoadsPaletteRow(st: PaletteLoading, i: nat, color: string)
    requires i < |PALETTE_ROLES| && CanonicalRgb(color) && PALETTE_ROLES[i] !in st.got
    ensures var row := PaletteRow((PALETTE_ROLES[i], color));
      && LoadPaletteLine(st, row) == Ok(st.(got := st.got[PALETTE_ROLES[i] := ColorValue(color)]))
      && CleanRow(row) && |row| + 1 <= 27
  {
    RolesAreWords();
    RoleIsPlain(i);
    ColorIsPlain(color);
    JoinOfTwo(PALETTE_ROLES[i], color);
    assert PALETTE_ROLES[i] in PALETTE_ROLES;
    hide Split, Join, StripReturn;
  }

  ghost predicate Gathered(st: PaletteLoading, p: seq<(string, string)>, from: nat)
    requires from <= |p| && AllRgb(p)
  {
    var r := LoadPaletteLines(st, PaletteRows(p[from..]));
    && r.Ok?
    && (forall k :: k in st.got ==> k in r.value.got && r.value.got[k] == st.got[k])
    && (forall i :: from <= i < |p| ==> p[i].0 in r.value.got && r.value.got[p[i].0] == ColorValue(p[i].1))
  }

  predicate AllRgb(p: seq<(string, string)>) {
    forall i :: 0 <= i < |p| ==> RgbText(p[i].1)
  }

  lemma GathersOneMore(st: PaletteLoading, next: PaletteLoading, p: seq<(string, string)>, from: nat)
    requires from < |p| && AllRgb(p)
    requires LoadPaletteLine(st, PaletteRow(p[from])) == Ok(next)
    requires p[from].0 !in st.got && next.got == st.got[p[from].0 := ColorValue(p[from].1)]
    requires Gathered(next, p, from + 1)
    ensures Gathered(st, p, from)
  {
    hide LoadPaletteLine, PaletteRow, ColorValue, RgbText, PALETTE_ROLES;
    assert p[from..][0] == p[from] && p[from..][1..] == p[from + 1..];
    assert PaletteRows(p[from..])[1..] == PaletteRows(p[from + 1..]);
  }

  /** After the rows from `from` on, every role from there on has its colour. */
  lemma {:induction false} LoadsPaletteRows(st: PaletteLoading, p: seq<(string, string)>, from: nat)
    requires ValidPalette(p, PALETTE_ROLES) && AllRgb(p) && from <= |p|
    requires forall i :: from <= i < |p| ==> PALETTE_ROLES[i] !in st.got
    ensures Gathered(st, p, from)
    decreases |p| - from
  {
    if from < |p| {
      hide LoadPaletteLine, PaletteRow, ColorValue, PALETTE_ROLES, Gathered, RgbText, CanonicalRgb;
      RolesAreWords();
      var next := st.(got := st.got[PALETTE_ROLES[from] := ColorValue(p[from].1)]);
      LoadsPaletteRow(st, from, p[from].1);
      assert p[from] == (PALETTE_ROLES[from], p[from].1);
      LoadsPaletteRows(next, p, from + 1);
      GathersOneMore(st, next, p, from);
    } else {
      hide ColorValue, PALETTE_ROLES, RgbText, LoadPaletteLine;
      assert p[from..] == [];
    }
  }

  function NumbersOf(p: seq<(string, string)>): (r: seq<(string, nat)>)
    requires AllRgb(p)
    ensures |r| == |p| && forall i :: 0 <= i < |p| ==> r[i] == (p[i].0, ColorValue(p[i].1))
  {
    if p == [] then [] else [(p[0].0, ColorValue(p[0].1))] + NumbersOf(p[1..])
  }

  lemma {:induction false} ReadInOrder(got: map<string, nat>, p: seq<(string, string)>, roles: seq<string>)
    requires ValidPalette(p, roles)
    requires forall i :: 0 <= i < |p| ==> p[i].0 in got && got[p[i].0] == ColorValue(p[i].1)
    ensures InOrder(got, roles) == Ok(NumbersOf(p))
    decreases |p|
  {
    if p != [] {
      assert p[0].0 == roles[0];
      assert ValidPalette(p[1..], roles[1..]);
      ReadInOrder(got, p[1..], roles[1..]);
    }
  }

  /** The dashboard loads a compiled palette as the same roles, in their order, with the same colours. */
  lemma PaletteRoundTrip(p: seq<(string, string)>)
    requires ValidPalette(p, PALETTE_ROLES)
    ensures LoadedPalette(PaletteTsv(p)) == Ok(NumbersOf(p))
  {
    var rows := PaletteRows(p);
    forall i | 0 <= i < |rows|
      ensures CleanRow(rows[i]) && |rows[i]| + 1 <= 27
    {
      LoadsPaletteRow(PaletteLoading(map[], false), i, p[i].1);
      assert p[i] == (PALETTE_ROLES[i], p[i].1);
    }
    hide LoadPaletteLines, PaletteRow, Lines, ColorValue;
    LinesOfRows(rows);
    RowsLength(rows, 27);
    assert p[0..] == p;
    LoadsPaletteRows(PaletteLoading(map[], false), p, 0);
    ReadInOrder(LoadPaletteLines(PaletteLoading(map[], false), rows).value.got, p, PALETTE_ROLES);
    assert Rows(rows) == rows[0] + "\n" + Rows(rows[1..]);
  }
}
