/** The catalog's schema: what `parse_catalog` and `parse_appearance_override` accept (`native/src/catalog.rs`). */
module CatalogSchema {
  import opened Wrappers
  import opened CatalogReader
  import opened CatalogMetadata
  import opened TextRows

  const MAXIMUM_GAMES: nat := 64
  const PALETTE_ROLES: seq<string> :=
    ["background", "text-dark", "field", "surface", "inactive-border", "control-border", "footer", "inactive-text",
     "text", "white", "title", "volume-off", "volume-on", "selected", "wifi-active", "wifi-focus", "wifi-active-border",
     "field-label", "accent", "active", "control-surface", "muted"]
  const CATALOG_KEYS: seq<string> := ["version", "palette", "games"]
  const GAME_KEYS: seq<string> := ["id", "title", "system", "rom", "color"]
  const APPEARANCE_KEYS: seq<string> := ["version", "settings-icon", "palette"]
  const APPEARANCE_REQUIRED: seq<string> := ["version", "palette"]

  datatype SchemaError = Unreadable(error: ReadError) | NotAList | KeyWithoutValue | KeyNotKeyword | UnknownKey
                       | DuplicateKey | MissingKey | BadText | BadRgb | NotXterm | BadId | BadTitle | BadSystem | BadRom
                       | BadVersion | DuplicateId | DuplicateRom | IconNotAllowed | IconMissing | BadIcon

  function ListOf(f: Form, limit: nat): Result<seq<Form>, SchemaError> {
    if f.List? && 1 <= |f.forms| <= limit then Ok(f.forms) else Err(NotAList)
  }

  /** Keys and values in turn, gathered into a map; a key must be allowed and new. */
  function PairUp(values: seq<Form>, allowed: seq<string>, got: map<string, Form>): Result<map<string, Form>, SchemaError>
    requires |values| % 2 == 0
    decreases |values|
  {
    if values == [] then Ok(got)
    else if !values[0].Keyword? then Err(KeyNotKeyword)
    else if values[0].name !in allowed then Err(UnknownKey)
    else if values[0].name in got then Err(DuplicateKey)
    else PairUp(values[2..], allowed, got[values[0].name := values[1]])
  }

  function Plist(f: Form, allowed: seq<string>, required: seq<string>): (r: Result<map<string, Form>, SchemaError>)
    ensures r.Ok? ==> forall k :: k in required ==> k in r.value
  {
    match ListOf(f, 2 * |allowed| + 2)
    case Err(e) => Err(e)
    case Ok(values) =>
      if |values| % 2 != 0 then Err(KeyWithoutValue)
      else
        match PairUp(values, allowed, map[])
        case Err(e) => Err(e)
        case Ok(pairs) => if forall k :: k in required ==> k in pairs then Ok(pairs) else Err(MissingKey)
  }

  predicate PrintableText(s: string, maximum: nat) {
    1 <= |s| <= maximum && forall i :: 0 <= i < |s| ==> ' ' <= s[i] <= '~'
  }

  function TextOf(f: Form, maximum: nat): Result<string, SchemaError> {
    if f.Text? && PrintableText(f.value, maximum) then Ok(f.value) else Err(BadText)
  }

  // ---- Colours ----

  predicate HexDigit(c: char) {
    '0' <= c <= '9' || 'a' <= c <= 'f' || 'A' <= c <= 'F'
  }

  function HexValue(c: char): (n: nat)
    requires HexDigit(c)
    ensures n < 16
  {
    if c <= '9' then c as int - '0' as int
    else if c <= 'F' then c as int - 'A' as int + 10
    else c as int - 'a' as int + 10
  }

  predicate RgbText(s: string) {
    |s| == 7 && s[0] == '#' && forall i :: 1 <= i < 7 ==> HexDigit(s[i])
  }

  function UpperHex(s: string): (r: string)
    ensures |r| == |s| && forall i :: 0 <= i < |s| ==> r[i] == if 'a' <= s[i] <= 'z' then (s[i] as int - 32) as char else s[i]
  {
    if s == "" then "" else [if 'a' <= s[0] <= 'z' then (s[0] as int - 32) as char else s[0]] + UpperHex(s[1..])
  }

  /** A colour in the canonical spelling of the compiled catalog. */
  predicate CanonicalRgb(s: string) {
    RgbText(s) && forall i :: 0 <= i < 7 ==> !('a' <= s[i] <= 'z')
  }

  function RgbOf(f: Form): Result<string, SchemaError> {
    match TextOf(f, 7)
    case Err(e) => Err(e)
    case Ok(s) => if RgbText(s) then Ok(UpperHex(s)) else Err(BadRgb)
  }

  lemma UpperHexIsCanonical(s: string)
    requires RgbText(s)
    ensures CanonicalRgb(UpperHex(s)) && ColorValue(UpperHex(s)) == ColorValue(s)
    ensures CanonicalRgb(s) ==> UpperHex(s) == s
  {
    var r := UpperHex(s);
    forall i | 1 <= i < 7
      ensures HexDigit(r[i]) && HexValue(r[i]) == HexValue(s[i])
    {
      assert HexDigit(s[i]);
    }
  }

  function Channel(s: string, at: nat): (n: nat)
    requires RgbText(s) && 1 <= at <= 5
    ensures n < 256
  {
    HexValue(s[at]) * 16 + HexValue(s[at + 1])
  }

  function ColorValue(s: string): nat
    requires RgbText(s)
  {
    Channel(s, 1) * 65536 + Channel(s, 3) * 256 + Channel(s, 5)
  }

  predicate CubeStep(v: nat) {
    v == 0 || v == 95 || v == 135 || v == 175 || v == 215 || v == 255
  }

  const ANSI: seq<nat> :=
    [0x000000, 0x800000, 0x008000, 0x808000, 0x000080, 0x800080, 0x008080, 0xC0C0C0,
     0x808080, 0xFF0000, 0x00FF00, 0xFFFF00, 0x0000FF, 0xFF00FF, 0x00FFFF, 0xFFFFFF]

  predicate Xterm(s: string)
    requires RgbText(s)
  {
    var red, green, blue := Channel(s, 1), Channel(s, 3), Channel(s, 5);
    || ColorValue(s) in ANSI
    || (CubeStep(red) && CubeStep(green) && CubeStep(blue))
    || (green == red && blue == red && 8 <= red <= 238 && (red - 8) % 10 == 0)
  }

  function GameColorOf(f: Form): Result<string, SchemaError> {
    match RgbOf(f)
    case Err(e) => Err(e)
    case Ok(color) =>
      if !RgbText(color) then Err(BadRgb) else if Xterm(color) then Ok(color) else Err(NotXterm)
  }

  // ---- Palettes ----

  function ColorsOf(values: map<string, Form>, roles: seq<string>): Result<seq<(string, string)>, SchemaError>
    requires forall k :: k in roles ==> k in values
  {
    if roles == [] then Ok([])
    else
      match RgbOf(values[roles[0]])
      case Err(e) => Err(e)
      case Ok(color) =>
        match ColorsOf(values, roles[1..])
        case Err(e) => Err(e)
        case Ok(rest) => Ok([(roles[0], color)] + rest)
  }

  function PaletteOf(f: Form): Result<seq<(string, string)>, SchemaError> {
    match Plist(f, PALETTE_ROLES, PALETTE_ROLES)
    case Err(e) => Err(e)
    case Ok(values) => ColorsOf(values, PALETTE_ROLES)
  }

  /** Every role in its canonical place, with a canonical colour. */
  predicate ValidPalette(p: seq<(string, string)>, roles: seq<string>) {
    |p| == |roles| && forall i :: 0 <= i < |p| ==> p[i].0 == roles[i] && CanonicalRgb(p[i].1)
  }

  lemma {:induction false} ColorsAreValid(values: map<string, Form>, roles: seq<string>)
    requires forall k :: k in roles ==> k in values
    ensures var r := ColorsOf(values, roles); r.Ok? ==> ValidPalette(r.value, roles)
  {
    if roles != [] && ColorsOf(values, roles).Ok? {
      ColorsAreValid(values, roles[1..]);
      UpperHexIsCanonical(values[roles[0]].value);
    }
  }

  // ---- Games ----

  datatype CatalogGame = CatalogGame(id: string, title: string, system: string, rom: string, color: string)

  predicate IdChar(c: char) {
    'a' <= c <= 'z' || '0' <= c <= '9' || c == '-'
  }

  predicate ValidId(s: string) {
    && (forall i :: 0 <= i < |s| ==> IdChar(s[i]))
    && (s != "" ==> s[0] != '-' && s[|s| - 1] != '-')
    && (forall i :: 0 <= i < |s| - 1 ==> !(s[i] == '-' && s[i + 1] == '-'))
  }

  predicate TrimmedTitle(s: string) {
    s != "" ==> s[0] != ' ' && s[|s| - 1] != ' '
  }

  predicate RomChar(c: char) {
    'a' <= c <= 'z' || 'A' <= c <= 'Z' || '0' <= c <= '9' || c == '/' || c == '.' || c == '_' || c == '-'
  }

  function RomPrefix(system: string): string {
    if system == "deck" then "/mnt/data/nes-deck/games/" else "/mnt/data/roms/" + system + "/"
  }

  predicate EndsWith(s: string, suffix: string) {
    |s| >= |suffix| && s[|s| - |suffix|..] == suffix
  }

  /** A normalized path with the system's suffix below the system's directory. */
  predicate ValidRom(rom: string, system: string, suffix: string) {
    var prefix := RomPrefix(system);
    && prefix <= rom && EndsWith(rom, suffix)
    && (forall i :: 0 <= i < |rom| ==> RomChar(rom[i]))
    && forall part :: part in Split(rom[|prefix|..], '/') ==> part != "" && part != "." && part != ".."
  }

  function GameOf(f: Form): Result<CatalogGame, SchemaError> {
    match Plist(f, GAME_KEYS, GAME_KEYS)
    case Err(e) => Err(e)
    case Ok(values) =>
      assert forall i :: 0 <= i < |GAME_KEYS| ==> GAME_KEYS[i] in GAME_KEYS;
      assert "id" == GAME_KEYS[0] && "title" == GAME_KEYS[1] && "system" == GAME_KEYS[2] && "rom" == GAME_KEYS[3]
             && "color" == GAME_KEYS[4];
      var id, title, system := TextOf(values["id"], 32), TextOf(values["title"], 48), values["system"];
      if id.Err? then Err(id.error)
      else if !ValidId(id.value) then Err(BadId)
      else if title.Err? then Err(title.error)
      else if !TrimmedTitle(title.value) then Err(BadTitle)
      else if !system.Keyword? || ParseSystem(system.name).None? then Err(BadSystem)
      else
        var rom := TextOf(values["rom"], 512);
        if rom.Err? then Err(rom.error)
        else if !ValidRom(rom.value, system.name, RomSuffix(ParseSystem(system.name).value)) then Err(BadRom)
        else
          match GameColorOf(values["color"])
          case Err(e) => Err(e)
          case Ok(color) => Ok(CatalogGame(id.value, title.value, system.name, rom.value, color))
  }

  function GamesOf(forms: seq<Form>): Result<seq<CatalogGame>, SchemaError> {
    if forms == [] then Ok([])
    else
      match GameOf(forms[0])
      case Err(e) => Err(e)
      case Ok(game) =>
        match GamesOf(forms[1..])
        case Err(e) => Err(e)
        case Ok(rest) => Ok([game] + rest)
  }

  /** A game the compiled catalog may hold. */
  predicate ValidGame(g: CatalogGame) {
    && PrintableText(g.id, 32) && ValidId(g.id)
    && PrintableText(g.title, 48) && TrimmedTitle(g.title)
    && ParseSystem(g.system).Some?
    && PrintableText(g.rom, 512) && ValidRom(g.rom, g.system, RomSuffix(ParseSystem(g.system).value))
    && CanonicalRgb(g.color) && Xterm(g.color)
  }

  lemma GameIsValid(f: Form)
    ensures var r := GameOf(f); r.Ok? ==> ValidGame(r.value)
  {
    var r := GameOf(f);
    if r.Ok? {
      assert forall i :: 0 <= i < |GAME_KEYS| ==> GAME_KEYS[i] in GAME_KEYS;
      assert "color" == GAME_KEYS[4];
      var values := Plist(f, GAME_KEYS, GAME_KEYS).value;
      UpperHexIsCanonical(values["color"].value);
    }
  }

  lemma {:induction false} GamesAreValid(forms: seq<Form>)
    ensures var r := GamesOf(forms);
      r.Ok? ==> |r.value| == |forms| && forall i :: 0 <= i < |r.value| ==> ValidGame(r.value[i])
  {
    hide GameOf, ValidGame;
    if forms != [] && GamesOf(forms).Ok? {
      GameIsValid(forms[0]);
      GamesAreValid(forms[1..]);
    }
  }

  // ---- Whole sources ----

  datatype Catalog = Catalog(games: seq<CatalogGame>, palette: seq<(string, string)>)

  predicate DistinctIds(games: seq<CatalogGame>) {
    forall i, j :: 0 <= i < j < |games| ==> games[i].id != games[j].id
  }

  predicate DistinctRoms(games: seq<CatalogGame>) {
    forall i, j :: 0 <= i < j < |games| ==> games[i].rom != games[j].rom
  }

  function CatalogOf(f: Form): Result<Catalog, SchemaError> {
    match Plist(f, CATALOG_KEYS, CATALOG_KEYS)
    case Err(e) => Err(e)
    case Ok(values) =>
      assert forall i :: 0 <= i < |CATALOG_KEYS| ==> CATALOG_KEYS[i] in CATALOG_KEYS;
      assert "version" == CATALOG_KEYS[0] && "palette" == CATALOG_KEYS[1] && "games" == CATALOG_KEYS[2];
      if values["version"] != Integer(7) then Err(BadVersion)
      else
        match PaletteOf(values["palette"])
        case Err(e) => Err(e)
        case Ok(palette) =>
          match ListOf(values["games"], MAXIMUM_GAMES)
          case Err(e) => Err(e)
          case Ok(forms) =>
            match GamesOf(forms)
            case Err(e) => Err(e)
            case Ok(games) =>
              if !DistinctIds(games) then Err(DuplicateId)
              else if !DistinctRoms(games) then Err(DuplicateRom)
              else Ok(Catalog(games, palette))
  }

  function ParseCatalog(source: string): Result<Catalog, SchemaError> {
    match ReadSource(source)
    case Err(e) => Err(Unreadable(e))
    case Ok(f) => CatalogOf(f)
  }

  predicate ValidCatalog(c: Catalog) {
    && 1 <= |c.games| <= MAXIMUM_GAMES
    && (forall i :: 0 <= i < |c.games| ==> ValidGame(c.games[i]))
    && DistinctIds(c.games) && DistinctRoms(c.games)
    && ValidPalette(c.palette, PALETTE_ROLES)
  }

  lemma PaletteIsValid(f: Form)
    ensures var r := PaletteOf(f); r.Ok? ==> ValidPalette(r.value, PALETTE_ROLES)
  {
    if PaletteOf(f).Ok? {
      ColorsAreValid(Plist(f, PALETTE_ROLES, PALETTE_ROLES).value, PALETTE_ROLES);
    }
  }

  /** Everything `parse_catalog` returns meets the catalog's schema. */
  lemma ParsedCatalogIsValid(source: string)
    ensures var r := ParseCatalog(source); r.Ok? ==> ValidCatalog(r.value)
  {
    if ParseCatalog(source).Ok? {
      CatalogOfIsValid(ReadSource(source).value);
    }
  }

  lemma CatalogOfIsValid(f: Form)
    requires CatalogOf(f).Ok?
    ensures ValidCatalog(CatalogOf(f).value)
  {
    hide GamesOf, PaletteOf, ValidGame, ValidPalette;
    var values := Plist(f, CATALOG_KEYS, CATALOG_KEYS).value;
    assert forall i :: 0 <= i < |CATALOG_KEYS| ==> CATALOG_KEYS[i] in CATALOG_KEYS;
    assert "version" == CATALOG_KEYS[0] && "palette" == CATALOG_KEYS[1] && "games" == CATALOG_KEYS[2];
    PaletteIsValid(values["palette"]);
    GamesAreValid(values["games"].forms);
  }

  function AppearanceOf(f: Form): Result<seq<(string, string)>, SchemaError> {
    match Plist(f, APPEARANCE_KEYS, APPEARANCE_REQUIRED)
    case Err(e) => Err(e)
    case Ok(values) =>
      assert forall i :: 0 <= i < |APPEARANCE_REQUIRED| ==> APPEARANCE_REQUIRED[i] in APPEARANCE_REQUIRED;
      assert "version" == APPEARANCE_REQUIRED[0] && "palette" == APPEARANCE_REQUIRED[1];
      var version := values["version"];
      var icon := "settings-icon" in values;
      if version != Integer(2) && version != Integer(3) then Err(BadVersion)
      else if version == Integer(2) && icon then Err(IconNotAllowed)
      else if version == Integer(3) && !icon then Err(IconMissing)
      else if icon && (var t := TextOf(values["settings-icon"], 64);
                       t.Err? || !(forall i :: 0 <= i < |t.value| ==> IdChar(t.value[i]))) then Err(BadIcon)
      else PaletteOf(values["palette"])
  }

  function ParseAppearanceOverride(source: string): Result<seq<(string, string)>, SchemaError> {
    match ReadSource(source)
    case Err(e) => Err(Unreadable(e))
    case Ok(f) => AppearanceOf(f)
  }
}
