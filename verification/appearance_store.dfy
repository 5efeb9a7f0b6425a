/**
 The uploader's own reading of the appearance (`native/src/uploader/mod.rs`): the compiled palette it starts from, and the
 saved one that replaces it.
 */
module AppearanceStore {
  import opened Wrappers
  import opened TextRows
  import opened CatalogSchema
  import opened CatalogTsv
  import opened CatalogAppearance

  datatype StoreError = TooLarge | MalformedEntry | BadSettingsIcon | BadColor | UnknownOrRepeated | NotAPalette | NoAppearance

  type Colors = map<string, string>

  datatype Reading = Reading(got: Colors, icon: bool)

  /** A line up to its first tab, and what follows. */
  function SplitOnce(line: string): Option<(string, string)> {
    if line == "" then None
    else if line[0] == '\t' then Some(("", line[1..]))
    else
      match SplitOnce(line[1..])
      case None => None
      case Some((key, value)) => Some(([line[0]] + key, value))
  }

  function ReadEntry(st: Reading, line: string): Result<Reading, StoreError> {
    match SplitOnce(line)
    case None => Err(MalformedEntry)
    case Some((key, value)) =>
      if key == "settings-icon" then
        if st.icon || !IconText(value) then Err(BadSettingsIcon) else Ok(st.(icon := true))
      else if key !in PALETTE_ROLES then Err(UnknownOrRepeated)
      else if !RgbText(value) then Err(BadColor)
      else if key in st.got then Err(UnknownOrRepeated)
      else Ok(st.(got := st.got[key := UpperHex(value)]))
  }

  function ReadEntries(st: Reading, lines: seq<string>): Result<Reading, StoreError>
    decreases |lines|
  {
    if lines == [] then Ok(st)
    else
      match ReadEntry(st, lines[0])
      case Err(e) => Err(e)
      case Ok(next) => ReadEntries(next, lines[1..])
  }

  /** Every role and nothing else, in the canonical spelling. */
  predicate IsPalette(colors: Colors) {
    |colors| == |PALETTE_ROLES| && forall i :: 0 <= i < |PALETTE_ROLES| ==> HasCanonical(colors, PALETTE_ROLES[i])
  }

  predicate HasCanonical(colors: Colors, role: string) {
    role in colors && CanonicalRgb(colors[role])
  }

  function ParsePaletteTsv(text: string): Result<Colors, StoreError> {
    match ReadEntries(Reading(map[], false), Lines(text))
    case Err(e) => Err(e)
    case Ok(st) => if IsPalette(st.got) then Ok(st.got) else Err(NotAPalette)
  }

  function ColorsIn(p: Palette): Colors {
    if p == [] then map[] else ColorsIn(p[..|p| - 1])[p[|p| - 1].0 := p[|p| - 1].1]
  }

  /** The first of the two compiled palettes that can be read. */
  function Installed(menu: Option<string>, state: Option<string>): Option<Colors> {
    if menu.Some? && |menu.value| <= MAX_PALETTE_BYTES && ParsePaletteTsv(menu.value).Ok? then
      Some(ParsePaletteTsv(menu.value).value)
    else if state.Some? && |state.value| <= MAX_PALETTE_BYTES && ParsePaletteTsv(state.value).Ok? then
      Some(ParsePaletteTsv(state.value).value)
    else None
  }

  function CurrentPalette(menu: Option<string>, state: Option<string>, saved: Option<string>): Result<Colors, StoreError> {
    match Installed(menu, state)
    case None => Err(NoAppearance)
    case Some(base) =>
      var chosen :=
        if saved.Some? && |saved.value| <= MAX_APPEARANCE_BYTES && ParseAppearanceOverride(saved.value).Ok? then
          ColorsIn(ParseAppearanceOverride(saved.value).value)
        else base;
      if IsPalette(chosen) then Ok(chosen) else Err(NotAPalette)
  }

  // ---- Colours of a palette ----

  lemma {:induction false} ColorsInHold(p: Palette)
    requires forall i, j :: 0 <= i < j < |p| ==> p[i].0 != p[j].0
    ensures |ColorsIn(p)| == |p|
    ensures forall i :: 0 <= i < |p| ==> p[i].0 in ColorsIn(p) && ColorsIn(p)[p[i].0] == p[i].1
    ensures forall k :: k in ColorsIn(p) ==> exists i :: 0 <= i < |p| && p[i].0 == k
  {
    if p != [] {
      var before, last := p[..|p| - 1], p[|p| - 1];
      ColorsInHold(before);
      assert forall i :: 0 <= i < |before| ==> before[i] == p[i];
      assert last.0 !in ColorsIn(before);
      forall k | k in ColorsIn(p)
        ensures exists i :: 0 <= i < |p| && p[i].0 == k
      {
        if k in ColorsIn(before) {
          var i :| 0 <= i < |before| && before[i].0 == k;
          assert p[i].0 == k;
        } else {
          assert p[|p| - 1].0 == k;
        }
      }
    }
  }

  lemma RolesDiffer(p: Palette)
    requires ValidPalette(p, PALETTE_ROLES)
    ensures forall i, j :: 0 <= i < j < |p| ==> p[i].0 != p[j].0
    ensures |p| == |PALETTE_ROLES| && forall i :: 0 <= i < |p| ==> p[i].0 == PALETTE_ROLES[i] && CanonicalRgb(p[i].1)
    ensures forall i :: 0 <= i < |p| ==> p[i].0 != "settings-icon" && p[i].0 in PALETTE_ROLES
  {
    RolesAreWords();
    hide PALETTE_ROLES, CanonicalRgb;
    forall i | 0 <= i < |p|
      ensures p[i].0 in PALETTE_ROLES
    {
      assert PALETTE_ROLES[i] == p[i].0;
    }
  }

  lemma ValidIsPalette(p: Palette)
    requires ValidPalette(p, PALETTE_ROLES)
    ensures IsPalette(ColorsIn(p))
  {
    RolesDiffer(p);
    hide PALETTE_ROLES, CanonicalRgb, ColorsIn;
    ColorsInHold(p);
    forall i | 0 <= i < |PALETTE_ROLES|
      ensures HasCanonical(ColorsIn(p), PALETTE_ROLES[i])
    {
      assert p[i].0 == PALETTE_ROLES[i];
    }
  }

  // ---- Reading the compiled palette ----

  lemma {:induction false} SplitsOnce(key: string, value: string)
    requires Absent(key, '\t')
    ensures SplitOnce(key + "\t" + value) == Some((key, value))
  {
    var line := key + "\t" + value;
    if key == "" {
      assert line[1..] == value;
    } else {
      assert line[0] == key[0] && line[1..] == key[1..] + "\t" + value;
      SplitsOnce(key[1..], value);
      assert [key[0]] + key[1..] == key;
    }
  }

  lemma ReadsRow(st: Reading, p: Palette, i: nat)
    requires ValidPalette(p, PALETTE_ROLES) && i < |p| && p[i].0 !in st.got
    ensures ReadEntry(st, PaletteRow(p[i])) == Ok(st.(got := st.got[p[i].0 := p[i].1])) && CleanRow(PaletteRow(p[i]))
    ensures |PaletteRow(p[i])| + 1 <= 27
  {
    RolesDiffer(p);
    RolesAreWords();
    RoleIsPlain(i);
    ColorIsPlain(p[i].1);
    UpperHexIsCanonical(p[i].1);
    hide PALETTE_ROLES, CanonicalRgb, UpperHex;
    JoinOfTwo(p[i].0, p[i].1);
    SplitsOnce(p[i].0, p[i].1);
    hide SplitOnce, Join, IconText;
  }

  lemma {:induction false} ReadsRows(st: Reading, p: Palette, from: nat)
    requires ValidPalette(p, PALETTE_ROLES) && from <= |p| && st.got == ColorsIn(p[..from])
    ensures ReadEntries(st, PaletteRows(p[from..])) == Ok(st.(got := ColorsIn(p)))
    decreases |p| - from
  {
    if from == |p| {
      assert p[from..] == [] && p[..from] == p;
      assert PaletteRows([]) == [];
    } else {
      RolesDiffer(p);
      FreshRole(p, from);
      ReadsRow(st, p, from);
      hide PALETTE_ROLES, ReadEntry, PaletteRow, CanonicalRgb, ValidPalette;
      var next := st.(got := st.got[p[from].0 := p[from].1]);
      assert p[..from + 1][..from] == p[..from];
      assert next.got == ColorsIn(p[..from + 1]);
      assert p[from..][0] == p[from] && p[from..][1..] == p[from + 1..];
      assert PaletteRows(p[from..]) == [PaletteRow(p[from])] + PaletteRows(p[from + 1..]);
      ReadsRows(next, p, from + 1);
    }
  }

  lemma FreshRole(p: Palette, from: nat)
    requires from < |p| && forall i, j :: 0 <= i < j < |p| ==> p[i].0 != p[j].0
    ensures p[from].0 !in ColorsIn(p[..from])
  {
    ColorsInHold(p[..from]);
    forall i | 0 <= i < from
      ensures p[..from][i].0 != p[from].0
    {
      assert p[..from][i] == p[i];
    }
  }

  /** The uploader reads a compiled palette as the same roles with the same colours. */
  lemma CompiledPaletteIsRead(p: Palette)
    requires ValidPalette(p, PALETTE_ROLES)
    ensures ParsePaletteTsv(PaletteTsv(p)) == Ok(ColorsIn(p)) && |PaletteTsv(p)| <= MAX_PALETTE_BYTES
  {
    var rows := PaletteRows(p);
    RolesDiffer(p);
    ValidIsPalette(p);
    assert |PALETTE_ROLES| == 22;
    hide PALETTE_ROLES, PaletteRow, ReadEntry, ReadEntries, CanonicalRgb, IsPalette, Lines;
    forall i | 0 <= i < |rows|
      ensures CleanRow(rows[i]) && |rows[i]| + 1 <= 27
    {
      ReadsRow(Reading(map[], false), p, i);
    }
    LinesOfRows(rows);
    RowsLength(rows, 27);
    assert p[..0] == [] && p[0..] == p;
    ReadsRows(Reading(map[], false), p, 0);
  }

  /** After a palette is saved, it is the current one, whatever valid palette the device was installed with. */
  lemma SavedPaletteIsCurrent(menu: Option<string>, state: Option<string>, p: Palette)
    requires Installed(menu, state).Some? && ValidPalette(p, PALETTE_ROLES)
    ensures CurrentPalette(menu, state, Some(EncodePalette(p))) == Ok(ColorsIn(p))
  {
    AppearanceRoundTrip(p);
    ValidIsPalette(p);
    hide Installed, PALETTE_ROLES, IsPalette, ParseAppearanceOverride, EncodePalette, ColorsIn;
  }

  /** A freshly compiled device shows its compiled palette. */
  lemma CompiledPaletteIsCurrent(p: Palette, state: Option<string>)
    requires ValidPalette(p, PALETTE_ROLES)
    ensures CurrentPalette(Some(PaletteTsv(p)), state, None) == Ok(ColorsIn(p))
  {
    CompiledPaletteIsRead(p);
    ValidIsPalette(p);
    hide ParsePaletteTsv, PALETTE_ROLES, IsPalette, PaletteTsv, ColorsIn;
  }
}
