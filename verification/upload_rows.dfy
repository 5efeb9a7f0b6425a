/** The rows of the upload catalog (`native/src/uploader/mod.rs`): reading, writing, naming and ordering them. */
module UploadRows {
  import opened Wrappers
  import opened TextOrder
  import opened TextRows

  const MAX_CATALOG_BYTES: nat := 65536
  const MAX_LINE_BYTES: nat := 4095
  const MAX_GAMES: nat := 64

  datatype Entry = Entry(id: string, title: string, system: string, rom: string, color: string)

  datatype RowError = TooLarge | LineTooLong | Malformed | TooManyGames

  function FieldsOf(e: Entry): seq<string> {
    [e.id, e.title, e.system, e.rom, e.color]
  }

  function EntryOf(f: seq<string>): Entry
    requires |f| == 5
  {
    Entry(f[0], f[1], f[2], f[3], f[4])
  }

  function Row(e: Entry): string {
    Join(FieldsOf(e), '\t')
  }

  function RowsOf(entries: seq<Entry>): (rows: seq<string>)
    ensures |rows| == |entries| && forall i :: 0 <= i < |entries| ==> rows[i] == Row(entries[i])
  {
    seq(|entries|, i requires 0 <= i < |entries| => Row(entries[i]))
  }

  /** The catalog file. */
  function Text(entries: seq<Entry>): string {
    Rows(RowsOf(entries))
  }

  function ReadLines(lines: seq<string>, entries: seq<Entry>): Result<seq<Entry>, RowError>
    decreases |lines|
  {
    if lines == [] then Ok(entries)
    else if |lines[0]| > MAX_LINE_BYTES then Err(LineTooLong)
    else if lines[0] == "" || lines[0][0] == '#' then ReadLines(lines[1..], entries)
    else
      var f := Split(lines[0], '\t');
      if |f| != 5 then Err(Malformed)
      else if |entries| + 1 > MAX_GAMES then Err(TooManyGames)
      else ReadLines(lines[1..], entries + [EntryOf(f)])
  }

  function ReadText(text: string): Result<seq<Entry>, RowError> {
    if |text| > MAX_CATALOG_BYTES then Err(TooLarge) else ReadLines(Lines(text), [])
  }

  method ReadCatalog(text: string) returns (r: Result<seq<Entry>, RowError>)
    ensures r == ReadText(text)
  {
    if |text| > MAX_CATALOG_BYTES {
      return Err(TooLarge);
    }
    var lines := Lines(text);
    var entries: seq<Entry> := [];
    var n := 0;
    while n < |lines|
      invariant n <= |lines|
      invariant ReadLines(lines, []) == ReadLines(lines[n..], entries)
    {
      var line := lines[n];
      assert lines[n..][1..] == lines[n + 1..];
      n := n + 1;
      if |line| > MAX_LINE_BYTES {
        return Err(LineTooLong);
      }
      if line == "" || line[0] == '#' {
        continue;
      }
      var f := Split(line, '\t');
      if |f| != 5 {
        return Err(Malformed);
      }
      if |entries| + 1 > MAX_GAMES {
        return Err(TooManyGames);
      }
      entries := entries + [EntryOf(f)];
    }
    return Ok(entries);
  }

  // ---- Reading undoes writing ----

  predicate CleanField(s: string) {
    Absent(s, '\t') && Absent(s, '\n') && Absent(s, '\r')
  }

  /** An entry that can be written and read back: no field holds a separator, and it does not look like a comment. */
  predicate Clean(e: Entry) {
    && CleanField(e.id) && CleanField(e.title) && CleanField(e.system) && CleanField(e.rom) && CleanField(e.color)
    && e.id != "" && e.id[0] != '#'
  }

  predicate AllClean(entries: seq<Entry>) {
    forall i :: 0 <= i < |entries| ==> Clean(entries[i])
  }

  lemma CleanRowSplits(e: Entry)
    requires Clean(e)
    ensures Split(Row(e), '\t') == FieldsOf(e) && EntryOf(FieldsOf(e)) == e
  {
    SplitJoin(FieldsOf(e), '\t');
  }

  lemma CleanRowIsRow(e: Entry)
    requires Clean(e)
    ensures CleanRow(Row(e)) && Row(e) != "" && Row(e)[0] == e.id[0]
  {
    var f := FieldsOf(e);
    assert f[1..] == [e.title, e.system, e.rom, e.color] && f[1..][1..] == [e.system, e.rom, e.color];
    JoinClean(f);
    assert Row(e) == e.id + ['\t'] + Join(f[1..], '\t');
  }

  lemma {:induction false} JoinClean(f: seq<string>)
    requires forall i :: 0 <= i < |f| ==> CleanField(f[i])
    ensures Absent(Join(f, '\t'), '\n') && Absent(Join(f, '\t'), '\r')
  {
    if |f| > 1 {
      JoinClean(f[1..]);
    }
  }

  /** What the file's size, its lines and its number of rows allow. */
  predicate Fits(entries: seq<Entry>) {
    && |Text(entries)| <= MAX_CATALOG_BYTES && |entries| <= MAX_GAMES
    && forall i :: 0 <= i < |entries| ==> |Row(entries[i])| <= MAX_LINE_BYTES
  }

  lemma {:induction false} ReadsRows(entries: seq<Entry>, before: seq<Entry>)
    requires AllClean(entries)
    ensures ReadLines(RowsOf(entries), before).Ok? <==>
      (entries == [] || |before| + |entries| <= MAX_GAMES)
      && forall i :: 0 <= i < |entries| ==> |Row(entries[i])| <= MAX_LINE_BYTES
    ensures ReadLines(RowsOf(entries), before).Ok? ==> ReadLines(RowsOf(entries), before).value == before + entries
    decreases |entries|
  {
    if entries == [] {
      assert before + entries == before;
    } else {
      var e, rest := entries[0], entries[1..];
      assert RowsOf(entries)[1..] == RowsOf(rest);
      CleanRowSplits(e);
      CleanRowIsRow(e);
      hide Row, Split, CleanField;
      assert Clean(e);
      ReadsRows(rest, before + [e]);
      assert before + [e] + rest == before + entries;
      assert forall i :: 0 <= i < |rest| ==> rest[i] == entries[i + 1];
    }
  }

  lemma CatalogLines(entries: seq<Entry>)
    requires AllClean(entries)
    ensures Lines(Text(entries)) == RowsOf(entries)
  {
    var rows := RowsOf(entries);
    hide Row, Clean, Lines;
    forall i | 0 <= i < |rows|
      ensures CleanRow(rows[i])
    {
      CleanRowIsRow(entries[i]);
    }
    LinesOfRows(rows);
  }

  /** A written catalog is read back as the rows written, exactly when it keeps within the reader's limits. */
  lemma CatalogRoundTrip(entries: seq<Entry>)
    requires AllClean(entries)
    ensures ReadText(Text(entries)).Ok? <==> Fits(entries)
    ensures ReadText(Text(entries)).Ok? ==> ReadText(Text(entries)).value == entries
  {
    CatalogLines(entries);
    hide Row, Clean, Lines, RowsOf;
    ReadsRows(entries, []);
    assert [] + entries == entries;
  }

  // ---- Names ----

  predicate SlugChar(c: char) {
    'a' <= c <= 'z' || '0' <= c <= '9'
  }

  /** Words of letters and digits, joined by single hyphens. */
  predicate Slug(s: string) {
    && (forall i :: 0 <= i < |s| ==> SlugChar(s[i]) || s[i] == '-')
    && (s != "" ==> s[0] != '-')
    && (forall i :: 0 <= i < |s| - 1 ==> !(s[i] == '-' && s[i + 1] == '-'))
  }

  function TrimHyphens(s: string): (r: string)
    ensures r <= s && (r != "" ==> r[|r| - 1] != '-')
  {
    if s != "" && s[|s| - 1] == '-' then TrimHyphens(s[..|s| - 1]) else s
  }

  /** A letter or digit is kept; anything else separates words, unless there is no word yet or a hyphen stands already. */
  function SlugStep(slug: string, c: char): string {
    if SlugChar(c) then slug + [c] else if slug != "" && slug[|slug| - 1] != '-' then slug + ['-'] else slug
  }

  function SlugFrom(slug: string, rest: string): string
    decreases |rest|
  {
    if rest == "" || |slug| >= 32 then slug else SlugFrom(SlugStep(slug, rest[0]), rest[1..])
  }

  function SlugOf(lowered: string): string {
    TrimHyphens(SlugFrom("", lowered))
  }

  lemma {:induction false} TrimKeepsWords(s: string)
    requires s != "" && s[0] != '-'
    ensures TrimHyphens(s) != ""
  {
    if s[|s| - 1] == '-' {
      TrimKeepsWords(s[..|s| - 1]);
    }
  }

  lemma {:induction false} SlugFromHolds(slug: string, rest: string)
    requires Slug(slug) && |slug| <= 32
    ensures var r := SlugFrom(slug, rest);
      && Slug(r) && |r| <= 32
      && (r == "" <==> slug == "" && forall i :: 0 <= i < |rest| ==> !SlugChar(rest[i]))
    decreases |rest|
  {
    if rest != "" && |slug| < 32 {
      SlugFromHolds(SlugStep(slug, rest[0]), rest[1..]);
      assert forall i :: 0 < i < |rest| ==> rest[i] == rest[1..][i - 1];
    }
  }

  /** A slug is at most 32 of `a`-`z`, `0`-`9` and inner hyphens; it is empty only when the title has no such letter. */
  lemma SlugIsClean(lowered: string)
    ensures var slug := SlugOf(lowered);
      && Slug(slug) && |slug| <= 32 && (slug != "" ==> slug[|slug| - 1] != '-')
      && (slug == "" <==> forall i :: 0 <= i < |lowered| ==> !SlugChar(lowered[i]))
  {
    SlugFromHolds("", lowered);
    var s := SlugFrom("", lowered);
    if s != "" {
      TrimKeepsWords(s);
    }
  }

  /** The file name of a title, from its characters in lower case. */
  method Slugify(lowered: string) returns (slug: string)
    ensures slug == SlugOf(lowered)
  {
    slug := "";
    var n := 0;
    while n < |lowered|
      invariant n <= |lowered|
      invariant SlugFrom("", lowered) == SlugFrom(slug, lowered[n..])
    {
      if |slug| >= 32 {
        break;
      }
      var c := lowered[n];
      assert lowered[n..][1..] == lowered[n + 1..];
      n := n + 1;
      if SlugChar(c) {
        slug := slug + [c];
      } else if slug != "" && slug[|slug| - 1] != '-' {
        slug := slug + ['-'];
      }
    }
    slug := TrimHyphens(slug);
  }

  predicate White(c: char) {
    || c == ' ' || '\t' <= c <= '\r' || c == '\U{85}' || c == '\U{a0}' || c == '\U{1680}' || '\U{2000}' <= c <= '\U{200a}'
    || c == '\U{2028}' || c == '\U{2029}' || c == '\U{202f}' || c == '\U{205f}' || c == '\U{3000}'
  }

  predicate TitleValid(title: string) {
    && 1 <= |title| <= 64 && !White(title[0]) && !White(title[|title| - 1])
    && forall i :: 0 <= i < |title| ==> !(title[i] < ' ' || '\U{7f}' <= title[i] <= '\U{9f}')
  }

  function Identifier(name: string, slug: string): string {
    var full := "upload-" + name + "-" + slug;
    TrimHyphens(if |full| > 48 then full[..48] else full)
  }

  /** No identifier of a supported system is cut off, so that it tells its system and its slug. */
  lemma IdentifierIsWhole(name: string, slug: string)
    requires |name| <= 3 && Slug(slug) && slug != "" && |slug| <= 32 && slug[|slug| - 1] != '-'
    ensures Identifier(name, slug) == "upload-" + name + "-" + slug
  {
    var full := "upload-" + name + "-" + slug;
    assert full[|full| - 1] == slug[|slug| - 1];
  }

  // ---- Order ----

  /** By system, then by title. */
  predicate NotAfter(a: Entry, b: Entry) {
    if a.system == b.system then AtMost(a.title, b.title) else AtMost(a.system, b.system)
  }

  lemma NotAfterTransitive(a: Entry, b: Entry, c: Entry)
    requires NotAfter(a, b) && NotAfter(b, c)
    ensures NotAfter(a, c)
  {
    if a.system == b.system && b.system == c.system {
      AtMostTransitive(a.title, b.title, c.title);
    } else if a.system != b.system && b.system != c.system {
      AtMostTransitive(a.system, b.system, c.system);
      if a.system == c.system {
        AtMostTotal(a.system, b.system);
      }
    }
  }

  lemma NotAfterTotal(a: Entry, b: Entry)
    ensures NotAfter(a, b) || NotAfter(b, a)
  {
    AtMostTotal(a.system, b.system);
    AtMostTotal(a.title, b.title);
  }

  predicate Sorted(entries: seq<Entry>) {
    forall i, j :: 0 <= i < j < |entries| ==> NotAfter(entries[i], entries[j])
  }

  /** Before the first entry that it may stand before. */
  function Insert(e: Entry, entries: seq<Entry>): seq<Entry> {
    if entries == [] || NotAfter(e, entries[0]) then [e] + entries else [entries[0]] + Insert(e, entries[1..])
  }

  /** The stable order of the catalog. */
  function Sort(entries: seq<Entry>): seq<Entry> {
    if entries == [] then [] else Insert(entries[0], Sort(entries[1..]))
  }

  lemma {:induction false} InsertHolds(e: Entry, entries: seq<Entry>)
    ensures multiset(Insert(e, entries)) == multiset(entries) + multiset{e}
    ensures |Insert(e, entries)| == |entries| + 1
  {
    hide NotAfter;
    if entries != [] && !NotAfter(e, entries[0]) {
      InsertHolds(e, entries[1..]);
      assert entries == [entries[0]] + entries[1..];
    } else {
      assert Insert(e, entries) == [e] + entries;
    }
  }

  lemma {:induction false} InsertSorts(e: Entry, entries: seq<Entry>)
    requires Sorted(entries)
    ensures Sorted(Insert(e, entries))
  {
    if entries != [] {
      var rest := entries[1..];
      if NotAfter(e, entries[0]) {
        forall j | 0 <= j < |entries|
          ensures NotAfter(e, entries[j])
        {
          if j > 0 {
            NotAfterTransitive(e, entries[0], entries[j]);
          }
        }
      } else {
        NotAfterTotal(e, entries[0]);
        hide NotAfter;
        InsertSorts(e, rest);
        InsertHolds(e, rest);
        var inserted := Insert(e, rest);
        forall j | 0 <= j < |inserted|
          ensures NotAfter(entries[0], inserted[j])
        {
          assert inserted[j] in multiset(inserted);
          if inserted[j] != e {
            assert inserted[j] in rest;
          }
        }
      }
    }
  }

  lemma {:induction false} SortHolds(entries: seq<Entry>)
    ensures Sorted(Sort(entries)) && multiset(Sort(entries)) == multiset(entries) && |Sort(entries)| == |entries|
  {
    if entries != [] {
      SortHolds(entries[1..]);
      InsertSorts(entries[0], Sort(entries[1..]));
      InsertHolds(entries[0], Sort(entries[1..]));
      assert entries == [entries[0]] + entries[1..];
    }
  }
}
