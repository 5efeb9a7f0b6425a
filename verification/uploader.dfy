/** Adding a ROM to the upload catalog (`native/src/uploader/mod.rs`, `add_rom_with_sync`). */
module UploaderStorage {
  import opened Wrappers
  import opened TextRows
  import opened RomFormats
  import opened UploadRows
  import opened Publication

  const UPLOAD_LIMIT: nat := 34 * 1024 * 1024

  datatype AddError = InvalidTitle | NoSlug | UploadTooLarge | WrongExtension | BadArchive | NotARom(reason: RomError)
                    | BuiltInUnreadable | UploadsUnreadable(rows: RowError) | CatalogFull | AlreadyCataloged
                    | RomExists | RomNotSaved | CatalogNotSaved(rolledBack: bool)

  /** A file that was sent: its extension in lower case, its bytes, and what the only file in it is when it is an archive. */
  datatype Upload = Upload(extension: string, bytes: Bytes, member: Option<Bytes>)

  /** How an installation goes: it fails before anything is visible, or the file is there and its directory syncs or not. */
  datatype Outcome = Fails | Appears(synced: bool)

  /** What the system does during one request. */
  datatype Weather = Weather(rom: Outcome, catalog: Outcome, removed: bool, removalSynced: bool)

  /** What is reported beside success: which of the two directories could not be synced. */
  datatype Added = Added(entry: Entry, romDurable: bool, catalogDurable: bool)

  function Decoded(name: string, upload: Upload): Result<Bytes, AddError> {
    match FormatOf(name)
    case None => Err(NotARom(UnknownSystem))
    case Some(format) =>
      if |upload.bytes| > UPLOAD_LIMIT then Err(UploadTooLarge)
      else if upload.extension == format.extension then Checked(name, upload.bytes)
      else if upload.extension != "zip" then Err(WrongExtension)
      else
        match upload.member
        case None => Err(BadArchive)
        case Some(bytes) => Checked(name, bytes)
  }

  function Checked(name: string, bytes: Bytes): Result<Bytes, AddError> {
    match RomCheck(name, bytes)
    case Err(e) => Err(NotARom(e))
    case Ok(_) => Ok(bytes)
  }

  lemma DecodedIsRom(name: string, upload: Upload)
    ensures Decoded(name, upload).Ok? ==> IsRom(name, Decoded(name, upload).value) && FormatOf(name).Some?
  {
  }

  function RomPath(root: string, name: string, slug: string, extension: string): string {
    root + "roms/" + name + "/" + slug + "." + extension
  }

  predicate Cataloged(entries: seq<Entry>, e: Entry) {
    exists i :: 0 <= i < |entries| && (entries[i].id == e.id || entries[i].rom == e.rom)
  }

  /** No two rows share an identifier or a path. */
  predicate Distinct(entries: seq<Entry>) {
    forall i, j :: 0 <= i < j < |entries| ==> entries[i].id != entries[j].id && entries[i].rom != entries[j].rom
  }

  ghost predicate SafeState(d: Disk) {
    VisibleSafe(d) && LossSafe(d)
  }

  ghost predicate AllSafe(trace: seq<Disk>) {
    forall i :: 0 <= i < |trace| ==> SafeState(trace[i])
  }

  lemma SoundIsSafe(d: Disk, listed: seq<Entry>)
    requires Sound(d, listed)
    ensures SafeState(d)
  {
    SoundIsVisibleSafe(d, listed);
    SoundIsLossSafe(d, listed);
  }

  lemma CleanTogether(a: string, b: string)
    requires CleanField(a) && CleanField(b)
    ensures CleanField(a + b)
  {
  }

  lemma NameIsClean(name: string)
    requires FormatOf(name).Some?
    ensures 2 <= |name| <= 3 && CleanField(name)
  {
  }

  lemma ExtensionIsClean(name: string)
    requires FormatOf(name).Some?
    ensures CleanField(FormatOf(name).value.extension)
  {
  }

  lemma ColorIsClean(name: string)
    requires FormatOf(name).Some?
    ensures CleanField(FormatOf(name).value.color)
  {
  }

  lemma PathIsClean(root: string, name: string, slug: string, extension: string)
    requires CleanField(root) && CleanField(name) && CleanField(slug) && CleanField(extension)
    ensures CleanField(RomPath(root, name, slug, extension))
  {
    CleanTogether(root, "roms/");
    CleanTogether(root + "roms/", name);
    CleanTogether(root + "roms/" + name, "/");
    CleanTogether(root + "roms/" + name + "/", slug);
    CleanTogether(root + "roms/" + name + "/" + slug, ".");
    CleanTogether(root + "roms/" + name + "/" + slug + ".", extension);
    hide CleanField;
  }

  lemma IdentifierIsClean(name: string, slug: string)
    requires CleanField(name) && CleanField(slug)
    ensures var id := Identifier(name, slug); CleanField(id) && id != "" && id[0] == 'u'
  {
    var full := "upload-" + name + "-" + slug;
    CleanTogether("upload-", name);
    CleanTogether("upload-" + name, "-");
    CleanTogether("upload-" + name + "-", slug);
    TrimKeepsWords(if |full| > 48 then full[..48] else full);
  }

  lemma NewEntryIsClean(root: string, name: string, title: string, slug: string)
    requires CleanField(root) && FormatOf(name).Some? && TitleValid(title) && Slug(slug)
    ensures Clean(NewEntry(root, name, title, slug))
  {
    NameIsClean(name);
    ExtensionIsClean(name);
    ColorIsClean(name);
    assert CleanField(slug) && CleanField(title);
    hide FormatOf, CleanField, Slug, TitleValid;
    PathIsClean(root, name, slug, FormatOf(name).value.extension);
    IdentifierIsClean(name, slug);
  }

  function NewEntry(root: string, name: string, title: string, slug: string): Entry
    requires FormatOf(name).Some?
  {
    var format := FormatOf(name).value;
    Entry(Identifier(name, slug), title, name, RomPath(root, name, slug, format.extension), format.color)
  }

  /** A new row that no row shares its name or path with keeps the catalogs distinct, wherever it is sorted to. */
  lemma DistinctWithNew(base: seq<Entry>, listed: seq<Entry>, e: Entry)
    requires Distinct(base + listed) && !Cataloged(base + listed, e)
    ensures Distinct(base + Sort(listed + [e]))
  {
    var before, rows, now := base + listed, listed + [e], Sort(listed + [e]);
    var all := base + rows;
    SortHolds(rows);
    assert all == before + [e];
    forall i, j | 0 <= i < j < |all|
      ensures all[i].id != all[j].id && all[i].rom != all[j].rom
    {
      assert all[i] == before[i];
    }
    assert multiset(base + now) == multiset(base) + multiset(now);
    assert multiset(all) == multiset(base) + multiset(rows);
    DistinctRearranged(all, base + now);
  }

  lemma DistinctRearranged(a: seq<Entry>, b: seq<Entry>)
    requires Distinct(a) && multiset(a) == multiset(b)
    ensures Distinct(b)
  {
    forall i, j | 0 <= i < j < |b|
      ensures b[i].id != b[j].id && b[i].rom != b[j].rom
    {
      TwiceIn(b, i, j);
      assert b[i] in multiset(a) && b[j] in multiset(a);
      var k :| 0 <= k < |a| && a[k] == b[i];
      if b[i] == b[j] {
        AtMostOnce(a, k);
      } else {
        var l :| 0 <= l < |a| && a[l] == b[j];
        assert k != l;
        assert k < l || l < k;
      }
    }
  }

  lemma TwiceIn(s: seq<Entry>, i: nat, j: nat)
    requires i < j < |s|
    ensures s[i] == s[j] ==> multiset(s)[s[i]] >= 2
  {
    assert s == s[..j] + [s[j]] + s[j + 1..];
    assert s[i] == s[..j][i];
    assert s[i] in multiset(s[..j]);
  }

  lemma AtMostOnce(s: seq<Entry>, k: nat)
    requires Distinct(s) && k < |s|
    ensures multiset(s)[s[k]] == 1
  {
    assert s == s[..k] + [s[k]] + s[k + 1..];
    assert s[k] !in s[..k] && s[k] !in s[k + 1..];
    assert multiset(s) == multiset(s[..k]) + multiset{s[k]} + multiset(s[k + 1..]);
  }

  /** The checks a request has to pass before anything is stored, in their order. */
  function Accepted(root: string, name: string, title: string, lowered: string, upload: Upload,
                    base: Option<seq<Entry>>, uploads: Result<seq<Entry>, RowError>): Result<(Entry, Bytes), AddError>
  {
    if !TitleValid(title) then Err(InvalidTitle)
    else if FormatOf(name).None? then Err(NotARom(UnknownSystem))
    else if SlugOf(lowered) == "" then Err(NoSlug)
    else
      match Decoded(name, upload)
      case Err(e) => Err(e)
      case Ok(bytes) =>
        if base.None? then Err(BuiltInUnreadable)
        else
          match uploads
          case Err(e) => Err(UploadsUnreadable(e))
          case Ok(listed) =>
            var e := NewEntry(root, name, title, SlugOf(lowered));
            if |base.value| + |listed| >= 64 then Err(CatalogFull)
            else if Cataloged(base.value + listed, e) then Err(AlreadyCataloged)
            else Ok((e, bytes))
  }

  lemma AcceptedIsSound(root: string, name: string, title: string, lowered: string, upload: Upload,
                        base: Option<seq<Entry>>, uploads: Result<seq<Entry>, RowError>)
    requires CleanField(root)
    ensures var r := Accepted(root, name, title, lowered, upload, base, uploads);
      r.Ok? ==>
        && base.Some? && uploads.Ok? && |base.value| + |uploads.value| < 64
        && Clean(r.value.0) && IsRom(r.value.0.system, r.value.1) && r.value.0.title == title && r.value.0.system == name
        && !Cataloged(base.value + uploads.value, r.value.0) && !Cataloged(uploads.value, r.value.0)
  {
    var r := Accepted(root, name, title, lowered, upload, base, uploads);
    if r.Ok? {
      DecodedIsRom(name, upload);
      SlugIsClean(lowered);
      NewEntryIsClean(root, name, title, SlugOf(lowered));
      NotCatalogedInPart(base.value, uploads.value, r.value.0);
      hide Decoded, Clean, IsRom, SlugOf, Slug, FormatOf, TitleValid, Cataloged;
    }
  }

  lemma NotCatalogedInPart(base: seq<Entry>, listed: seq<Entry>, e: Entry)
    requires !Cataloged(base + listed, e)
    ensures !Cataloged(listed, e)
  {
    forall i | 0 <= i < |listed|
      ensures listed[i].id != e.id && listed[i].rom != e.rom
    {
      assert (base + listed)[|base| + i] == listed[i];
    }
  }

  /** Every file that was there is there, unchanged. */
  ghost predicate KeepsFiles(before: Disk, after: Disk) {
    forall rom :: rom in before.roms ==> rom in after.roms && after.roms[rom] == before.roms[rom]
  }

  // ---- The uploader ----

  class Uploader {
    const root: string
    var disk: Disk
    /** The rows of the catalog, and every state the disk was in. */
    ghost var listed: seq<Entry>
    ghost var trace: seq<Disk>

    ghost predicate Valid()
      reads this
    {
      CleanField(root) && Sound(disk, listed)
    }

    constructor (root: string)
      requires CleanField(root)
      ensures Valid() && this.root == root && listed == [] && AllSafe(trace)
    {
      this.root := root;
      disk := Disk(map[], map[], None, {});
      listed, trace := [], [];
      new;
      assert EntriesOf(None) == [];
      assert forall rom :: Earlier(disk, rom) == {};
    }

    /** Links a file under a name nothing has. */
    method InstallRom(rom: Rom, bytes: Bytes, outcome: Outcome) returns (r: Result<bool, AddError>)
      requires Valid() && AllSafe(trace) && IsRom(rom.system, bytes)
      modifies this`disk, this`trace
      ensures Valid() && AllSafe(trace) && old(trace) <= trace
      ensures disk.catalog == old(disk.catalog) && disk.oldCatalogs == old(disk.oldCatalogs)
      ensures r.Err? ==> disk == old(disk) && r.error == if outcome.Fails? then RomNotSaved else RomExists
      ensures r.Ok? ==> rom !in old(disk.roms) && disk.roms == old(disk.roms)[rom := bytes]
      ensures r.Ok? && r.value ==> rom !in disk.oldRoms
      ensures r.Ok? && !r.value ==> None in Earlier(disk, rom)
      ensures r.Ok? <==> outcome.Appears? && rom !in old(disk.roms)
      ensures r.Ok? ==> r.value == outcome.synced
    {
      if outcome.Fails? {
        return Err(RomNotSaved);
      }
      if rom in disk.roms {
        return Err(RomExists);
      }
      LinkIsSound(disk, listed, rom, bytes);
      disk := Link(disk, rom, bytes);
      SoundIsSafe(disk, listed);
      trace := trace + [disk];
      if outcome.synced {
        SyncRomsIsSound(disk, listed, rom.system);
        disk := SyncRoms(disk, rom.system);
        SoundIsSafe(disk, listed);
        trace := trace + [disk];
      }
      return Ok(outcome.synced);
    }

    /** Renames a new catalog over the old one. */
    method InstallCatalog(rows: seq<Entry>, outcome: Outcome) returns (r: Result<bool, AddError>)
      requires Valid() && AllSafe(trace) && AllClean(rows) && rows != []
      requires (forall e :: e in listed ==> e in rows) && AllHeld(disk.roms, rows)
      modifies this`disk, this`trace, this`listed
      ensures Valid() && AllSafe(trace) && old(trace) <= trace
      ensures disk.roms == old(disk.roms) && disk.oldRoms == old(disk.oldRoms)
      ensures r.Err? ==> disk == old(disk) && listed == old(listed)
      ensures r.Ok? ==> listed == rows && disk.catalog == Some(Text(rows))
      ensures r.Ok? ==> (r.value <==> disk.oldCatalogs == {})
      ensures r.Ok? <==> outcome.Appears?
      ensures r.Ok? ==> r.value == outcome.synced
    {
      if outcome.Fails? {
        return Err(CatalogNotSaved(false));
      }
      ReplaceIsSound(disk, listed, rows);
      disk := ReplaceCatalog(disk, Text(rows));
      listed := rows;
      SoundIsSafe(disk, listed);
      trace := trace + [disk];
      if outcome.synced {
        SyncCatalogIsSound(disk, listed);
        disk := SyncCatalog(disk);
        SoundIsSafe(disk, listed);
        trace := trace + [disk];
      }
      return Ok(outcome.synced);
    }

    /** Takes a file away again that was not cataloged. */
    method RollBack(rom: Rom, removed: bool, synced: bool) returns (done: bool)
      requires Valid() && AllSafe(trace) && rom in disk.roms && IsRom(rom.system, disk.roms[rom])
      requires forall e :: e in listed ==> RomOf(e) != rom
      modifies this`disk, this`trace
      ensures Valid() && AllSafe(trace) && old(trace) <= trace && disk.catalog == old(disk.catalog)
      ensures disk.roms == if removed then old(disk.roms) - {rom} else old(disk.roms)
      ensures done == (removed && synced)
      ensures done ==> rom !in disk.roms && rom !in disk.oldRoms
    {
      if !removed {
        return false;
      }
      UnlinkIsSound(disk, listed, rom);
      disk := Unlink(disk, rom);
      SoundIsSafe(disk, listed);
      trace := trace + [disk];
      if synced {
        SyncRomsIsSound(disk, listed, rom.system);
        disk := SyncRoms(disk, rom.system);
        SoundIsSafe(disk, listed);
        trace := trace + [disk];
      }
      return synced;
    }

    /** The rows that were uploaded so far. */
    method ReadUploads() returns (r: Result<seq<Entry>, RowError>)
      requires Valid()
      ensures r == Uploads() && (r.Ok? ==> r.value == listed)
      ensures r.Ok? <==> disk.catalog.None? || Fits(listed)
    {
      if disk.catalog.None? {
        return Ok([]);
      }
      CatalogRoundTrip(listed);
      r := ReadCatalog(disk.catalog.value);
    }

    /** What reading the upload catalog gives. */
    ghost function Uploads(): Result<seq<Entry>, RowError>
      reads this
    {
      if disk.catalog.None? then Ok([]) else ReadText(disk.catalog.value)
    }

    /**
     One upload. Whatever fails, no file that was there is overwritten, no row is lost, every state on the way is safe, and
     after success the new row stands in the sorted catalog, whose rows and the built-in ones stay distinct and at most 64.
     */
    method AddRom(name: string, title: string, lowered: string, upload: Upload, base: Option<seq<Entry>>, weather: Weather)
      returns (r: Result<Added, AddError>)
      requires Valid() && AllSafe(trace)
      modifies this
      ensures Valid() && AllSafe(trace) && old(trace) <= trace && KeepsFiles(old(disk), disk)
      ensures Accepted(root, name, title, lowered, upload, base, old(Uploads())).Err? ==>
        disk == old(disk) && r == Err(Accepted(root, name, title, lowered, upload, base, old(Uploads())).error)
      ensures r.Ok? <==>
        Accepted(root, name, title, lowered, upload, base, old(Uploads())).Ok? && weather.rom.Appears? && weather.catalog.Appears?
        && RomOf(Accepted(root, name, title, lowered, upload, base, old(Uploads())).value.0) !in old(disk.roms)
      ensures r.Err? ==> listed == old(listed) && disk.catalog == old(disk.catalog)
      ensures r.Err? && Accepted(root, name, title, lowered, upload, base, old(Uploads())).Ok? ==>
        var row := Accepted(root, name, title, lowered, upload, base, old(Uploads())).value;
        Refused(r.error, weather, RomOf(row.0), row.1, old(disk.roms))
      ensures r.Ok? ==> Stored(r.value, old(disk), old(listed)) && Reported(r.value, weather)
      ensures r.Ok? ==>
        var row := Accepted(root, name, title, lowered, upload, base, old(Uploads())).value;
        r.value.entry == row.0 && disk.roms == old(disk.roms)[RomOf(row.0) := row.1]
      ensures r.Ok? ==> r.value.entry.title == title && r.value.entry.system == name
      ensures r.Ok? ==> base.Some? && |base.value| + |listed| <= 64
      ensures r.Ok? && Distinct(base.value + old(listed)) ==> Distinct(base.value + listed)
    {
      var slug := Slugify(lowered);
      var uploads := ReadUploads();
      AcceptedIsSound(root, name, title, lowered, upload, base, uploads);
      var accepted := Accepted(root, name, title, lowered, upload, base, uploads);
      hide Accepted, FormatOf, Clean, CleanField, Sound, Slug, SlugOf, IsRom, AllSafe, Identifier, Text, Cataloged, Distinct;
      if accepted.Err? {
        return Err(accepted.error);
      }
      var (e, bytes) := accepted.value;
      r := Publish(uploads.value, e, bytes, weather);
      SortHolds(old(listed) + [e]);
      if r.Ok? && Distinct(base.value + old(listed)) {
        DistinctWithNew(base.value, old(listed), e);
      }
    }

    /**
     The row is in the sorted catalog, its file is there, what was reported durable is durable, and the file was reported
     durable unless a power loss may take it away.
     */
    ghost predicate Stored(added: Added, before: Disk, rows: seq<Entry>)
      reads this
    {
      && listed == Sort(rows + [added.entry]) && disk.catalog == Some(Text(listed))
      && RomOf(added.entry) !in before.roms && Held(disk.roms, added.entry)
      && (added.romDurable ==> RomOf(added.entry) !in disk.oldRoms)
      && (added.romDurable <==> None !in Earlier(disk, RomOf(added.entry)))
      && (added.catalogDurable <==> disk.oldCatalogs == {})
    }

    /** Nothing is left behind by a refusal, unless the new file could not be taken away again. */
    ghost predicate Refused(error: AddError, weather: Weather, rom: Rom, bytes: Bytes, before: map<Rom, Bytes>)
      reads this`disk
    {
      match error
      case RomNotSaved => weather.rom.Fails? && disk.roms == before
      case RomExists => weather.rom.Appears? && rom in before && disk.roms == before
      case CatalogNotSaved(rolledBack) =>
        && weather.rom.Appears? && rom !in before && weather.catalog.Fails?
        && rolledBack == (weather.removed && weather.removalSynced)
        && disk.roms == (if weather.removed then before else before[rom := bytes])
      case _ => false
    }

    /** Each directory is reported durable exactly when its sync succeeded. */
    ghost predicate Reported(added: Added, weather: Weather) {
      && weather.rom.Appears? && added.romDurable == weather.rom.synced
      && weather.catalog.Appears? && added.catalogDurable == weather.catalog.synced
    }

    method Publish(uploads: seq<Entry>, e: Entry, bytes: Bytes, weather: Weather) returns (r: Result<Added, AddError>)
      requires Valid() && AllSafe(trace) && Clean(e) && IsRom(e.system, bytes)
      requires uploads == listed && !Cataloged(listed, e)
      modifies this
      ensures Valid() && AllSafe(trace) && old(trace) <= trace && KeepsFiles(old(disk), disk)
      ensures r.Ok? <==> weather.rom.Appears? && weather.catalog.Appears? && RomOf(e) !in old(disk.roms)
      ensures r.Err? ==> listed == old(listed) && disk.catalog == old(disk.catalog)
      ensures r.Err? ==> Refused(r.error, weather, RomOf(e), bytes, old(disk.roms))
      ensures r.Ok? ==> r.value.entry == e && Stored(r.value, old(disk), old(listed))
      ensures r.Ok? ==> disk.roms == old(disk.roms)[RomOf(e) := bytes] && Reported(r.value, weather)
    {
      var rom := RomOf(e);
      var rows := Sort(uploads + [e]);
      SortHolds(uploads + [e]);
      var saved := InstallRom(rom, bytes, weather.rom);
      if saved.Err? {
        return Err(saved.error);
      }
      RowsOfNew(uploads, e, disk.roms);
      var published := InstallCatalog(rows, weather.catalog);
      if published.Err? {
        NotNamed(uploads, e);
        var done := RollBack(rom, weather.removed, weather.removalSynced);
        return Err(CatalogNotSaved(done));
      }
      return Ok(Added(e, saved.value, published.value));
    }
  }

  lemma NotNamed(listed: seq<Entry>, e: Entry)
    requires !Cataloged(listed, e)
    ensures forall x :: x in listed ==> RomOf(x) != RomOf(e)
  {
    forall x | x in listed
      ensures RomOf(x) != RomOf(e)
    {
      var i :| 0 <= i < |listed| && listed[i] == x;
      assert listed[i].rom != e.rom;
    }
  }

  lemma RowsOfNew(listed: seq<Entry>, e: Entry, roms: map<Rom, Bytes>)
    requires AllClean(listed) && Clean(e) && AllHeld(roms, listed) && Held(roms, e)
    ensures var rows := Sort(listed + [e]);
      rows != [] && AllClean(rows) && AllHeld(roms, rows) && forall x :: x in listed ==> x in rows
  {
    var all, rows := listed + [e], Sort(listed + [e]);
    SortHolds(all);
    hide Clean, IsRom;
    forall i | 0 <= i < |rows|
      ensures Clean(rows[i])
    {
      assert rows[i] in multiset(rows);
      assert rows[i] in all;
    }
    forall x | x in rows
      ensures Held(roms, x)
    {
      assert x in multiset(rows);
      assert x in all;
    }
    forall x | x in listed
      ensures x in rows
    {
      assert x in all;
      assert x in multiset(all);
    }
  }
}
