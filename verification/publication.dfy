/**
 Publishing an uploaded ROM (`native/src/uploader/mod.rs`): the file first, its catalog row second, and what is left when
 the machine stops in between.

 A directory change is visible at once; until the directory is synced, a power loss may also bring back what was there
 before. A file's bytes are synced before it is linked or renamed into place, so a name never shows half a file.
 */
module Publication {
  import opened Wrappers
  import opened TextRows
  import opened RomFormats
  import opened UploadRows

  datatype Rom = Rom(system: string, path: string)

  datatype Disk = Disk(roms: map<Rom, Bytes>, oldRoms: map<Rom, set<Option<Bytes>>>,
                       catalog: Option<string>, oldCatalogs: set<Option<string>>)

  /** What is found after the power comes back. */
  datatype Image = Image(roms: map<Rom, Bytes>, catalog: Option<string>)

  function FileAt(roms: map<Rom, Bytes>, rom: Rom): Option<Bytes> {
    if rom in roms then Some(roms[rom]) else None
  }

  function Earlier(d: Disk, rom: Rom): set<Option<Bytes>> {
    if rom in d.oldRoms then d.oldRoms[rom] else {}
  }

  ghost predicate AfterLoss(d: Disk, image: Image) {
    && (forall rom :: FileAt(image.roms, rom) == FileAt(d.roms, rom) || FileAt(image.roms, rom) in Earlier(d, rom))
    && (image.catalog == d.catalog || image.catalog in d.oldCatalogs)
  }

  // ---- Steps ----

  function Link(d: Disk, rom: Rom, bytes: Bytes): Disk {
    d.(roms := d.roms[rom := bytes], oldRoms := d.oldRoms[rom := Earlier(d, rom) + {FileAt(d.roms, rom)}])
  }

  function Unlink(d: Disk, rom: Rom): Disk {
    d.(roms := d.roms - {rom}, oldRoms := d.oldRoms[rom := Earlier(d, rom) + {FileAt(d.roms, rom)}])
  }

  function SyncRoms(d: Disk, system: string): Disk {
    d.(oldRoms := map rom | rom in d.oldRoms && rom.system != system :: d.oldRoms[rom])
  }

  function ReplaceCatalog(d: Disk, text: string): Disk {
    d.(catalog := Some(text), oldCatalogs := d.oldCatalogs + {d.catalog})
  }

  function SyncCatalog(d: Disk): Disk {
    d.(oldCatalogs := {})
  }

  // ---- Safety ----

  /** The rows a dashboard could read from a catalog file. */
  function EntriesOf(catalog: Option<string>): seq<Entry> {
    if catalog.None? then []
    else
      match ReadText(catalog.value)
      case Err(_) => []
      case Ok(entries) => entries
  }

  function RomOf(e: Entry): Rom {
    Rom(e.system, e.rom)
  }

  /** The row's file is there, and its bytes passed the check of its system. */
  predicate Held(roms: map<Rom, Bytes>, e: Entry) {
    RomOf(e) in roms && IsRom(e.system, roms[RomOf(e)])
  }

  /** Every row of the catalog names a file that is there and valid. */
  ghost predicate VisibleSafe(d: Disk) {
    forall e :: e in EntriesOf(d.catalog) ==> Held(d.roms, e)
  }

  /** After a power loss too, unless the file's directory was not synced since the file appeared. */
  ghost predicate LossSafe(d: Disk) {
    forall image :: AfterLoss(d, image) ==> ImageSafe(d, image)
  }

  ghost predicate ImageSafe(d: Disk, image: Image) {
    forall e :: e in EntriesOf(image.catalog) ==>
      Held(image.roms, e) || (RomOf(e) !in image.roms && None in Earlier(d, RomOf(e)))
  }

  /** The rows the catalog was written from. */
  ghost predicate CatalogIs(catalog: Option<string>, listed: seq<Entry>) {
    AllClean(listed) && catalog == if listed == [] && catalog.None? then None else Some(Text(listed))
  }

  ghost predicate Within(catalog: Option<string>, listed: seq<Entry>) {
    forall e :: e in EntriesOf(catalog) ==> e in listed
  }

  ghost predicate AllHeld(roms: map<Rom, Bytes>, listed: seq<Entry>) {
    forall e :: e in listed ==> Held(roms, e)
  }

  /** Every file that a power loss may bring back is a ROM. */
  ghost predicate OldFilesValid(d: Disk) {
    forall rom, bytes :: Some(bytes) in Earlier(d, rom) ==> IsRom(rom.system, bytes)
  }

  ghost predicate OldCatalogsWithin(d: Disk, listed: seq<Entry>) {
    forall t :: t in d.oldCatalogs ==> Within(t, listed)
  }

  ghost predicate Sound(d: Disk, listed: seq<Entry>) {
    CatalogIs(d.catalog, listed) && AllHeld(d.roms, listed) && OldFilesValid(d) && OldCatalogsWithin(d, listed)
  }

  lemma WrittenRowsOnly(catalog: Option<string>, listed: seq<Entry>)
    requires CatalogIs(catalog, listed)
    ensures Within(catalog, listed)
  {
    if catalog.Some? {
      CatalogRoundTrip(listed);
    }
  }

  lemma SoundIsVisibleSafe(d: Disk, listed: seq<Entry>)
    requires Sound(d, listed)
    ensures VisibleSafe(d)
  {
    WrittenRowsOnly(d.catalog, listed);
    hide CatalogIs, EntriesOf, Held;
  }

  lemma SoundIsLossSafe(d: Disk, listed: seq<Entry>)
    requires Sound(d, listed)
    ensures LossSafe(d)
  {
    WrittenRowsOnly(d.catalog, listed);
    hide CatalogIs, EntriesOf, IsRom;
    forall image | AfterLoss(d, image)
      ensures ImageSafe(d, image)
    {
      assert Within(image.catalog, listed);
      forall e | e in EntriesOf(image.catalog)
        ensures Held(image.roms, e) || (RomOf(e) !in image.roms && None in Earlier(d, RomOf(e)))
      {
        assert e in listed && Held(d.roms, e);
        var rom := RomOf(e);
        assert FileAt(image.roms, rom) == FileAt(d.roms, rom) || FileAt(image.roms, rom) in Earlier(d, rom);
        if rom in image.roms && FileAt(image.roms, rom) != FileAt(d.roms, rom) {
          assert Some(image.roms[rom]) in Earlier(d, rom);
        }
      }
    }
  }

  lemma LinkIsSound(d: Disk, listed: seq<Entry>, rom: Rom, bytes: Bytes)
    requires Sound(d, listed) && rom !in d.roms && IsRom(rom.system, bytes)
    ensures Sound(Link(d, rom, bytes), listed)
  {
    hide CatalogIs, Within, IsRom;
    var after := Link(d, rom, bytes);
    forall e | e in listed
      ensures Held(after.roms, e)
    {
      assert Held(d.roms, e);
    }
    forall r, b | Some(b) in Earlier(after, r)
      ensures IsRom(r.system, b)
    {
      assert Some(b) in Earlier(d, r);
    }
  }

  /** Taking a file away again that no row names. */
  lemma UnlinkIsSound(d: Disk, listed: seq<Entry>, rom: Rom)
    requires Sound(d, listed) && rom in d.roms && IsRom(rom.system, d.roms[rom])
    requires forall e :: e in listed ==> RomOf(e) != rom
    ensures Sound(Unlink(d, rom), listed)
  {
    hide CatalogIs, Within, IsRom;
    var after := Unlink(d, rom);
    forall e | e in listed
      ensures Held(after.roms, e)
    {
      assert Held(d.roms, e);
    }
    forall r, b | Some(b) in Earlier(after, r)
      ensures IsRom(r.system, b)
    {
      assert Some(b) in Earlier(d, r) || (r == rom && b == d.roms[rom]);
    }
  }

  lemma SyncRomsIsSound(d: Disk, listed: seq<Entry>, system: string)
    requires Sound(d, listed)
    ensures Sound(SyncRoms(d, system), listed)
  {
    hide CatalogIs, Within, IsRom, Held;
    var after := SyncRoms(d, system);
    forall r, b | Some(b) in Earlier(after, r)
      ensures IsRom(r.system, b)
    {
      assert Some(b) in Earlier(d, r);
    }
  }

  lemma ReplaceIsSound(d: Disk, listed: seq<Entry>, rows: seq<Entry>)
    requires Sound(d, listed) && AllClean(rows) && rows != []
    requires forall e :: e in listed ==> e in rows
    requires AllHeld(d.roms, rows)
    ensures Sound(ReplaceCatalog(d, Text(rows)), rows)
  {
    WrittenRowsOnly(d.catalog, listed);
    hide EntriesOf, IsRom, Held, Text, AllClean;
    var after := ReplaceCatalog(d, Text(rows));
    forall t | t in after.oldCatalogs
      ensures Within(t, rows)
    {
      assert Within(t, listed);
    }
    assert OldFilesValid(after) by {
      forall r, b | Some(b) in Earlier(after, r)
        ensures IsRom(r.system, b)
      {
        assert Some(b) in Earlier(d, r);
      }
    }
  }

  lemma SyncCatalogIsSound(d: Disk, listed: seq<Entry>)
    requires Sound(d, listed)
    ensures Sound(SyncCatalog(d), listed)
  {
    hide CatalogIs, Within, IsRom, Held;
    forall r, b | Some(b) in Earlier(SyncCatalog(d), r)
      ensures IsRom(r.system, b)
    {
      assert Some(b) in Earlier(d, r);
    }
  }

  /** A power loss can leave a catalog that lists the row, and not its file. */
  ghost predicate MayLose(d: Disk, e: Entry) {
    exists image :: AfterLoss(d, image) && e in EntriesOf(image.catalog) && !Held(image.roms, e)
  }

  /** The row is in the catalog, or in an older one that may come back. */
  ghost predicate MayList(d: Disk, e: Entry) {
    exists t :: (t == d.catalog || t in d.oldCatalogs) && e in EntriesOf(t)
  }

  /** What a power loss leaves when the file is gone and the catalog is the given one. */
  function Without(d: Disk, rom: Rom, catalog: Option<string>): Image {
    Image(d.roms - {rom}, catalog)
  }

  /**
   The exception is exact: a row can be left without its file when the file's absence was not synced away and a catalog that
   lists it may be found, and in no other case. This is what the uploader warns of.
   */
  lemma LostExactlyWhenUnsynced(d: Disk, listed: seq<Entry>, e: Entry)
    requires Sound(d, listed)
    ensures MayLose(d, e) <==> None in Earlier(d, RomOf(e)) && MayList(d, e)
  {
    SoundIsLossSafe(d, listed);
    hide Sound, EntriesOf, IsRom;
    if MayLose(d, e) {
      var image :| AfterLoss(d, image) && e in EntriesOf(image.catalog) && !Held(image.roms, e);
      assert ImageSafe(d, image);
    }
    if None in Earlier(d, RomOf(e)) && MayList(d, e) {
      var t :| (t == d.catalog || t in d.oldCatalogs) && e in EntriesOf(t);
      var image := Without(d, RomOf(e), t);
      assert AfterLoss(d, image) && !Held(image.roms, e);
    }
  }

  /**
   And it happens: when the file's directory was not synced and the catalog's was, a power loss can leave a row without its
   file.
   */
  lemma UnsyncedRomMayBeLost(e: Entry, bytes: Bytes)
    requires Clean(e) && IsRom(e.system, bytes) && Fits([e])
    ensures var d := SyncCatalog(ReplaceCatalog(Link(Disk(map[], map[], None, {}), RomOf(e), bytes), Text([e])));
      var image := Image(map[], Some(Text([e])));
      Sound(d, [e]) && AfterLoss(d, image) && e in EntriesOf(image.catalog) && !Held(image.roms, e)
  {
    var empty := Disk(map[], map[], None, {});
    assert EntriesOf(None) == [];
    assert Sound(empty, []);
    LinkIsSound(empty, [], RomOf(e), bytes);
    var linked := Link(empty, RomOf(e), bytes);
    CatalogRoundTrip([e]);
    hide Text, IsRom, Clean, Fits, ReadText;
    ReplaceIsSound(linked, [], [e]);
    SyncCatalogIsSound(ReplaceCatalog(linked, Text([e])), [e]);
  }
}
