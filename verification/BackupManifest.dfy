/** The manifest an export writes and the checks a restore makes of it. */
module BackupManifest {
  import opened Wrappers
  import opened Ordering
  import opened BackupCatalog
  import opened PortablePaths

  const MAX_MANIFEST_ENTRIES: nat := 100_004
  const MAX_MANIFEST_PATH_BYTES: nat := 16 * 1024 * 1024
  const MAX_U64: nat := 0xFFFF_FFFF_FFFF_FFFF
  const FORMAT := "lorepia-directory-backup"

  datatype Kind = ProductDatabase | AssetCatalog | AssetObject | ProgressReceipt | CompatibilityReceipt | OtherKind

  datatype Entry = Entry(path: string, size: nat, sha256: string, kind: Kind)

  datatype Database = Database(path: string, size: nat, sha256: string)

  datatype Receipt = Receipt(checkId: string, disposition: string)

  datatype Manifest = Manifest(format: string, sessionId: string, product: Database, catalog: Database,
                               entries: seq<Entry>, totalBytes: nat, receipts: seq<Receipt>)

  datatype ManifestError =
    | EntryLimit | PathLimit | BadMarker | BadDatabasePath | NoReceipt | UnsafePath | Collision
    | OutOfOrder | BadHash | SizeOverflow | Unsupported | ObjectLimit | MissingEntry | BadTotal | BadDescriptor
    | MissingFile | EntryMismatch | Cancelled | AbsentObject | ObjectDisagrees | ExtraObject

  // ----------------------------------------------------------- acceptability

  predicate ByPath(a: Entry, b: Entry) { Less(a.path, b.path) }

  function PathBytes(es: seq<Entry>): nat {
    if es == [] then 0 else PathBytes(es[..|es| - 1]) + |es[|es| - 1].path|
  }

  function TotalSize(es: seq<Entry>): nat {
    if es == [] then 0 else TotalSize(es[..|es| - 1]) + es[|es| - 1].size
  }

  function Objects(es: seq<Entry>): seq<Entry> {
    if es == [] then []
    else Objects(es[..|es| - 1]) + if es[|es| - 1].kind.AssetObject? then [es[|es| - 1]] else []
  }

  predicate HasPrefix(s: string, p: string) { |p| <= |s| && s[..|p|] == p }

  /** The path and kind pairs the format allows. */
  predicate Supported(e: Entry) {
    match e.kind
    case ProductDatabase => e.path == PRODUCT_PATH
    case AssetCatalog => e.path == CATALOG_PATH
    case ProgressReceipt => e.path == PROGRESS_PATH
    case CompatibilityReceipt => e.path == COMPATIBILITY_PATH
    case AssetObject => HasPrefix(e.path, OBJECTS_PREFIX)
    case OtherKind => false
  }

  predicate EntryOk(e: Entry) { Portable(e.path) && IsHash(e.sha256) && Supported(e) }

  ghost predicate Has(es: seq<Entry>, kind: Kind) { exists e | e in es :: e.kind == kind }

  ghost predicate Describes(es: seq<Entry>, d: Database) {
    exists e | e in es :: e.path == d.path && e.sha256 == d.sha256 && e.size == d.size
  }

  predicate NoCollisions(es: seq<Entry>) {
    forall i, j | 0 <= i < j < |es| :: Lowered(es[i].path) != Lowered(es[j].path)
  }

  ghost predicate EntriesAcceptable(es: seq<Entry>) {
    && |es| <= MAX_MANIFEST_ENTRIES && PathBytes(es) <= MAX_MANIFEST_PATH_BYTES
    && NoCollisions(es)
    && (forall e | e in es :: EntryOk(e))
    && StrictlySorted(ByPath, es)
    && |Objects(es)| <= MAX_BACKUP_ASSET_OBJECTS
    && TotalSize(es) <= MAX_U64
    && Has(es, ProductDatabase) && Has(es, AssetCatalog) && Has(es, ProgressReceipt) && Has(es, CompatibilityReceipt)
  }

  predicate HeaderAcceptable(m: Manifest) {
    && m.format == FORMAT && |m.sessionId| == 32 && IsHex(m.sessionId)
    && m.product.path == PRODUCT_PATH && m.catalog.path == CATALOG_PATH
    && exists r | r in m.receipts :: r.checkId == "BACKUP-007" && r.disposition == "not_applicable_by_design"
  }

  /** What a restore demands of a manifest before it looks at the files. */
  ghost predicate Acceptable(m: Manifest) {
    && HeaderAcceptable(m)
    && EntriesAcceptable(m.entries)
    && m.totalBytes == TotalSize(m.entries)
    && Describes(m.entries, m.product) && Describes(m.entries, m.catalog)
  }

  // --------------------------------------------------------------- built list

  function ObjectEntry(row: Row): Entry
    requires |row.hash| >= 4
  {
    Entry(ObjectPath(row.hash), row.size, row.hash, AssetObject)
  }

  function ObjectEntries(rows: seq<Row>): seq<Entry>
    requires forall row | row in rows :: |row.hash| >= 4
  {
    seq(|rows|, i requires 0 <= i < |rows| => assert rows[i] in rows; ObjectEntry(rows[i]))
  }

  datatype Fixed = Fixed(product: Entry, catalog: Entry, progress: Entry, compatibility: Entry)

  predicate FixedOk(f: Fixed) {
    && f.product.kind.ProductDatabase? && f.product.path == PRODUCT_PATH && IsHash(f.product.sha256)
    && f.catalog.kind.AssetCatalog? && f.catalog.path == CATALOG_PATH && IsHash(f.catalog.sha256)
    && f.progress.kind.ProgressReceipt? && f.progress.path == PROGRESS_PATH && IsHash(f.progress.sha256)
    && f.compatibility.kind.CompatibilityReceipt? && f.compatibility.path == COMPATIBILITY_PATH
    && IsHash(f.compatibility.sha256)
  }

  /** The only entry list a package of these rows can have, in path order. */
  function Listing(rows: seq<Row>, f: Fixed): seq<Entry>
    requires forall row | row in rows :: |row.hash| >= 4
  {
    [f.catalog] + ObjectEntries(rows) + [f.product, f.progress, f.compatibility]
  }

  lemma RowsAreLong(rows: seq<Row>)
    requires RowsOk(rows)
    ensures forall row | row in rows :: IsHash(row.hash) && |row.hash| >= 4
  {
  }

  lemma ListingIsSorted(rows: seq<Row>, f: Fixed)
    requires RowsOk(rows) && FixedOk(f)
    ensures (forall row | row in rows :: |row.hash| >= 4) && StrictlySorted(ByPath, Listing(rows, f))
  {
    RowsAreLong(rows);
    CatalogBeforeProduct();
    ReceiptsComeLast();
    LessTransitive(CATALOG_PATH, PRODUCT_PATH, PROGRESS_PATH);
    LessTransitive(CATALOG_PATH, PROGRESS_PATH, COMPATIBILITY_PATH);
    LessTransitive(PRODUCT_PATH, PROGRESS_PATH, COMPATIBILITY_PATH);
    forall i | 0 <= i < |rows|
      ensures Less(CATALOG_PATH, ObjectPath(rows[i].hash))
      ensures Less(ObjectPath(rows[i].hash), PRODUCT_PATH) && Less(ObjectPath(rows[i].hash), PROGRESS_PATH)
      ensures Less(ObjectPath(rows[i].hash), COMPATIBILITY_PATH)
    {
      ObjectAfterCatalog(rows[i].hash);
      ObjectBeforeProduct(rows[i].hash);
      LessTransitive(ObjectPath(rows[i].hash), PRODUCT_PATH, PROGRESS_PATH);
      LessTransitive(ObjectPath(rows[i].hash), PROGRESS_PATH, COMPATIBILITY_PATH);
    }
    forall i, j | 0 <= i < j < |rows| ensures Less(ObjectPath(rows[i].hash), ObjectPath(rows[j].hash)) {
      PathOrderIsHashOrder(rows[i].hash, rows[j].hash);
    }
    hide Less, ObjectPath;
  }

  lemma {:induction false} PathBytesOfBoth(a: seq<Entry>, b: seq<Entry>)
    ensures PathBytes(a + b) == PathBytes(a) + PathBytes(b)
  {
    if b == [] {
      assert a + b == a;
    } else {
      PathBytesOfBoth(a, b[..|b| - 1]);
      assert (a + b)[..|a + b| - 1] == a + b[..|b| - 1];
    }
  }

  lemma {:induction false} ObjectsOfBoth(a: seq<Entry>, b: seq<Entry>)
    ensures Objects(a + b) == Objects(a) + Objects(b)
  {
    if b == [] {
      assert a + b == a;
    } else {
      ObjectsOfBoth(a, b[..|b| - 1]);
      assert (a + b)[..|a + b| - 1] == a + b[..|b| - 1];
    }
  }

  lemma OneObject(row: Row)
    requires IsHash(row.hash)
    ensures PathBytes([ObjectEntry(row)]) == 90 && Objects([ObjectEntry(row)]) == [ObjectEntry(row)]
  {
    ObjectPathIsUsable(row.hash);
    hide Usable, ObjectPath;
    SizeOfOne(ObjectEntry(row));
  }

  lemma RowsButLast(rows: seq<Row>)
    requires RowsOk(rows) && rows != []
    ensures RowsOk(rows[..|rows| - 1]) && IsHash(rows[|rows| - 1].hash)
  {
  }

  lemma ObjectEntriesGrow(rows: seq<Row>)
    requires rows != [] && forall row | row in rows :: |row.hash| >= 4
    ensures var init, last := rows[..|rows| - 1], rows[|rows| - 1];
      last in rows && ObjectEntries(rows) == ObjectEntries(init) + [ObjectEntry(last)]
  {
    hide ObjectEntry;
  }

  lemma {:induction false} ObjectEntriesAre(rows: seq<Row>)
    requires RowsOk(rows)
    ensures forall row | row in rows :: |row.hash| >= 4
    ensures PathBytes(ObjectEntries(rows)) == 90 * |rows|
    ensures Objects(ObjectEntries(rows)) == ObjectEntries(rows)
  {
    RowsAreLong(rows);
    if rows != [] {
      hide RowsOk, PathBytes, Objects, ObjectEntries, ObjectEntry, IsHash;
      var init, last := rows[..|rows| - 1], rows[|rows| - 1];
      RowsButLast(rows);
      ObjectEntriesAre(init);
      OneObject(last);
      ObjectEntriesGrow(rows);
      PathBytesOfBoth(ObjectEntries(init), [ObjectEntry(last)]);
      ObjectsOfBoth(ObjectEntries(init), [ObjectEntry(last)]);
    }
  }

  /** The listing's objects are the rows in order, and its paths take 90 bytes a row and 86 besides. */
  lemma ListingSizes(rows: seq<Row>, f: Fixed)
    requires RowsOk(rows) && FixedOk(f)
    ensures forall row | row in rows :: |row.hash| >= 4
    ensures Objects(Listing(rows, f)) == ObjectEntries(rows)
    ensures PathBytes(Listing(rows, f)) == 86 + 90 * |rows|
  {
    RowsAreLong(rows);
    ObjectEntriesAre(rows);
    FixedPathsAreUsable();
    hide Usable, ObjectPath;
    var head, objects, tail := [f.catalog], ObjectEntries(rows), [f.product, f.progress, f.compatibility];
    PathBytesOfBoth(head + objects, tail);
    PathBytesOfBoth(head, objects);
    ObjectsOfBoth(head + objects, tail);
    ObjectsOfBoth(head, objects);
    FixedSizes(f);
  }

  lemma FixedSizes(f: Fixed)
    requires FixedOk(f)
    ensures PathBytes([f.catalog]) == |CATALOG_PATH| && Objects([f.catalog]) == []
    ensures PathBytes([f.product, f.progress, f.compatibility]) ==
      |PRODUCT_PATH| + |PROGRESS_PATH| + |COMPATIBILITY_PATH|
    ensures Objects([f.product, f.progress, f.compatibility]) == []
  {
    SizeOfOne(f.catalog);
    SizeOfOne(f.product);
    SizeOfOne(f.progress);
    SizeOfOne(f.compatibility);
    assert [f.product, f.progress, f.compatibility] == [f.product] + [f.progress] + [f.compatibility];
    PathBytesOfBoth([f.product] + [f.progress], [f.compatibility]);
    PathBytesOfBoth([f.product], [f.progress]);
    ObjectsOfBoth([f.product] + [f.progress], [f.compatibility]);
    ObjectsOfBoth([f.product], [f.progress]);
  }

  lemma SizeOfOne(e: Entry)
    ensures PathBytes([e]) == |e.path|
    ensures Objects([e]) == if e.kind.AssetObject? then [e] else []
  {
  }

  lemma ObjectEntryOk(row: Row)
    requires IsHash(row.hash)
    ensures EntryOk(ObjectEntry(row)) && Usable(ObjectPath(row.hash))
  {
    ObjectPathIsUsable(row.hash);
    ObjectPathIsSharded(row.hash);
    assert ObjectPath(row.hash)[..|OBJECTS_PREFIX|] == OBJECTS_PREFIX;
    hide Portable;
  }

  lemma ListingEntriesOk(rows: seq<Row>, f: Fixed)
    requires RowsOk(rows) && FixedOk(f)
    ensures forall row | row in rows :: |row.hash| >= 4
    ensures forall e | e in Listing(rows, f) :: EntryOk(e) && Usable(e.path)
  {
    RowsAreLong(rows);
    FixedPathsAreUsable();
    forall e | e in ObjectEntries(rows) ensures EntryOk(e) && Usable(e.path) {
      var i :| 0 <= i < |rows| && ObjectEntries(rows)[i] == e;
      ObjectEntryOk(rows[i]);
    }
    hide Portable, ObjectPath, HasPrefix;
  }

  lemma UsableSortedDoNotCollide(es: seq<Entry>)
    requires StrictlySorted(ByPath, es) && forall e | e in es :: Usable(e.path)
    ensures NoCollisions(es)
  {
    forall i, j | 0 <= i < j < |es| ensures Lowered(es[i].path) != Lowered(es[j].path) {
      assert es[i] in es && es[j] in es && ByPath(es[i], es[j]);
      LessIrreflexive(es[i].path);
    }
  }

  /** Every catalog of at most 100,000 objects has an acceptable listing, unless its sizes overflow. */
  lemma ListingIsAcceptable(rows: seq<Row>, f: Fixed)
    requires RowsOk(rows) && FixedOk(f) && |rows| <= MAX_BACKUP_ASSET_OBJECTS
    ensures forall row | row in rows :: |row.hash| >= 4
    ensures EntriesAcceptable(Listing(rows, f)) <==> TotalSize(Listing(rows, f)) <= MAX_U64
  {
    ListingIsSorted(rows, f);
    ListingSizes(rows, f);
    ListingEntriesOk(rows, f);
    UsableSortedDoNotCollide(Listing(rows, f));
    var es := Listing(rows, f);
    assert f.catalog in es && f.product in es && f.progress in es && f.compatibility in es;
    hide StrictlySorted, NoCollisions, EntryOk, Usable, TotalSize, PathBytes, Objects, ObjectEntries;
  }

  lemma SortedOrders(es: seq<Entry>)
    requires StrictlySorted(ByPath, es)
    ensures Orders(ByPath, Elements(es)) && Distinct(es)
  {
    forall x | x in Elements(es) ensures !ByPath(x, x) { LessIrreflexive(x.path); }
    forall x, y, z | x in Elements(es) && y in Elements(es) && z in Elements(es) && ByPath(x, y) && ByPath(y, z)
      ensures ByPath(x, z)
    {
      LessTransitive(x.path, y.path, z.path);
    }
    forall x, y | x in Elements(es) && y in Elements(es) ensures x == y || ByPath(x, y) || ByPath(y, x) {
      var i :| 0 <= i < |es| && es[i] == x;
      var j :| 0 <= j < |es| && es[j] == y;
    }
    forall i, j | 0 <= i < j < |es| ensures es[i] != es[j] {
      assert ByPath(es[i], es[j]);
      LessIrreflexive(es[i].path);
    }
  }

  lemma {:induction false} ObjectsAre(es: seq<Entry>)
    ensures forall e :: e in Objects(es) <==> e in es && e.kind.AssetObject?
  {
    if es != [] {
      ObjectsAre(es[..|es| - 1]);
      assert es == es[..|es| - 1] + [es[|es| - 1]];
    }
  }

  lemma KindFixesEntry(es: seq<Entry>, a: Entry, b: Entry)
    requires EntriesAcceptable(es) && a in es && b in es && a.kind == b.kind && !a.kind.AssetObject?
    ensures a == b
  {
  }

  lemma SameElement(rows: seq<Row>, es: seq<Entry>, f: Fixed, e: Entry)
    requires RowsOk(rows) && EntriesAcceptable(es) && FixedOk(f)
    requires (forall row | row in rows :: |row.hash| >= 4) && Objects(es) == ObjectEntries(rows)
    requires f.product in es && f.catalog in es && f.progress in es && f.compatibility in es
    ensures e in es <==> e in Listing(rows, f)
  {
    ObjectsAre(es);
    if e in es {
      assert EntryOk(e);
      match e.kind
      case AssetObject => assert e in ObjectEntries(rows);
      case ProductDatabase => KindFixesEntry(es, e, f.product);
      case AssetCatalog => KindFixesEntry(es, e, f.catalog);
      case ProgressReceipt => KindFixesEntry(es, e, f.progress);
      case CompatibilityReceipt => KindFixesEntry(es, e, f.compatibility);
    }
  }

  /** An accepted manifest whose objects are the rows of the catalog has exactly the listing of those rows. */
  lemma AcceptedIsListing(rows: seq<Row>, es: seq<Entry>) returns (f: Fixed)
    requires RowsOk(rows) && EntriesAcceptable(es)
    requires (forall row | row in rows :: |row.hash| >= 4) && Objects(es) == ObjectEntries(rows)
    ensures FixedOk(f) && es == Listing(rows, f)
  {
    hide EntriesAcceptable, Listing, Objects, ObjectEntries, Portable, IsHash;
    f := Fixed(Pick(es, ProductDatabase), Pick(es, AssetCatalog), Pick(es, ProgressReceipt),
      Pick(es, CompatibilityReceipt));
    var listing := Listing(rows, f);
    forall e ensures e in Elements(es) <==> e in Elements(listing) {
      SameElement(rows, es, f, e);
    }
    ListingIsSorted(rows, f);
    AcceptableIsSorted(es);
    SortedUnique(ByPath, es, listing);
  }

  ghost function Pick(es: seq<Entry>, kind: Kind): (e: Entry)
    requires EntriesAcceptable(es) && !kind.OtherKind? && !kind.AssetObject?
    ensures e in es && e.kind == kind && EntryOk(e)
  {
    var e :| e in es && e.kind == kind; e
  }

  lemma AcceptableIsSorted(es: seq<Entry>)
    requires EntriesAcceptable(es)
    ensures StrictlySorted(ByPath, es) && Orders(ByPath, Elements(es))
  {
    SortedOrders(es);
  }

  // ---------------------------------------------------------------- building

  type Content = string

  /** The package directory and the hash function. */
  datatype Directory = Directory(files: map<string, Content>, hashOf: Content -> string)

  ghost predicate HashesAreHex(d: Directory) {
    forall path | path in d.files :: IsHash(d.hashOf(d.files[path]))
  }

  function EntryFor(d: Directory, path: string, kind: Kind): Entry
    requires path in d.files
  {
    Entry(path, |d.files[path]|, d.hashOf(d.files[path]), kind)
  }

  predicate HoldsFixed(d: Directory) {
    PRODUCT_PATH in d.files && CATALOG_PATH in d.files && PROGRESS_PATH in d.files && COMPATIBILITY_PATH in d.files
  }

  function FixedFor(d: Directory): Fixed
    requires HoldsFixed(d)
  {
    Fixed(EntryFor(d, PRODUCT_PATH, ProductDatabase), EntryFor(d, CATALOG_PATH, AssetCatalog),
          EntryFor(d, PROGRESS_PATH, ProgressReceipt), EntryFor(d, COMPATIBILITY_PATH, CompatibilityReceipt))
  }

  /** The package holds the row's object, with its hash and size. */
  predicate HoldsObject(d: Directory, row: Row)
    requires |row.hash| >= 4
  {
    && ObjectPath(row.hash) in d.files
    && d.hashOf(d.files[ObjectPath(row.hash)]) == row.hash && |d.files[ObjectPath(row.hash)]| == row.size
  }

  predicate HoldsObjects(d: Directory, rows: seq<Row>)
    requires forall row | row in rows :: |row.hash| >= 4
  {
    forall row | row in rows :: HoldsObject(d, row)
  }

  /** Add an entry within the entry and path budgets. */
  method Push(entries: seq<Entry>, pathBytes: nat, e: Entry) returns (r: Result<(seq<Entry>, nat), ManifestError>)
    requires pathBytes == PathBytes(entries)
    ensures r.Success? <==> |entries| < MAX_MANIFEST_ENTRIES && PathBytes(entries) + |e.path| <= MAX_MANIFEST_PATH_BYTES
    ensures r.Success? ==> r.value == (entries + [e], PathBytes(entries + [e]))
  {
    if |entries| >= MAX_MANIFEST_ENTRIES { return Failure(EntryLimit); }
    if pathBytes + |e.path| > MAX_MANIFEST_PATH_BYTES { return Failure(PathLimit); }
    assert (entries + [e])[..|entries|] == entries;
    return Success((entries + [e], pathBytes + |e.path|));
  }

  /** The object entries, page by page; every file is hashed again. */
  method PushObjects(d: Directory, rows: seq<Row>, first: seq<Entry>, firstBytes: nat)
    returns (r: Result<(seq<Entry>, nat), ManifestError>)
    requires RowsOk(rows) && forall row | row in rows :: |row.hash| >= 4
    requires |first| == 2 && firstBytes == PathBytes(first) <= 46
    ensures r.Success? ==>
      HoldsObjects(d, rows) && r.value.0 == first + ObjectEntries(rows) && r.value.1 == PathBytes(r.value.0)
    ensures HoldsObjects(d, rows) && |rows| <= MAX_BACKUP_ASSET_OBJECTS ==> r.Success?
  {
    var entries, pathBytes := first, firstBytes;
    ghost var k := 0;
    var cursor: Option<string> := None;
    hide RowsOk, Page, PrefixPushed, HoldsObjects;
    NonePushed(d, rows, first);
    while true
      invariant k <= |rows| && cursor == CursorAt(rows, k)
      invariant PrefixPushed(d, rows, first, k, entries) && pathBytes == PathBytes(entries)
      decreases |rows| - k
    {
      PageResumes(rows, k);
      var page := Page(rows, cursor);
      if page == [] { break; }
      ghost var start := k;
      for i := 0 to |page|
        invariant k == start + i && k <= |rows| && cursor == CursorAt(rows, k)
        invariant PrefixPushed(d, rows, first, k, entries) && pathBytes == PathBytes(entries)
      {
        assert page[i] == rows[k] && rows[k] in rows;
        var next := PushRow(d, page[i], entries, pathBytes, rows, first, k);
        if next.Failure? { return Failure(next.error); }
        entries, pathBytes := next.value.0, next.value.1;
        cursor, k := Some(page[i].hash), k + 1;
      }
    }
    AllPushed(d, rows, first, entries);
    return Success((entries, pathBytes));
  }

  method PushRow(d: Directory, row: Row, entries: seq<Entry>, pathBytes: nat, ghost rows: seq<Row>,
      ghost first: seq<Entry>, ghost k: nat)
    returns (r: Result<(seq<Entry>, nat), ManifestError>)
    requires RowsOk(rows) && (forall row | row in rows :: |row.hash| >= 4)
    requires k < |rows| && row == rows[k] && row in rows
    requires PrefixPushed(d, rows, first, k, entries) && pathBytes == PathBytes(entries)
    requires |first| == 2 && PathBytes(first) <= 46
    ensures r.Success? ==> PrefixPushed(d, rows, first, k + 1, r.value.0) && r.value.1 == PathBytes(r.value.0)
    ensures HoldsObjects(d, rows) && |rows| <= MAX_BACKUP_ASSET_OBJECTS ==> r.Success?
  {
    if !HoldsObject(d, row) {
      return Failure(if ObjectPath(row.hash) in d.files then EntryMismatch else MissingFile);
    }
    PushedBytes(d, rows, first, k, entries);
    PushedNext(d, rows, first, k, entries);
    hide RowsOk, HoldsObject, ObjectPath;
    r := Push(entries, pathBytes, EntryFor(d, ObjectPath(row.hash), AssetObject));
  }

  lemma NonePushed(d: Directory, rows: seq<Row>, first: seq<Entry>)
    requires forall row | row in rows :: |row.hash| >= 4
    ensures PrefixPushed(d, rows, first, 0, first)
  {
  }

  ghost predicate PrefixPushed(d: Directory, rows: seq<Row>, first: seq<Entry>, k: nat, entries: seq<Entry>)
    requires k <= |rows| && forall row | row in rows :: |row.hash| >= 4
  {
    && |entries| == |first| + k && entries[..|first|] == first
    && forall i | 0 <= i < k ::
         rows[i] in rows && HoldsObject(d, rows[i]) && entries[|first| + i] == ObjectEntry(rows[i])
  }

  lemma PushedNext(d: Directory, rows: seq<Row>, first: seq<Entry>, k: nat, entries: seq<Entry>)
    requires k < |rows| && (forall row | row in rows :: |row.hash| >= 4) && PrefixPushed(d, rows, first, k, entries)
    requires rows[k] in rows && HoldsObject(d, rows[k])
    ensures PrefixPushed(d, rows, first, k + 1, entries + [EntryFor(d, ObjectPath(rows[k].hash), AssetObject)])
  {
  }

  lemma AllPushed(d: Directory, rows: seq<Row>, first: seq<Entry>, entries: seq<Entry>)
    requires (forall row | row in rows :: |row.hash| >= 4) && PrefixPushed(d, rows, first, |rows|, entries)
    ensures HoldsObjects(d, rows) && entries == first + ObjectEntries(rows)
  {
  }

  lemma PushedBytes(d: Directory, rows: seq<Row>, first: seq<Entry>, k: nat, entries: seq<Entry>)
    requires RowsOk(rows) && k < |rows| && (forall row | row in rows :: |row.hash| >= 4)
    requires PrefixPushed(d, rows, first, k, entries)
    ensures PathBytes(entries) == PathBytes(first) + 90 * k && |ObjectPath(rows[k].hash)| == 90
  {
    var done := rows[..k];
    assert forall row | row in done :: row in rows;
    ObjectEntriesAre(done);
    ObjectPathIsUsable(rows[k].hash);
    assert entries == first + ObjectEntries(done) by {
      hide ObjectPath, HoldsObject;
      assert entries == first + entries[|first|..];
      assert entries[|first|..] == ObjectEntries(done);
    }
    PathBytesOfBoth(first, ObjectEntries(done));
  }
}
