/** Building a manifest on export, validating it on restore, and why the two agree. */
module BackupRoundTrip {
  import opened Wrappers
  import opened Ordering
  import opened BackupCatalog
  import opened PortablePaths
  import opened BackupManifest
  import Digests
  import RestoreProtocol

  // ------------------------------------------------------------------- build

  /** The manifest of a package, when there is one. */
  function ManifestOf(d: Directory, rows: seq<Row>, sessionId: string): Manifest
    requires HoldsFixed(d) && forall row | row in rows :: |row.hash| >= 4
  {
    var f := FixedFor(d);
    var es := Listing(rows, f);
    Manifest(FORMAT, sessionId, Database(PRODUCT_PATH, f.product.size, f.product.sha256),
             Database(CATALOG_PATH, f.catalog.size, f.catalog.sha256), es, TotalSize(es),
             [Receipt("BACKUP-007", "not_applicable_by_design")])
  }

  ghost predicate Exportable(d: Directory, rows: seq<Row>)
    requires forall row | row in rows :: |row.hash| >= 4
  {
    && HoldsFixed(d) && HoldsObjects(d, rows) && |rows| <= MAX_BACKUP_ASSET_OBJECTS
    && TotalSize(Listing(rows, FixedFor(d))) <= MAX_U64
  }

  function Unsorted(rows: seq<Row>, f: Fixed): seq<Entry>
    requires forall row | row in rows :: |row.hash| >= 4
  {
    [f.product, f.catalog] + ObjectEntries(rows) + [f.progress] + [f.compatibility]
  }

  /** Sorting the entries by path gives the listing. */
  lemma SortedListing(rows: seq<Row>, f: Fixed)
    requires RowsOk(rows) && FixedOk(f) && forall row | row in rows :: |row.hash| >= 4
    ensures Sort(ByPath, Unsorted(rows, f)) == Listing(rows, f)
  {
    var a, b := Unsorted(rows, f), Listing(rows, f);
    ListingIsSorted(rows, f);
    SortedOrders(b);
    Rearranged(f.product, f.catalog, ObjectEntries(rows), f.progress, f.compatibility);
    hide ByPath, ObjectEntries;
    SortForgetsOrder(ByPath, a, b);
    SortSorts(ByPath, b);
    SortElements(ByPath, b);
    SortedUnique(ByPath, Sort(ByPath, b), b);
  }

  lemma Rearranged(p: Entry, c: Entry, objects: seq<Entry>, g: Entry, k: Entry)
    requires Distinct([c] + objects + [p, g, k])
    ensures Distinct([p, c] + objects + [g] + [k])
    ensures Elements([p, c] + objects + [g] + [k]) == Elements([c] + objects + [p, g, k])
  {
    var a, b := [p, c] + objects + [g] + [k], [c] + objects + [p, g, k];
    var n := |objects|;
    forall i | 0 <= i < |a| ensures a[i] == b[Place(n, i)] { }
    forall j | 0 <= j < |b| ensures exists i | 0 <= i < |a| :: a[i] == b[j] {
      assert a[if j == 0 then 1 else if j <= n then j + 1 else if j == n + 1 then 0 else j] == b[j];
    }
    forall i, j | 0 <= i < j < |a| ensures a[i] != a[j] {
      assert a[i] == b[Place(n, i)] && a[j] == b[Place(n, j)];
    }
  }

  /** Where the entry pushed `i`-th stands in the listing of `n` objects. */
  function Place(n: nat, i: nat): nat {
    if i == 0 then n + 1 else if i == 1 then 0 else if i < n + 2 then i - 1 else i
  }

  method AddUp(es: seq<Entry>) returns (r: Result<nat, ManifestError>)
    ensures r.Success? <==> TotalSize(es) <= MAX_U64
    ensures r.Success? ==> r.value == TotalSize(es)
  {
    var total := 0;
    for i := 0 to |es|
      invariant total == TotalSize(es[..i]) <= MAX_U64
    {
      assert es[..i + 1][..i] == es[..i];
      if total + es[i].size > MAX_U64 {
        TotalGrows(es, i + 1);
        return Failure(SizeOverflow);
      }
      total := total + es[i].size;
    }
    assert es[..|es|] == es;
    return Success(total);
  }

  lemma {:induction false} TotalGrows(es: seq<Entry>, k: nat)
    requires k <= |es|
    ensures TotalSize(es[..k]) <= TotalSize(es)
  {
    if k == |es| {
      assert es[..k] == es;
    } else {
      TotalGrows(es[..|es| - 1], k);
      assert es[..|es| - 1][..k] == es[..k];
    }
  }

  /** Export writes a manifest exactly when the package is complete, small enough and countable; it is the listing. */
  method BuildManifest(d: Directory, rows: seq<Row>, sessionId: string) returns (r: Result<Manifest, ManifestError>)
    requires RowsOk(rows) && HashesAreHex(d)
    ensures forall row | row in rows :: |row.hash| >= 4
    ensures r.Success? <==> Exportable(d, rows)
    ensures r.Success? ==> r.value == ManifestOf(d, rows, sessionId)
  {
    RowsAreLong(rows);
    if !HoldsFixed(d) { return Failure(MissingFile); }
    var f := FixedFor(d);
    FixedPathsAreUsable();
    assert FixedOk(f);
    hide Usable, RowsOk, HoldsFixed, HoldsObjects, ObjectEntries, HashesAreHex;
    assert PathBytes([f.product, f.catalog]) == |PRODUCT_PATH| + |CATALOG_PATH| by {
      assert [f.product, f.catalog] == [f.product] + [f.catalog];
      PathBytesOfBoth([f.product], [f.catalog]);
      SizeOfOne(f.product);
      SizeOfOne(f.catalog);
    }
    var objects := PushObjects(d, rows, [f.product, f.catalog], |PRODUCT_PATH| + |CATALOG_PATH|);
    if objects.Failure? { return Failure(objects.error); }
    UnsortedBytes(rows, f);
    var progress := Push(objects.value.0, objects.value.1, f.progress);
    if progress.Failure? { return Failure(progress.error); }
    var all := Push(progress.value.0, progress.value.1, f.compatibility);
    if all.Failure? { return Failure(all.error); }
    SortedListing(rows, f);
    var entries := Sort(ByPath, all.value.0);
    assert |entries| <= MAX_MANIFEST_ENTRIES;
    var total := AddUp(entries);
    if total.Failure? { return Failure(total.error); }
    return Success(Manifest(FORMAT, sessionId, Database(PRODUCT_PATH, f.product.size, f.product.sha256),
                            Database(CATALOG_PATH, f.catalog.size, f.catalog.sha256), entries, total.value,
                            [Receipt("BACKUP-007", "not_applicable_by_design")]));
  }

  lemma UnsortedBytes(rows: seq<Row>, f: Fixed)
    requires RowsOk(rows) && FixedOk(f) && forall row | row in rows :: |row.hash| >= 4
    ensures
      var objects := [f.product, f.catalog] + ObjectEntries(rows);
      && |Unsorted(rows, f)| == |rows| + 4 == |objects| + 2 == |Listing(rows, f)|
      && PathBytes(objects) + |f.progress.path| + |f.compatibility.path| == 86 + 90 * |rows|
      && PathBytes(objects + [f.progress]) == PathBytes(objects) + |f.progress.path|
  {
    FixedPathsAreUsable();
    ObjectEntriesAre(rows);
    hide Usable, ObjectPath;
    var objects := [f.product, f.catalog] + ObjectEntries(rows);
    assert [f.product, f.catalog] == [f.product] + [f.catalog];
    PathBytesOfBoth([f.product, f.catalog], ObjectEntries(rows));
    PathBytesOfBoth([f.product], [f.catalog]);
    PathBytesOfBoth(objects, [f.progress]);
    SizeOfOne(f.product);
    SizeOfOne(f.catalog);
    SizeOfOne(f.progress);
  }

  // ---------------------------------------------------------------- validate

  method CheckBudget(es: seq<Entry>) returns (r: Result<(), ManifestError>)
    ensures r.Success? <==> |es| <= MAX_MANIFEST_ENTRIES && PathBytes(es) <= MAX_MANIFEST_PATH_BYTES
    ensures r.Failure? ==> r.error == if |es| > MAX_MANIFEST_ENTRIES then EntryLimit else PathLimit
  {
    if |es| > MAX_MANIFEST_ENTRIES { return Failure(EntryLimit); }
    var bytes := 0;
    for i := 0 to |es|
      invariant bytes == PathBytes(es[..i])
    {
      assert es[..i + 1][..i] == es[..i];
      bytes := bytes + |es[i].path|;
    }
    assert es[..|es|] == es;
    if bytes > MAX_MANIFEST_PATH_BYTES { return Failure(PathLimit); }
    return Success(());
  }

  /** The paths before `i` are portable and differ after folding. */
  ghost predicate Collated(es: seq<Entry>, i: nat)
    requires i <= |es|
  {
    NoCollisions(es[..i]) && forall k | 0 <= k < i :: Portable(es[k].path)
  }

  /** The first path at fault, and how. */
  ghost predicate CollisionReported(es: seq<Entry>, e: ManifestError) {
    exists i | 0 <= i < |es| && Collated(es, i) && !Collated(es, i + 1) ::
      e == if Portable(es[i].path) then Collision else UnsafePath
  }

  method CheckCollisions(es: seq<Entry>) returns (r: Result<(), ManifestError>)
    ensures r.Success? <==> NoCollisions(es) && forall e | e in es :: Portable(e.path)
    ensures r.Failure? ==> CollisionReported(es, r.error)
  {
    var folded: set<string> := {};
    for i := 0 to |es|
      invariant forall k | 0 <= k < i :: Portable(es[k].path)
      invariant forall s :: s in folded <==> exists k | 0 <= k < i :: Lowered(es[k].path) == s
      invariant NoCollisions(es[..i])
    {
      assert Collated(es, i);
      if !Portable(es[i].path) {
        assert es[i] in es && !Collated(es, i + 1);
        return Failure(UnsafePath);
      }
      if Lowered(es[i].path) in folded {
        var k :| 0 <= k < i && Lowered(es[k].path) == Lowered(es[i].path);
        assert Lowered(es[..i + 1][k].path) == Lowered(es[..i + 1][i].path) && !Collated(es, i + 1);
        return Failure(Collision);
      }
      folded := folded + {Lowered(es[i].path)};
    }
    assert es[..|es|] == es;
    return Success(());
  }

  function CountKind(es: seq<Entry>, kind: Kind): nat {
    if es == [] then 0 else CountKind(es[..|es| - 1], kind) + if es[|es| - 1].kind == kind then 1 else 0
  }

  datatype Tally = Tally(total: nat, product: nat, catalog: nat, progress: nat, compatibility: nat, objects: nat)

  ghost predicate Tallies(es: seq<Entry>, t: Tally) {
    && t.total == TotalSize(es) && t.objects == |Objects(es)|
    && t.product == CountKind(es, ProductDatabase) && t.catalog == CountKind(es, AssetCatalog)
    && t.progress == CountKind(es, ProgressReceipt) && t.compatibility == CountKind(es, CompatibilityReceipt)
  }

  /** Everything the scan of the entries demands. */
  ghost predicate Scannable(es: seq<Entry>) {
    && (forall e | e in es :: EntryOk(e)) && StrictlySorted(ByPath, es)
    && TotalSize(es) <= MAX_U64 && |Objects(es)| <= MAX_BACKUP_ASSET_OBJECTS
  }

  function TallyWith(t: Tally, e: Entry): Tally {
    var next := t.(total := t.total + e.size);
    match e.kind
    case ProductDatabase => next.(product := next.product + 1)
    case AssetCatalog => next.(catalog := next.catalog + 1)
    case ProgressReceipt => next.(progress := next.progress + 1)
    case CompatibilityReceipt => next.(compatibility := next.compatibility + 1)
    case AssetObject => next.(objects := next.objects + 1)
    case OtherKind => next
  }

  lemma TallyNext(es: seq<Entry>, i: nat, t: Tally)
    requires i < |es| && Tallies(es[..i], t)
    ensures Tallies(es[..i + 1], TallyWith(t, es[i]))
  {
    assert es[..i + 1][..i] == es[..i] && es[..i + 1][i] == es[i];
  }

  lemma ScannableNext(es: seq<Entry>, i: nat, t: Tally)
    requires i < |es| && Scannable(es[..i]) && Tallies(es[..i], t)
    ensures Scannable(es[..i + 1]) <==>
      && EntryOk(es[i]) && (i == 0 || Less(es[i - 1].path, es[i].path))
      && TallyWith(t, es[i]).total <= MAX_U64 && TallyWith(t, es[i]).objects <= MAX_BACKUP_ASSET_OBJECTS
  {
    TallyNext(es, i, t);
    SortedNext(es, i);
    hide EntryOk, StrictlySorted, TallyWith;
    assert es[..i + 1] == es[..i] + [es[i]];
    assert forall e :: e in es[..i + 1] <==> e in es[..i] || e == es[i];
  }

  /** What is wrong with an entry the scan stops at. */
  function EntryFault(es: seq<Entry>, i: nat): ManifestError
    requires i < |es|
  {
    if !Portable(es[i].path) then UnsafePath
    else if i > 0 && !Less(es[i - 1].path, es[i].path) then OutOfOrder
    else if !IsHash(es[i].sha256) then BadHash
    else if TotalSize(es[..i]) + es[i].size > MAX_U64 then SizeOverflow
    else if !Supported(es[i]) then Unsupported
    else ObjectLimit
  }

  /** The scan reports the first entry at which it cannot go on. */
  ghost predicate ScanReported(es: seq<Entry>, e: ManifestError) {
    exists i | 0 <= i < |es| && Scannable(es[..i]) && !Scannable(es[..i + 1]) :: e == EntryFault(es, i)
  }

  /** One entry after those already scanned. */
  method ScanEntry(es: seq<Entry>, i: nat, t: Tally) returns (r: Result<Tally, ManifestError>)
    requires i < |es| && Scannable(es[..i]) && Tallies(es[..i], t)
    ensures r.Success? <==> Scannable(es[..i + 1])
    ensures r.Success? ==> Tallies(es[..i + 1], r.value)
    ensures r.Failure? ==> r.error == EntryFault(es, i)
  {
    var e := es[i];
    ScannableNext(es, i, t);
    TallyNext(es, i, t);
    EntryChecks(e);
    assert t.total == TotalSize(es[..i]);
    hide EntryOk, Portable, Supported, IsHash, Scannable, Tallies;
    if !Portable(e.path) { return Failure(UnsafePath); }
    if i > 0 && !Less(es[i - 1].path, e.path) { return Failure(OutOfOrder); }
    if !IsHash(e.sha256) { return Failure(BadHash); }
    if t.total + e.size > MAX_U64 { return Failure(SizeOverflow); }
    if !Supported(e) { return Failure(Unsupported); }
    var next := TallyWith(t, e);
    if next.objects > MAX_BACKUP_ASSET_OBJECTS { return Failure(ObjectLimit); }
    return Success(next);
  }

  lemma EntryChecks(e: Entry)
    ensures EntryOk(e) <==> Portable(e.path) && IsHash(e.sha256) && Supported(e)
  {
  }

  lemma SortedNext(es: seq<Entry>, i: nat)
    requires i < |es| && StrictlySorted(ByPath, es[..i])
    ensures StrictlySorted(ByPath, es[..i + 1]) <==> i == 0 || Less(es[i - 1].path, es[i].path)
  {
    var all := es[..i + 1];
    if i > 0 {
      if StrictlySorted(ByPath, all) { assert ByPath(all[i - 1], all[i]); }
      if Less(es[i - 1].path, es[i].path) {
        forall j, k | 0 <= j < k < |all| ensures ByPath(all[j], all[k]) {
          if k < i {
            assert ByPath(es[..i][j], es[..i][k]);
          } else if j < i - 1 {
            assert ByPath(es[..i][j], es[..i][i - 1]);
            LessTransitive(all[j].path, all[i - 1].path, all[i].path);
          }
        }
      }
    }
  }

  lemma {:induction false} ScannablePrefix(es: seq<Entry>, k: nat)
    requires k <= |es| && Scannable(es)
    ensures Scannable(es[..k])
  {
    TotalGrows(es, k);
    ObjectsOfBoth(es[..k], es[k..]);
    assert es[..k] + es[k..] == es;
    forall i, j | 0 <= i < j < k ensures ByPath(es[..k][i], es[..k][j]) {
      assert ByPath(es[i], es[j]);
    }
  }

  method ScanEntries(es: seq<Entry>) returns (r: Result<Tally, ManifestError>)
    ensures r.Success? <==> Scannable(es)
    ensures r.Success? ==> Tallies(es, r.value)
    ensures r.Failure? ==> ScanReported(es, r.error)
  {
    var t := Tally(0, 0, 0, 0, 0, 0);
    assert Scannable(es[..0]) && Tallies(es[..0], t);
    hide Scannable, Tallies, EntryFault;
    for i := 0 to |es|
      invariant Scannable(es[..i]) && Tallies(es[..i], t)
    {
      var next := ScanEntry(es, i, t);
      if next.Failure? {
        if Scannable(es) { ScannablePrefix(es, i + 1); }
        return Failure(next.error);
      }
      t := next.value;
    }
    assert es[..|es|] == es;
    return Success(t);
  }

  /** Path order lets a fixed kind occur at most once, so counting it is asking whether it occurs. */
  lemma {:induction false} CountIsPresence(es: seq<Entry>, kind: Kind)
    requires (forall e | e in es :: EntryOk(e)) && StrictlySorted(ByPath, es) && !kind.AssetObject?
    ensures CountKind(es, kind) <= 1
    ensures CountKind(es, kind) == 1 <==> Has(es, kind)
  {
    if es != [] {
      var init, last := es[..|es| - 1], es[|es| - 1];
      assert es == init + [last];
      CountIsPresence(init, kind);
      hide Portable, IsHash, StrictlySorted, ByPath;
      if last.kind == kind && Has(init, kind) {
        var e :| e in init && e.kind == kind;
        assert e in es && last in es && EntryOk(e) && EntryOk(last);
        SamePathClash(es, init, last, e);
      }
    }
  }

  lemma SamePathClash(es: seq<Entry>, init: seq<Entry>, last: Entry, e: Entry)
    requires es == init + [last] && StrictlySorted(ByPath, es) && e in init
    ensures e.path != last.path
  {
    var i :| 0 <= i < |init| && init[i] == e;
    assert ByPath(es[i], es[|init|]);
    LessIrreflexive(e.path);
  }

  /** The first entry with the path. */
  method FindEntry(es: seq<Entry>, path: string) returns (r: Option<Entry>)
    ensures r.None? <==> forall e | e in es :: e.path != path
    ensures r.Some? ==> r.value in es && r.value.path == path
  {
    for i := 0 to |es|
      invariant forall k | 0 <= k < i :: es[k].path != path
    {
      if es[i].path == path { return Some(es[i]); }
    }
    return None;
  }

  method CheckDescriptor(es: seq<Entry>, db: Database) returns (r: Result<(), ManifestError>)
    requires StrictlySorted(ByPath, es)
    ensures r.Success? <==> Describes(es, db)
    ensures r.Failure? ==> r.error == if exists e | e in es :: e.path == db.path then BadDescriptor else MissingEntry
  {
    var found := FindEntry(es, db.path);
    if found.None? { return Failure(MissingEntry); }
    SortedOrders(es);
    forall e | e in es && e.path == db.path ensures e == found.value {
      assert e in Elements(es) && found.value in Elements(es);
      LessIrreflexive(e.path);
    }
    if found.value.sha256 != db.sha256 || found.value.size != db.size { return Failure(BadDescriptor); }
    return Success(());
  }

  predicate HasReceipt(m: Manifest) {
    exists r | r in m.receipts :: r.checkId == "BACKUP-007" && r.disposition == "not_applicable_by_design"
  }

  /** The fault a refused manifest is reported with: the first in the order of the checks. */
  ghost predicate ManifestReported(m: Manifest, e: ManifestError) {
    var es := m.entries;
    if |es| > MAX_MANIFEST_ENTRIES then e == EntryLimit
    else if PathBytes(es) > MAX_MANIFEST_PATH_BYTES then e == PathLimit
    else if m.format != FORMAT || |m.sessionId| != 32 || !IsHex(m.sessionId) then e == BadMarker
    else if m.product.path != PRODUCT_PATH || m.catalog.path != CATALOG_PATH then e == BadDatabasePath
    else if !HasReceipt(m) then e == NoReceipt
    else if !(NoCollisions(es) && forall x | x in es :: Portable(x.path)) then CollisionReported(es, e)
    else if !Scannable(es) then ScanReported(es, e)
    else if !(Has(es, ProductDatabase) && Has(es, AssetCatalog) && Has(es, ProgressReceipt)
              && Has(es, CompatibilityReceipt)) then e == MissingEntry
    else if m.totalBytes != TotalSize(es) then e == BadTotal
    else e == BadDescriptor
  }

  /** Restore accepts a manifest exactly when it is acceptable, and reports the first fault of one that is not. */
  method ValidateManifest(m: Manifest) returns (r: Result<(), ManifestError>)
    ensures r.Success? <==> Acceptable(m)
    ensures r.Failure? ==> ManifestReported(m, r.error)
  {
    hide NoCollisions, Scannable, StrictlySorted, EntryOk, Describes, CollisionReported, ScanReported;
    var budget := CheckBudget(m.entries);
    if budget.Failure? { return budget; }
    if m.format != FORMAT || |m.sessionId| != 32 || !IsHex(m.sessionId) { return Failure(BadMarker); }
    if m.product.path != PRODUCT_PATH || m.catalog.path != CATALOG_PATH { return Failure(BadDatabasePath); }
    if !HasReceipt(m) { return Failure(NoReceipt); }
    EntriesParts(m.entries);
    var collisions := CheckCollisions(m.entries);
    if collisions.Failure? { return collisions; }
    var tally := ScanEntries(m.entries);
    if tally.Failure? { return Failure(tally.error); }
    ScannedParts(m.entries);
    var t := tally.value;
    if t.product != 1 || t.catalog != 1 || t.progress != 1 || t.compatibility != 1 { return Failure(MissingEntry); }
    if t.total != m.totalBytes { return Failure(BadTotal); }
    r := CheckDatabases(m);
  }

  /** Both database descriptors against their entries, which are there. */
  method CheckDatabases(m: Manifest) returns (r: Result<(), ManifestError>)
    requires Scannable(m.entries) && Has(m.entries, ProductDatabase) && Has(m.entries, AssetCatalog)
    requires m.product.path == PRODUCT_PATH && m.catalog.path == CATALOG_PATH
    ensures r.Success? <==> Describes(m.entries, m.product) && Describes(m.entries, m.catalog)
    ensures r.Failure? ==> r.error == BadDescriptor
  {
    DatabasesListed(m.entries);
    hide EntryOk, StrictlySorted, Describes;
    r := CheckDescriptor(m.entries, m.product);
    if r.Failure? { return; }
    r := CheckDescriptor(m.entries, m.catalog);
  }

  lemma DatabasesListed(es: seq<Entry>)
    requires Scannable(es) && Has(es, ProductDatabase) && Has(es, AssetCatalog)
    ensures (exists e | e in es :: e.path == PRODUCT_PATH) && exists e | e in es :: e.path == CATALOG_PATH
  {
    var product :| product in es && product.kind == ProductDatabase;
    var catalog :| catalog in es && catalog.kind == AssetCatalog;
    hide Portable, IsHash, StrictlySorted;
    assert EntryOk(product) && EntryOk(catalog);
  }

  /** The order in which validation asks for its parts. */
  lemma EntriesParts(es: seq<Entry>)
    ensures EntriesAcceptable(es) <==>
      && |es| <= MAX_MANIFEST_ENTRIES && PathBytes(es) <= MAX_MANIFEST_PATH_BYTES
      && (NoCollisions(es) && forall e | e in es :: Portable(e.path))
      && Scannable(es)
      && Has(es, ProductDatabase) && Has(es, AssetCatalog) && Has(es, ProgressReceipt) && Has(es, CompatibilityReceipt)
  {
  }

  lemma ScannedParts(es: seq<Entry>)
    requires Scannable(es)
    ensures StrictlySorted(ByPath, es)
    ensures forall kind: Kind | !kind.AssetObject? :: CountKind(es, kind) == 1 <==> Has(es, kind)
  {
    forall kind: Kind | !kind.AssetObject? ensures CountKind(es, kind) == 1 <==> Has(es, kind) {
      CountIsPresence(es, kind);
    }
  }

  // ------------------------------------------------------------ catalog walk

  /** Catalog rows and object entries in lock step: accepted exactly when they correspond one to one, in order. */
  method ValidateCatalogManifest(m: Manifest, rows: seq<Row>, mayCancel: bool) returns (r: Result<(), ManifestError>)
    requires RowsOk(rows) && forall row | row in rows :: |row.hash| >= 4
    ensures r.Success? ==> Objects(m.entries) == ObjectEntries(rows)
    ensures Objects(m.entries) == ObjectEntries(rows) ==> r.Success? || (mayCancel && r.error == Cancelled)
  {
    var objects := Objects(m.entries);
    ObjectsOnly(m.entries);
    var next: nat := 0;
    var cursor: Option<string> := None;
    hide RowsOk, Page, Objects, ObjectEntries, Agree, AllObjects;
    AgreeNone(objects, rows);
    while true
      invariant next <= |rows| && cursor == CursorAt(rows, next) && Agree(objects, rows, next)
      decreases |rows| - next
    {
      if mayCancel { if * { return Failure(Cancelled); } }
      PageFacts(rows, next);
      var page := Page(rows, cursor);
      if page == [] { break; }
      var walked := WalkPage(objects, next, page, rows, mayCancel);
      if walked.Failure? { return Failure(walked.error); }
      next, cursor := next + |page|, Some(page[|page| - 1].hash);
    }
    AgreeAll(objects, rows);
    if next < |objects| { return Failure(ExtraObject); }
    return Success(());
  }

  /** The first `n` entries are those of the first `n` rows. */
  ghost predicate Agree(objects: seq<Entry>, rows: seq<Row>, n: nat)
    requires forall row | row in rows :: |row.hash| >= 4
  {
    n <= |objects| && n <= |rows| && objects[..n] == ObjectEntries(rows)[..n]
  }

  predicate AllObjects(es: seq<Entry>) {
    forall i | 0 <= i < |es| :: es[i].kind.AssetObject?
  }

  lemma ObjectsOnly(es: seq<Entry>)
    ensures AllObjects(Objects(es))
  {
  }

  lemma AgreeNone(objects: seq<Entry>, rows: seq<Row>)
    requires forall row | row in rows :: |row.hash| >= 4
    ensures Agree(objects, rows, 0)
  {
  }

  lemma AgreeAll(objects: seq<Entry>, rows: seq<Row>)
    requires (forall row | row in rows :: |row.hash| >= 4) && Agree(objects, rows, |rows|)
    ensures |rows| <= |objects| && (|objects| == |rows| <==> objects == ObjectEntries(rows))
  {
  }

  lemma PageFacts(rows: seq<Row>, k: nat)
    requires RowsOk(rows) && k <= |rows|
    ensures
      var page := Page(rows, CursorAt(rows, k));
      && page <= rows[k..] && k + |page| <= |rows| && (page == [] <==> k == |rows|)
      && (page != [] ==> CursorAt(rows, k + |page|) == Some(page[|page| - 1].hash))
  {
    PageResumes(rows, k);
  }

  /** One page of rows against the entries from `next` on. */
  method WalkPage(objects: seq<Entry>, next: nat, page: seq<Row>, ghost rows: seq<Row>, mayCancel: bool)
    returns (r: Result<(), ManifestError>)
    requires forall row | row in rows :: |row.hash| >= 4
    requires Agree(objects, rows, next) && next <= |rows| && page <= rows[next..]
    requires AllObjects(objects)
    ensures r.Success? ==> Agree(objects, rows, next + |page|)
    ensures r.Failure? ==> (mayCancel && r.error == Cancelled) || objects != ObjectEntries(rows)
  {
    ghost var expected := ObjectEntries(rows);
    hide ObjectPath, ObjectEntries;
    for i := 0 to |page|
      invariant next + i <= |objects| && objects[..next + i] == expected[..next + i]
    {
      if mayCancel { if * { return Failure(Cancelled); } }
      var row := page[i];
      assert row == rows[next..][i] == rows[next + i];
      ExpectedAt(rows, next + i);
      if next + i == |objects| { return Failure(AbsentObject); }
      var e := objects[next + i];
      if e.path != ObjectPath(row.hash) { return Failure(AbsentObject); }
      if e.size != row.size || e.sha256 != row.hash { return Failure(ObjectDisagrees); }
    }
    return Success(());
  }

  lemma ExpectedAt(rows: seq<Row>, i: nat)
    requires i < |rows| && forall row | row in rows :: |row.hash| >= 4
    ensures |rows[i].hash| >= 4 && ObjectEntries(rows)[i] == ObjectEntry(rows[i])
  {
  }

  // -------------------------------------------------------------- round trip

  /** What a restore accepts of a package whose catalog has these rows. */
  ghost predicate Restorable(m: Manifest, rows: seq<Row>)
    requires forall row | row in rows :: |row.hash| >= 4
  {
    Acceptable(m) && Objects(m.entries) == ObjectEntries(rows)
  }

  /** Every manifest an export can write is accepted by a restore of the same catalog. */
  lemma ExportedIsRestorable(d: Directory, rows: seq<Row>, sessionId: string)
    requires RowsOk(rows) && (forall row | row in rows :: |row.hash| >= 4) && HashesAreHex(d)
    requires Exportable(d, rows) && |sessionId| == 32 && IsHex(sessionId)
    ensures Restorable(ManifestOf(d, rows, sessionId), rows)
  {
    var m, f := ManifestOf(d, rows, sessionId), FixedFor(d);
    assert FixedOk(f);
    hide EntriesAcceptable, Objects, ObjectEntries, HoldsObjects;
    ListingIsAcceptable(rows, f);
    ListingSizes(rows, f);
    assert m.receipts[0] in m.receipts;
    ListingDescribes(rows, f);
    hide Listing, Describes;
  }

  lemma ListingDescribes(rows: seq<Row>, f: Fixed)
    requires forall row | row in rows :: |row.hash| >= 4
    ensures Describes(Listing(rows, f), Database(f.product.path, f.product.size, f.product.sha256))
    ensures Describes(Listing(rows, f), Database(f.catalog.path, f.catalog.size, f.catalog.sha256))
  {
  }

  /** A restore accepts only manifests an export could have written: header, listing and totals are fixed. */
  lemma RestorableIsListed(m: Manifest, rows: seq<Row>) returns (f: Fixed)
    requires RowsOk(rows) && (forall row | row in rows :: |row.hash| >= 4) && Restorable(m, rows)
    ensures FixedOk(f) && m.entries == Listing(rows, f) && m.totalBytes == TotalSize(Listing(rows, f))
    ensures m.product == Database(PRODUCT_PATH, f.product.size, f.product.sha256)
    ensures m.catalog == Database(CATALOG_PATH, f.catalog.size, f.catalog.sha256)
  {
    f := AcceptedIsListing(rows, m.entries);
    SortedOrders(m.entries);
    DescribedBy(m.entries, m.product, f.product);
    DescribedBy(m.entries, m.catalog, f.catalog);
  }

  lemma DescribedBy(es: seq<Entry>, db: Database, e: Entry)
    requires StrictlySorted(ByPath, es) && Describes(es, db) && e in es && e.path == db.path
    ensures db == Database(e.path, e.size, e.sha256)
  {
    SortedOrders(es);
    var x :| x in es && x.path == db.path && x.sha256 == db.sha256 && x.size == db.size;
    assert x in Elements(es) && e in Elements(es);
    LessIrreflexive(e.path);
  }

  // -------------------------------------------------------- what restore gets

  /** An entry below `data/` as the restore protocol sees it. */
  function Restored(e: Entry, digest: string -> Digests.Digest): RestoreProtocol.Entry
    requires |e.path| >= 5
  {
    RestoreProtocol.Entry(e.path[5..], e.size, digest(e.sha256), e.kind.AssetObject?)
  }

  predicate UnderData(e: Entry) { HasPrefix(e.path, "data/") }

  /** The data entries of a listing, in order: the catalog, the objects, the product database. */
  function DataListing(rows: seq<Row>, f: Fixed): seq<Entry>
    requires forall row | row in rows :: |row.hash| >= 4
  {
    [f.catalog] + ObjectEntries(rows) + [f.product]
  }

  lemma LastOfPath(path: string)
    requires |path| >= 13 && path[|path| - 1] != 'g'
    ensures !RestoreProtocol.IsTemporaryName(path[5..])
  {
  }

  lemma StrippedDiffer(a: Entry, b: Entry)
    requires UnderData(a) && UnderData(b) && ByPath(a, b)
    ensures a.path[5..] != b.path[5..]
  {
    LessIrreflexive(a.path);
    assert a.path == a.path[..5] + a.path[5..] && b.path == b.path[..5] + b.path[5..];
  }

  lemma DataPathsOk(rows: seq<Row>, f: Fixed, e: Entry)
    requires RowsOk(rows) && FixedOk(f) && (forall row | row in rows :: |row.hash| >= 4) && e in DataListing(rows, f)
    ensures UnderData(e) && |e.path| >= 13 && e.path[|e.path| - 1] != 'g'
  {
  }

  lemma {:induction false} ObjectCountIs(es: seq<RestoreProtocol.Entry>, n: nat)
    requires forall i | 0 <= i < |es| :: es[i].isObject ==> 0 < i <= n
    requires n < |es|
    ensures RestoreProtocol.ObjectCount(es) <= n
  {
    ObjectsUpTo(es, n, |es|);
    assert es[..|es|] == es;
  }

  lemma {:induction false} ObjectsUpTo(es: seq<RestoreProtocol.Entry>, n: nat, k: nat)
    requires k <= |es| && forall i | 0 <= i < |es| :: es[i].isObject ==> 0 < i <= n
    ensures RestoreProtocol.ObjectCount(es[..k]) <= if k == 0 then 0 else if k - 1 <= n then k - 1 else n
  {
    if k > 0 {
      ObjectsUpTo(es, n, k - 1);
      assert es[..k][..k - 1] == es[..k - 1];
    }
  }

  /** What manifest validation establishes is all that the restore protocol asks of a package. */
  lemma AcceptedForRestore(rows: seq<Row>, f: Fixed, digest: string -> Digests.Digest, pkg: RestoreProtocol.Package)
    requires RowsOk(rows) && FixedOk(f) && |rows| <= MAX_BACKUP_ASSET_OBJECTS
    requires forall row | row in rows :: |row.hash| >= 4
    requires |pkg.entries| == |rows| + 2
    requires forall i | 0 <= i < |pkg.entries| ::
      |DataListing(rows, f)[i].path| >= 5 && pkg.entries[i] == Restored(DataListing(rows, f)[i], digest)
    ensures RestoreProtocol.ManifestAccepted(pkg)
  {
    hide RestoreProtocol.IsTemporaryName, RestoreProtocol.ObjectCount, UnderData, ObjectPath, RowsOk;
    var es := DataListing(rows, f);
    forall i | 0 <= i < |es| ensures !RestoreProtocol.IsTemporaryName(pkg.entries[i].path) && UnderData(es[i]) {
      assert es[i] in es;
      DataPathsOk(rows, f, es[i]);
      LastOfPath(es[i].path);
    }
    ListingIsSorted(rows, f);
    forall i, j | 0 <= i < j < |es| ensures pkg.entries[i].path != pkg.entries[j].path {
      assert Listing(rows, f)[i] == es[i] && Listing(rows, f)[j] == es[j] && ByPath(es[i], es[j]);
      hide ByPath;
      StrippedDiffer(es[i], es[j]);
    }
    assert forall i | 0 <= i < |es| :: es[i].kind.AssetObject? ==> 0 < i <= |rows|;
    ObjectCountIs(pkg.entries, |rows|);
  }
}
