/** `export_backup` as it runs: every change of the site is a step of `BackupSession`, kept in `history`. */
module BackupExporter {
  import opened Wrappers
  import opened BackupCatalog
  import opened BackupExport
  import opened BackupSession

  datatype ExportError =
    | DestinationExists | JournalConflict | MissingJournal | MissingCatalog | Cancelled | LeaseExpired
    | ObjectLimit | PathNotDerived | StoreFailed | EntryMismatch | InsufficientSpace | FreeSpaceUnknown | Io

  /** The errors after which the partial directory is kept for the next call. */
  predicate IsResumable(e: ExportError) {
    e.Cancelled? || e.InsufficientSpace? || e.FreeSpaceUnknown? || e.Io?
  }

  /** Rows the package format takes. */
  ghost predicate Exportable(hashOf: Content -> string, rows: seq<Row>, assets: map<string, Content>) {
    && RowsOk(rows) && |rows| <= MAX_BACKUP_ASSET_OBJECTS && PathsDerived(rows)
    && Supplies(Snapshot(rows, hashOf), assets)
  }

  /** The rows a call exports: those of the snapshot it resumes, or the rows active now. */
  function Target(s: Site, active: seq<Row>): seq<Row> {
    if Holding(s) then Rows(s.partial.value) else active
  }

  class Exporter {
    const hashOf: Content -> string
    const mayStop: bool
    var site: Site
    ghost var history: History

    constructor (hashOf: Content -> string, site: Site, mayStop: bool, ghost history: History)
      requires Legal(hashOf, history) && history.site == site
      ensures Valid() && this.hashOf == hashOf && this.site == site && this.mayStop == mayStop
      ensures this.history == history
    {
      this.hashOf, this.site, this.mayStop, this.history := hashOf, site, mayStop, history;
      HistoryKeepsInv(hashOf, history);
    }

    ghost predicate Valid()
      reads this
    {
      Legal(hashOf, history) && history.site == site && Inv(hashOf, site)
    }

    /** One step. */
    method Do(step: Step)
      requires Valid() && Enabled(hashOf, site, step)
      modifies this
      ensures Valid() && site == Apply(hashOf, old(site), step)
      ensures history == Then(old(history), step, site)
    {
      StepKeepsInv(hashOf, site, step);
      hide Inv, Enabled;
      site := Apply(hashOf, site, step);
      history := Then(history, step, site);
    }

    /** Where the caller may cancel or the file system may fail. */
    method Interruption() returns (e: Option<ExportError>)
      ensures e.Some? ==> mayStop && (e.value.Cancelled? || e.value.Io?)
    {
      if mayStop {
        if * { return Some(Cancelled); }
        if * { return Some(Io); }
      }
      return None;
    }

    /** Where work of the product or asset store may be cancelled or fail. */
    method StoreFailure() returns (e: Option<ExportError>)
      ensures e.Some? ==> mayStop && (e.value.Cancelled? || e.value.StoreFailed?)
    {
      if mayStop {
        if * { return Some(Cancelled); }
        if * { return Some(StoreFailed); }
      }
      return None;
    }

    /** What the free-space policy may refuse. */
    method SpaceRefusal() returns (e: Option<ExportError>)
      ensures e.Some? ==> mayStop && (e.value.InsufficientSpace? || e.value.FreeSpaceUnknown?)
    {
      if mayStop {
        if * { return Some(InsufficientSpace); }
        if * { return Some(FreeSpaceUnknown); }
      }
      return None;
    }

    // ------------------------------------------------------------------- removal

    /** `remove_dir_all`: the journal goes before or after the rest. */
    method RemoveAll() returns (done: bool)
      requires Valid() && Removing(site) && site.partial.value.journal.Some?
      modifies this
      ensures Valid()
      ensures !mayStop ==> done
      ensures done ==> site == old(site).(partial := None)
      ensures !done ==> Removing(site) && site.dest == old(site).dest
    {
      hide Inv, Legal;
      var journalFirst := *;
      if journalFirst { Do(DeleteJournal); }
      done := RemoveFiles();
      if !done { return; }
      if site.partial.value.journal.Some? { Do(DeleteJournal); }
      Do(DeleteDirectory);
    }

    /** Everything in the directory but the journal. */
    method RemoveFiles() returns (done: bool)
      requires Valid() && Removing(site)
      modifies this
      ensures Valid() && Removing(site) && site == old(site).(partial := site.partial)
      ensures !mayStop ==> done
      ensures done ==> site.partial == Some(FRESH.(journal := old(site).partial.value.journal))
    {
      hide Inv, Legal, RowsOk, CanCopy;
      while site.partial.value.files != map[]
        invariant Valid() && Removing(site)
        invariant site == old(site).(partial := Some(old(site).partial.value.(files := site.partial.value.files)))
        decreases |site.partial.value.files|
      {
        if mayStop { if * { return false; } }
        var hash :| hash in site.partial.value.files;
        Do(DeleteObject(hash));
      }
      done := RemoveRest();
    }

    method RemoveRest() returns (done: bool)
      requires Valid() && Removing(site) && site.partial.value.files == map[]
      modifies this
      ensures Valid() && Removing(site) && site == old(site).(partial := site.partial)
      ensures !mayStop ==> done
      ensures done ==> site.partial == Some(FRESH.(journal := old(site).partial.value.journal))
    {
      hide Inv, Legal, RowsOk, CanCopy;
      while site.partial.value.temps != map[]
        invariant Valid() && Removing(site) && site.partial.value.files == map[]
        invariant site == old(site).(partial := Some(old(site).partial.value.(temps := site.partial.value.temps)))
        decreases |site.partial.value.temps|
      {
        if mayStop { if * { return false; } }
        var hash :| hash in site.partial.value.temps;
        Do(DeleteTemp(hash));
      }
      done := RemoveSnapshots();
    }

    method RemoveSnapshots() returns (done: bool)
      requires Valid() && Removing(site) && site.partial.value.files == map[] && site.partial.value.temps == map[]
      modifies this
      ensures Valid() && Removing(site) && site == old(site).(partial := site.partial)
      ensures !mayStop ==> done
      ensures done ==> site.partial == Some(FRESH.(journal := old(site).partial.value.journal))
    {
      hide Inv, Legal, RowsOk, CanCopy;
      if site.partial.value.product { Do(DeleteProduct); }
      if mayStop { if * { return false; } }
      if site.partial.value.catalog.Some? { Do(DeleteCatalog); }
      if mayStop { if * { return false; } }
      if site.partial.value.folders { Do(DeleteFolders); }
      return true;
    }

    /** `abandon_export`: gives up the lease the journal names and removes the directory. */
    method Abandon() returns (r: Result<(), ExportError>)
      requires Valid() && site.call.NoCall?
      modifies this
      ensures Valid() && site.call.NoCall? && site.dest == old(site).dest
      ensures r.Success? ==> site == Site(None, None, NoCall, old(site).dest)
      ensures Stranded(old(site)) || old(site).partial == Some(FRESH) ==>
        r == Failure(MissingJournal) && site == old(site)
      ensures !mayStop && !Stranded(old(site)) && old(site).partial != Some(FRESH) ==> r.Success?
      ensures r.Failure? ==> r.error.MissingJournal? || r.error.Io?
    {
      assert site.partial.None? ==> site.lease.None?;
      hide Inv, Legal;
      if site.partial.None? { return Success(()); }
      if site.partial.value.journal.None? { return Failure(MissingJournal); }
      if site.lease.Some? { Do(LoseLease); }
      var done := RemoveAll();
      if !done { return Failure(Io); }
      return Success(());
    }

    // --------------------------------------------------------------------- entry

    method StartFresh() returns (r: Result<(), ExportError>)
      requires Valid() && site.call.NoCall? && site.partial.None? && site.dest.None?
      modifies this
      ensures Valid() && site.dest.None?
      ensures r.Success? ==> AtWork(site) && site.partial.value.journal.value.phase.Prepared?
      ensures r.Failure? ==> site.call.NoCall? && (site == old(site) || site == old(site).(partial := Some(FRESH)))
      ensures !mayStop ==> r.Success?
      ensures r.Failure? ==> !r.error.JournalConflict?
    {
      hide Inv, Legal;
      var refused := SpaceRefusal();
      if refused.Some? { return Failure(refused.value); }
      Do(CreatePartial);
      var stop := Interruption();
      if stop.Some? { return Failure(stop.value); }
      Do(Begin);
      Do(Admit);
      return Success(());
    }

    /** Looks at what is there: resumes it, starts over, or refuses. */
    method Enter() returns (r: Result<(), ExportError>)
      requires Valid() && site.call.NoCall? && site.dest.None?
      modifies this
      ensures Valid() && site.dest.None?
      ensures r.Success? ==> AtWork(site)
      ensures r.Failure? ==> site.call.NoCall?
      ensures r.Success? && Rank(site.partial.value.journal.value.phase) >= 2 ==> site.partial == old(site).partial
      ensures Stranded(old(site)) ==> r == Failure(JournalConflict) && site == old(site)
      ensures HalfRemoved(old(site)) ==> r == Failure(MissingCatalog) && site == old(site)
      ensures !mayStop && !Stranded(old(site)) && !HalfRemoved(old(site)) ==> r.Success?
      ensures !mayStop && r.Success? ==> (Rank(site.partial.value.journal.value.phase) >= 2 <==> Holding(old(site)))
      ensures !mayStop && r.Success? && Holding(old(site)) ==> site == old(site).(call := Working)
      ensures r.Failure? && r.error.JournalConflict? ==> Stranded(old(site))
    {
      LeaseMatches(hashOf, site);
      hide Inv, Legal, RowsOk, CanCopy;
      if site.partial.Some? && site.partial.value.journal.None? {
        if site.partial.value != FRESH { return Failure(JournalConflict); }
        Do(RemoveEmptyPartial);
      }
      if site.partial.Some? {
        r := Resume();
      } else {
        r := StartFresh();
      }
    }

    /** Resumes a directory with a journal, or starts over when its lease is gone. */
    method Resume() returns (r: Result<(), ExportError>)
      requires Valid() && site.call.NoCall? && site.dest.None? && site.partial.Some? && site.partial.value.journal.Some?
      modifies this
      ensures Valid() && site.dest.None?
      ensures r.Success? ==> AtWork(site)
      ensures r.Failure? ==> site.call.NoCall?
      ensures r.Success? && Rank(site.partial.value.journal.value.phase) >= 2 ==> site.partial == old(site).partial
      ensures HalfRemoved(old(site)) ==> r == Failure(MissingCatalog) && site == old(site)
      ensures !mayStop && !HalfRemoved(old(site)) ==> r.Success?
      ensures !mayStop && r.Success? ==> (Rank(site.partial.value.journal.value.phase) >= 2 <==> Holding(old(site)))
      ensures !mayStop && r.Success? && Holding(old(site)) ==> site == old(site).(call := Working)
      ensures r.Failure? ==> !r.error.JournalConflict?
    {
      LeaseMatches(hashOf, site);
      hide Inv, Legal, RowsOk, CanCopy;
      if Rank(site.partial.value.journal.value.phase) < 2 {
        Do(Admit);
        return Success(());
      }
      if site.partial.value.catalog.None? { return Failure(MissingCatalog); }
      if mayStop { if * { if site.lease.Some? { Do(LoseLease); } } }
      if site.lease == Some(|site.partial.value.catalog.value|) {
        Do(Admit);
        return Success(());
      }
      r := Abandon();
      if r.Failure? { return; }
      r := StartFresh();
    }

    // ----------------------------------------------------------------- snapshots

    method TakeProduct() returns (r: Result<(), ExportError>)
      requires Valid() && AtWork(site) && CanTakeProduct(site.partial.value)
      modifies this
      ensures Valid() && site.dest == old(site).dest
      ensures r.Success? ==>
        && AtWork(site) && site.partial.value.product && site.partial.value.catalog == old(site).partial.value.catalog
        && site.partial.value.journal.value.phase.ProductSnapshot?
      ensures !mayStop ==> r.Success?
      ensures r.Failure? ==> !r.error.JournalConflict?
    {
      hide Inv, Legal;
      Do(MakeFolders);
      if site.partial.value.product { Do(RemoveProduct); }
      var stop := StoreFailure();
      if stop.Some? { return Failure(stop.value); }
      Do(WriteProduct);
      stop := Interruption();
      if stop.Some? { return Failure(stop.value); }
      Do(JournalProduct);
      stop := Interruption();
      if stop.Some? { return Failure(stop.value); }
      return Success(());
    }

    /** Pins the active objects, copies their rows, and journals both; a copy that stops gives up the pins. */
    method TakeCatalog(active: seq<Row>) returns (r: Result<(), ExportError>)
      requires Valid() && RowsOk(active) && AtWork(site) && CanTakeCatalog(site.partial.value)
      requires site.partial.value.product && Rank(site.partial.value.journal.value.phase) == 1
      modifies this
      ensures Valid() && site.dest == old(site).dest
      ensures r.Success? ==> Copying() && TheRows() == active
      ensures r.Failure? && site.partial.Some? && site.partial.value.catalog.None? ==> site.lease.None?
      ensures !mayStop ==> r.Success? && site.lease == Some(|active|)
      ensures r.Failure? ==> !r.error.JournalConflict?
    {
      hide Inv, Legal, RowsOk, Truthful, CanCopy, Copied;
      Do(MakeFolders);
      if site.partial.value.catalog.Some? { Do(RemoveCatalog); }
      Do(Pin(|active|));
      var stop := StoreFailure();
      if stop.Some? {
        Do(LoseLease);
        return Failure(stop.value);
      }
      Do(WriteCatalog(active));
      stop := Interruption();
      if stop.Some? { return Failure(stop.value); }
      Do(JournalCatalog);
      CopyingNow();
      stop := Interruption();
      if stop.Some? { return Failure(stop.value); }
      return Success(());
    }

    method TakeSnapshots(active: seq<Row>) returns (r: Result<(), ExportError>)
      requires Valid() && RowsOk(active) && AtWork(site)
      modifies this
      ensures Valid() && site.dest == old(site).dest
      ensures r.Success? ==> Copying()
      ensures r.Success? && Rank(old(site).partial.value.journal.value.phase) >= 2 ==> site == old(site)
      ensures r.Success? && Rank(old(site).partial.value.journal.value.phase) < 2 ==> TheRows() == active
      ensures !mayStop ==> r.Success?
      ensures !mayStop && Rank(old(site).partial.value.journal.value.phase) < 2 ==> site.lease == Some(|active|)
      ensures r.Failure? ==> !r.error.JournalConflict?
    {
      if Rank(site.partial.value.journal.value.phase) >= 2 { CopyingNow(); }
      hide Inv, Legal, RowsOk, Truthful;
      if CanTakeProduct(site.partial.value) {
        r := TakeProduct();
        if r.Failure? { return; }
      }
      if CanTakeCatalog(site.partial.value) {
        r := TakeCatalog(active);
        if r.Failure? { return; }
      }
      return Success(());
    }

    // ------------------------------------------------------------------- copying

    /** The call is at work on a journalled catalog snapshot. */
    ghost predicate Copying()
      reads this
    {
      && AtWork(site) && Rank(site.partial.value.journal.value.phase) >= 2
      && Truthful(hashOf, site, site.partial.value)
    }

    lemma CopyingNow()
      requires Valid() && AtWork(site) && Rank(site.partial.value.journal.value.phase) >= 2
      ensures Copying()
    {
    }

    function TheRows(): seq<Row>
      reads this
    {
      if site.partial.Some? then Rows(site.partial.value) else []
    }

    function Snap(): Snapshot
      reads this
    {
      Snapshot(TheRows(), hashOf)
    }

    function Work(): Copies
      reads this
    {
      if site.partial.Some? && site.partial.value.journal.Some? then CopiesIn(site.partial.value)
      else Copies(map[], map[], NOTHING)
    }

    method DoCopy(work: CopyStep)
      requires Valid() && Copying() && CanCopy(Snap(), Work(), work)
      modifies this
      ensures Valid() && Copying() && Work() == Copied(old(Snap()), old(Work()), work)
      ensures TheRows() == old(TheRows()) && site.dest == old(site).dest && site.lease == old(site).lease
    {
      hide Inv, Legal, CanCopy, Copied, Truthful;
      Do(Copy(work));
      CopyingNow();
    }

    /** Renews the lease, which may have run out. */
    method RequireLease() returns (held: bool)
      requires Valid() && Copying()
      modifies this
      ensures Valid() && Copying() && site == old(site).(lease := site.lease)
      ensures held <==> site.lease == Some(|TheRows()|)
      ensures !mayStop ==> site == old(site)
    {
      hide Inv, Legal, Truthful, RowsOk, CanCopy;
      if mayStop {
        if * {
          if site.lease.Some? {
            Do(LoseLease);
            CopyingNow();
          }
        }
      }
      return site.lease == Some(|TheRows()|);
    }

    /** Put the next row's object in place: keep a good one, replace a bad one, copy a missing one. */
    method CopyObject(row: Row, assets: map<string, Content>) returns (r: Result<(), ExportError>)
      requires Valid() && Copying() && Work().tally.objects < |TheRows()| && row == TheRows()[Work().tally.objects]
      modifies this
      ensures Valid() && Copying() && Work().tally == old(Work()).tally
      ensures TheRows() == old(TheRows()) && site.dest == old(site).dest && site.lease == old(site).lease
      ensures r.Success? ==> row.hash in Work().files && Good(Snap(), Work().files[row.hash], row)
      ensures r.Failure? && !IsResumable(r.error) ==> row.hash !in Work().files && row.hash !in Work().temps
      ensures !mayStop && row.hash in assets && Good(Snap(), assets[row.hash], row) ==> r.Success?
      ensures r.Failure? ==> !r.error.JournalConflict?
    {
      hide Copying, Valid;
      var stop := Interruption();
      if stop.Some? { return Failure(stop.value); }
      if row.hash in Work().files {
        if Good(Snap(), Work().files[row.hash], row) { return Success(()); }
        DoCopy(RemoveBadTarget);
      }
      if row.hash in Work().temps { DoCopy(RemoveTemp); }
      DoCopy(CreateTemp);
      stop := StoreFailure();
      if stop.Some? {
        DoCopy(RemoveTemp);
        return Failure(stop.value);
      }
      if row.hash !in assets {
        DoCopy(RemoveTemp);
        return Failure(StoreFailed);
      }
      DoCopy(WriteTemp(assets[row.hash]));
      stop := Interruption();
      if stop.Some? { return Failure(stop.value); }
      if !Good(Snap(), Work().temps[row.hash], row) {
        DoCopy(RemoveTemp);
        return Failure(EntryMismatch);
      }
      DoCopy(RenameTemp);
      return Success(());
    }

    /** Copy the next row's object and count it. */
    method CopyNext(row: Row, assets: map<string, Content>) returns (r: Result<(), ExportError>)
      requires Valid() && Copying() && Work().tally.objects < |TheRows()| && row == TheRows()[Work().tally.objects]
      modifies this
      ensures Valid() && Copying()
      ensures TheRows() == old(TheRows()) && site.dest == old(site).dest && site.lease == old(site).lease
      ensures r.Success? ==> Work().tally.objects == old(Work()).tally.objects + 1
      ensures !mayStop && Exportable(hashOf, TheRows(), assets) ==> r.Success?
      ensures r.Failure? ==> !r.error.JournalConflict?
    {
      RowExportable(hashOf, TheRows(), assets, Work().tally.objects);
      hide Copying, Valid, Exportable, Good, ObjectRelative, IsHash, TheRows, Work;
      if Work().tally.objects >= MAX_BACKUP_ASSET_OBJECTS { return Failure(ObjectLimit); }
      if |row.hash| < 4 || row.relativePath != ObjectRelative(row.hash) { return Failure(PathNotDerived); }
      r := CopyObject(row, assets);
      if r.Failure? { return; }
      var stop := Interruption();
      if stop.Some? { return Failure(stop.value); }
      CountNext(row);
      stop := Interruption();
      if stop.Some? { return Failure(stop.value); }
      return Success(());
    }

    /** Journal that the next row's object is in place. */
    method CountNext(row: Row)
      requires Valid() && Copying() && Work().tally.objects < |TheRows()| && row == TheRows()[Work().tally.objects]
      requires row.hash in Work().files && Good(Snap(), Work().files[row.hash], row)
      modifies this
      ensures Valid() && Copying() && Work().tally.objects == old(Work()).tally.objects + 1
      ensures TheRows() == old(TheRows()) && site.dest == old(site).dest && site.lease == old(site).lease
    {
      hide Copying, Valid, Good;
      DoCopy(Advance);
    }

    /** Copy and count a page of rows. */
    method CopyPage(page: seq<Row>, assets: map<string, Content>) returns (r: Result<(), ExportError>)
      requires Valid() && Copying() && Work().tally.objects <= |TheRows()|
      requires page <= TheRows()[Work().tally.objects..]
      modifies this
      ensures Valid() && Copying()
      ensures TheRows() == old(TheRows()) && site.dest == old(site).dest && site.lease == old(site).lease
      ensures r.Success? ==> Work().tally.objects == old(Work()).tally.objects + |page|
      ensures !mayStop && Exportable(hashOf, TheRows(), assets) ==> r.Success?
      ensures r.Failure? ==> !r.error.JournalConflict?
    {
      hide Copying, Valid, Exportable;
      ghost var rows, k := TheRows(), Work().tally.objects;
      assert forall i | 0 <= i < |page| :: page[i] == rows[k..][i] == rows[k + i];
      for i := 0 to |page|
        invariant Valid() && Copying()
        invariant TheRows() == rows && site.dest == old(site).dest && site.lease == old(site).lease
        invariant Work().tally.objects == k + i
      {
        r := CopyNext(page[i], assets);
        if r.Failure? { return; }
      }
      return Success(());
    }

    lemma NextPageHere()
      requires Valid() && Copying()
      ensures Work().tally.objects <= |TheRows()|
      ensures Page(TheRows(), Work().tally.cursor) <= TheRows()[Work().tally.objects..]
      ensures Page(TheRows(), Work().tally.cursor) == [] ==> Work().tally.objects == |TheRows()|
    {
      NextPage(Snap(), Work());
    }

    /** One page under a renewed lease; no page is left when all rows are counted. */
    method CopyNextPage(assets: map<string, Content>) returns (r: Result<bool, ExportError>)
      requires Valid() && Copying()
      modifies this
      ensures Valid() && Copying()
      ensures TheRows() == old(TheRows()) && site.dest == old(site).dest
      ensures r.Success? && r.value ==> old(Work()).tally.objects < Work().tally.objects <= |TheRows()|
      ensures r.Success? && !r.value ==> Work().tally.objects == |TheRows()|
      ensures !mayStop ==> site.lease == old(site).lease
      ensures !mayStop && site.lease == Some(|TheRows()|) && Exportable(hashOf, TheRows(), assets) ==> r.Success?
      ensures r.Failure? ==> !r.error.JournalConflict?
    {
      hide Copying, Valid, Exportable, Page;
      var held := RequireLease();
      if !held { return Failure(LeaseExpired); }
      NextPageHere();
      var page := Page(TheRows(), Work().tally.cursor);
      if page == [] { return Success(false); }
      var copied := CopyPage(page, assets);
      if copied.Failure? { return Failure(copied.error); }
      return Success(true);
    }

    /** The copy loop, resumed from the journal's cursor, page by page under a renewed lease. */
    method CopySnapshotObjects(assets: map<string, Content>) returns (r: Result<(), ExportError>)
      requires Valid() && Copying()
      modifies this
      ensures Valid() && Copying()
      ensures TheRows() == old(TheRows()) && site.dest == old(site).dest
      ensures r.Success? ==> Work().tally.objects == |TheRows()|
      ensures !mayStop ==> site.lease == old(site).lease
      ensures !mayStop && site.lease == Some(|TheRows()|) && Exportable(hashOf, TheRows(), assets) ==> r.Success?
      ensures r.Failure? ==> !r.error.JournalConflict?
    {
      hide Copying, Valid, Exportable, TheRows, Work;
      while true
        invariant Valid() && Copying()
        invariant TheRows() == old(TheRows()) && site.dest == old(site).dest
        invariant !mayStop ==> site.lease == old(site).lease
        decreases |TheRows()| - Work().tally.objects
      {
        var more := CopyNextPage(assets);
        if more.Failure? { return Failure(more.error); }
        if !more.value { return Success(()); }
      }
    }

    // ------------------------------------------------------------------- publish

    /** Journals that all objects are there, gives up the lease, and renames the directory into place. */
    method Finish() returns (r: Result<(), ExportError>)
      requires Valid() && Copying() && site.dest.None? && Work().tally.objects == |TheRows()|
      modifies this
      ensures Valid()
      ensures r.Success? ==> site.partial.None? && site.call.NoCall? && site.dest.Some?
      ensures r.Success? ==> site.dest.value.rows == old(TheRows())
      ensures r.Failure? ==> site.dest.None?
      ensures !mayStop && old(site).lease == Some(|old(TheRows())|) ==> r.Success?
      ensures r.Failure? ==> !r.error.JournalConflict?
    {
      hide Inv, Legal, Truthful;
      Do(JournalPhase(Objects));
      CopyingNow();
      var stop := Interruption();
      if stop.Some? { return Failure(stop.value); }
      Do(JournalPhase(ReadyToPublish));
      CopyingNow();
      var held := RequireLease();
      if !held { return Failure(LeaseExpired); }
      stop := Interruption();
      if stop.Some? { return Failure(stop.value); }
      Do(LoseLease);
      stop := Interruption();
      if stop.Some? { return Failure(stop.value); }
      Do(Publish);
      return Success(());
    }

    // ---------------------------------------------------------------- whole call

    /** One call, up to its error. */
    method ExportResumable(active: seq<Row>, assets: map<string, Content>) returns (r: Result<(), ExportError>)
      requires Valid() && site.call.NoCall? && RowsOk(active)
      modifies this
      ensures Valid()
      ensures r.Success? ==> site.partial.None? && site.call.NoCall? && old(site).dest.None? && site.dest.Some?
      ensures r.Success? ==> site.dest.value.rows == active || site.dest.value.rows == old(TheRows())
      ensures old(site).dest.Some? ==> r == Failure(DestinationExists) && site == old(site)
      ensures r.Failure? ==> site.dest == old(site).dest
      ensures old(site).dest.None? ==> (r == Failure(JournalConflict) <==> Stranded(old(site)))
      ensures old(site).dest.None? && Stranded(old(site)) ==> site == old(site)
      ensures old(site).dest.None? && HalfRemoved(old(site)) ==> r == Failure(MissingCatalog) && site == old(site)
      ensures
        !mayStop && old(site).dest.None? && Exportable(hashOf, Target(old(site), active), assets)
        && !Stranded(old(site)) && !HalfRemoved(old(site)) ==>
          r.Success? && site.dest.value.rows == Target(old(site), active)
    {
      if site.dest.Some? { return Failure(DestinationExists); }
      hide Inv, Legal, RowsOk, Exportable;
      r := Enter();
      if r.Failure? { return; }
      r := TakeSnapshots(active);
      if r.Failure? { return; }
      var held := RequireLease();
      if !held { return Failure(LeaseExpired); }
      r := CopyAll(assets);
      if r.Failure? { return; }
      r := Finish();
    }

    /** The checks before the copying, and the copying. */
    method CopyAll(assets: map<string, Content>) returns (r: Result<(), ExportError>)
      requires Valid() && Copying() && site.lease.Some?
      modifies this
      ensures Valid() && site.dest == old(site).dest
      ensures r.Success? ==> Copying() && TheRows() == old(TheRows()) && Work().tally.objects == |TheRows()|
      ensures r.Failure? ==> !r.error.JournalConflict?
      ensures !mayStop && Exportable(hashOf, old(TheRows()), assets) ==> r.Success? && site.lease == old(site).lease
    {
      ExportableIsSmall(hashOf, TheRows(), assets);
      CountsWithin();
      hide Valid, Copying, Exportable;
      if |TheRows()| > MAX_BACKUP_ASSET_OBJECTS {
        r := RefuseTooMany();
        return;
      }
      if Work().tally.objects > |TheRows()| || Work().tally.bytes > Bytes(TheRows()) {
        return Failure(JournalConflict);
      }
      var refused := SpaceRefusal();
      if refused.Some? { return Failure(refused.value); }
      r := CopySnapshotObjects(assets);
    }

    /** More objects than the format takes: the directory is removed at once. */
    method RefuseTooMany() returns (r: Result<(), ExportError>)
      requires Valid() && Copying() && site.lease.Some?
      modifies this
      ensures Valid() && site.dest == old(site).dest
      ensures r.Failure? && !r.error.JournalConflict?
    {
      hide Inv, Legal, Truthful, RowsOk, CanCopy;
      Do(LoseLease);
      Do(Stop);
      var done := RemoveAll();
      return Failure(if done then ObjectLimit else Io);
    }

    lemma CountsWithin()
      requires Valid() && Copying()
      ensures Work().tally.objects <= |TheRows()| && Work().tally.bytes <= Bytes(TheRows())
    {
      PrefixBytes(TheRows(), Work().tally.objects);
    }

    /**
     `export_backup`. It publishes exactly the snapshot it resumed, or the rows active now; an unstopped call
     does so exactly when no removal before it was cut short after the journal or the catalog snapshot went.
     A directory without its snapshot is removed by the call that finds it, so that the next one starts over;
     a directory without its journal stays as it is.
    */
    method Export(active: seq<Row>, assets: map<string, Content>) returns (r: Result<(), ExportError>)
      requires Valid() && site.call.NoCall? && RowsOk(active)
      modifies this
      ensures Valid() && site.call.NoCall?
      ensures r.Success? ==> old(site).dest.None? && site.dest.Some?
      ensures r.Success? ==> site.dest.value.rows == active || site.dest.value.rows == old(TheRows())
      ensures r.Failure? ==> site.dest == old(site).dest
      ensures r.Failure? && !IsResumable(r.error) && !r.error.MissingJournal? ==> site.partial.None? && site.lease.None?
      ensures old(site).dest.None? && Stranded(old(site)) ==> r == Failure(MissingJournal) && site == old(site)
      ensures !mayStop && old(site).dest.None? && HalfRemoved(old(site)) ==> r.Failure? && site.partial.None?
      ensures !mayStop && old(site).dest.None? && Exportable(hashOf, Target(old(site), active), assets) ==>
        (r.Success? <==> !Stranded(old(site)) && !HalfRemoved(old(site)))
      ensures !mayStop && r.Success? && Exportable(hashOf, Target(old(site), active), assets) ==>
        site.dest.value.rows == Target(old(site), active)
    {
      hide Inv, Legal, RowsOk, Exportable;
      r := ExportResumable(active, assets);
      if r.Success? { return; }
      if !site.call.NoCall? { Do(Stop); }
      if !IsResumable(r.error) {
        var abandoned := Abandon();
        if abandoned.Failure? { return Failure(abandoned.error); }
      }
    }
  }

  lemma ExportableIsSmall(hashOf: Content -> string, rows: seq<Row>, assets: map<string, Content>)
    ensures Exportable(hashOf, rows, assets) ==> |rows| <= MAX_BACKUP_ASSET_OBJECTS
  {
  }

  lemma RowExportable(hashOf: Content -> string, rows: seq<Row>, assets: map<string, Content>, i: nat)
    requires i < |rows|
    ensures Exportable(hashOf, rows, assets) ==>
      && |rows| <= MAX_BACKUP_ASSET_OBJECTS
      && |rows[i].hash| >= 4 && rows[i].relativePath == ObjectRelative(rows[i].hash)
      && rows[i].hash in assets && Good(Snapshot(rows, hashOf), assets[rows[i].hash], rows[i])
  {
    assert rows[i] in rows;
  }

  /** A removal was cut short after the catalog snapshot went and before the journal did. */
  predicate HalfRemoved(s: Site) {
    && s.partial.Some? && s.partial.value.journal.Some?
    && Rank(s.partial.value.journal.value.phase) >= 2 && s.partial.value.catalog.None?
  }

  /** The lease of a journalled catalog snapshot is held. */
  predicate Holding(s: Site) {
    && s.partial.Some? && s.partial.value.journal.Some?
    && Rank(s.partial.value.journal.value.phase) >= 2 && s.lease.Some?
  }

  lemma LeaseMatches(hashOf: Content -> string, s: Site)
    requires Inv(hashOf, s)
    ensures s.partial.None? || s.partial.value.journal.None? ==> s.lease.None?
    ensures Holding(s) ==> s.partial.value.catalog.Some? && s.lease == Some(|s.partial.value.catalog.value|)
  {
  }
}
