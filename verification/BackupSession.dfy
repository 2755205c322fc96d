/**
  A backup export over any number of calls. What survives a stop is the partial directory, the store's lease on
  the objects it pinned, and a published package. A call is admitted once it has looked at these; a stop ends
  it and leaves no other mark, so a run is the sequence of steps of all calls and may end after any of them.
*/
module BackupSession {
  import opened Wrappers
  import opened BackupCatalog
  import opened BackupExport

  datatype Phase = Prepared | ProductSnapshot | CatalogSnapshot | Objects | ReadyToPublish

  function Rank(phase: Phase): nat {
    match phase
    case Prepared => 0
    case ProductSnapshot => 1
    case CatalogSnapshot => 2
    case Objects => 3
    case ReadyToPublish => 4
  }

  datatype Journal = Journal(phase: Phase, tally: Tally)

  /** The partial directory. Its subdirectories count as contents, whether or not a file is in them. */
  datatype Partial = Partial(
    folders: bool, product: bool, catalog: Option<seq<Row>>,
    files: map<string, Content>, temps: map<string, Content>, journal: Option<Journal>)

  const FRESH := Partial(false, false, None, map[], map[], None)

  /** How far the running call is: none, admitted, or with a product snapshot it has yet to journal. */
  datatype Call = NoCall | Working | TookProduct

  datatype Published = Published(rows: seq<Row>, files: map<string, Content>)

  /** `lease` is the number of objects pinned for the session the journal names. */
  datatype Site = Site(partial: Option<Partial>, lease: Option<nat>, call: Call, dest: Option<Published>)

  const NOWHERE := Site(None, None, NoCall, None)

  datatype Step =
    | CreatePartial | RemoveEmptyPartial | Begin | Admit | Stop
    | MakeFolders | RemoveProduct | WriteProduct | JournalProduct
    | RemoveCatalog | Pin(count: nat) | WriteCatalog(rows: seq<Row>) | JournalCatalog
    | Copy(work: CopyStep) | JournalPhase(phase: Phase)
    | LoseLease | Publish
    | DeleteObject(hash: string) | DeleteTemp(hash: string) | DeleteProduct | DeleteCatalog
    | DeleteFolders | DeleteJournal | DeleteDirectory

  /** The rows of the catalog snapshot in the directory. */
  function Rows(d: Partial): seq<Row> {
    if d.catalog.Some? then d.catalog.value else []
  }

  function SnapshotIn(hashOf: Content -> string, d: Partial): Snapshot {
    Snapshot(Rows(d), hashOf)
  }

  function CopiesIn(d: Partial): Copies
    requires d.journal.Some?
  {
    Copies(d.files, d.temps, d.journal.value.tally)
  }

  predicate HasFiles(d: Partial) {
    d.product || d.catalog.Some? || d.files != map[] || d.temps != map[]
  }

  /** What a call asks before it trusts the journal of another: the lease is still held over the whole snapshot. */
  predicate Resumable(s: Site, d: Partial)
    requires d.journal.Some?
  {
    Rank(d.journal.value.phase) >= 2 ==> d.catalog.Some? && s.lease == Some(|d.catalog.value|)
  }

  /** The call is at work and the journal is there. */
  predicate AtWork(s: Site) {
    s.call.Working? && s.partial.Some? && s.partial.value.journal.Some?
  }

  predicate CanTakeProduct(d: Partial)
    requires d.journal.Some?
  {
    Rank(d.journal.value.phase) < 1 || !d.product
  }

  predicate CanTakeCatalog(d: Partial)
    requires d.journal.Some?
  {
    Rank(d.journal.value.phase) < 2 || d.catalog.None?
  }

  /** Removing the directory: no call is at work on it and its lease has been given up. */
  predicate Removing(s: Site) {
    s.call.NoCall? && s.lease.None? && s.partial.Some?
  }

  ghost predicate Enabled(hashOf: Content -> string, s: Site, step: Step) {
    match step
    case CreatePartial => s.call.NoCall? && s.partial.None? && s.dest.None?
    case RemoveEmptyPartial => s.call.NoCall? && s.partial == Some(FRESH)
    case Begin => s.call.NoCall? && s.partial == Some(FRESH)
    case Admit => s.call.NoCall? && s.partial.Some? && s.partial.value.journal.Some? && Resumable(s, s.partial.value)
    case Stop => true
    case MakeFolders => AtWork(s)
    case RemoveProduct => AtWork(s) && CanTakeProduct(s.partial.value)
    case WriteProduct => AtWork(s) && CanTakeProduct(s.partial.value) && s.partial.value.folders
    case JournalProduct => s.call.TookProduct? && s.partial.Some? && s.partial.value.journal.Some?
    case RemoveCatalog => AtWork(s) && CanTakeCatalog(s.partial.value)
    case Pin(_) => AtWork(s) && CanTakeCatalog(s.partial.value) && s.partial.value.catalog.None?
    case WriteCatalog(_) => AtWork(s) && CanTakeCatalog(s.partial.value) && s.partial.value.folders
    case JournalCatalog =>
      && AtWork(s) && Rank(s.partial.value.journal.value.phase) == 1 && s.partial.value.product
      && s.partial.value.catalog.Some? && RowsOk(s.partial.value.catalog.value)
      && (s.lease.None? || s.lease.value == |s.partial.value.catalog.value|)
    case Copy(work) =>
      && AtWork(s) && Rank(s.partial.value.journal.value.phase) >= 2
      && CanCopy(SnapshotIn(hashOf, s.partial.value), CopiesIn(s.partial.value), work)
    case JournalPhase(phase) =>
      && AtWork(s) && Rank(s.partial.value.journal.value.phase) >= 2 && Rank(phase) >= 3
      && s.partial.value.journal.value.tally.objects == |Rows(s.partial.value)|
    case LoseLease => s.lease.Some?
    case Publish =>
      AtWork(s) && s.partial.value.journal.value.phase.ReadyToPublish? && s.lease.None? && s.dest.None?
    case DeleteObject(hash) => Removing(s) && hash in s.partial.value.files
    case DeleteTemp(hash) => Removing(s) && hash in s.partial.value.temps
    case DeleteProduct => Removing(s) && s.partial.value.product
    case DeleteCatalog => Removing(s) && s.partial.value.catalog.Some?
    case DeleteFolders => Removing(s) && s.partial.value.folders && !HasFiles(s.partial.value)
    case DeleteJournal => Removing(s) && s.partial.value.journal.Some?
    case DeleteDirectory => Removing(s) && s.partial == Some(FRESH)
  }

  function InPartial(s: Site, d: Partial): Site { s.(partial := Some(d)) }

  function Apply(hashOf: Content -> string, s: Site, step: Step): Site
    requires Enabled(hashOf, s, step)
  {
    match step
    case CreatePartial => s.(partial := Some(FRESH))
    case RemoveEmptyPartial => s.(partial := None)
    case Begin => InPartial(s, s.partial.value.(journal := Some(Journal(Prepared, NOTHING))))
    case Admit => s.(call := Working)
    case Stop => s.(call := NoCall)
    case MakeFolders => InPartial(s, s.partial.value.(folders := true))
    case RemoveProduct => InPartial(s, s.partial.value.(product := false))
    case WriteProduct => InPartial(s, s.partial.value.(product := true)).(call := TookProduct)
    case JournalProduct =>
      var d := s.partial.value;
      InPartial(s, d.(journal := Some(d.journal.value.(phase := ProductSnapshot)))).(call := Working)
    case RemoveCatalog => InPartial(s, s.partial.value.(catalog := None))
    case Pin(count) => s.(lease := Some(count))
    case WriteCatalog(rows) => InPartial(s, s.partial.value.(catalog := Some(rows)))
    case JournalCatalog =>
      var d := s.partial.value;
      InPartial(s, d.(journal := Some(d.journal.value.(phase := CatalogSnapshot))))
    case Copy(work) =>
      var d := s.partial.value;
      var c := Copied(SnapshotIn(hashOf, d), CopiesIn(d), work);
      InPartial(s, d.(folders := true, files := c.files, temps := c.temps,
                      journal := Some(d.journal.value.(tally := c.tally))))
    case JournalPhase(phase) =>
      var d := s.partial.value;
      InPartial(s, d.(journal := Some(d.journal.value.(phase := phase))))
    case LoseLease => s.(lease := None)
    case Publish => Site(None, None, NoCall, Some(Published(Rows(s.partial.value), s.partial.value.files)))
    case DeleteObject(hash) => InPartial(s, s.partial.value.(files := s.partial.value.files - {hash}))
    case DeleteTemp(hash) => InPartial(s, s.partial.value.(temps := s.partial.value.temps - {hash}))
    case DeleteProduct => InPartial(s, s.partial.value.(product := false))
    case DeleteCatalog => InPartial(s, s.partial.value.(catalog := None))
    case DeleteFolders => InPartial(s, s.partial.value.(folders := false))
    case DeleteJournal => InPartial(s, s.partial.value.(journal := None))
    case DeleteDirectory => s.(partial := None)
  }

  datatype History = Begun(site: Site) | Then(past: History, step: Step, site: Site)

  ghost predicate Legal(hashOf: Content -> string, h: History) {
    match h
    case Begun(s) => s == NOWHERE
    case Then(past, step, site) =>
      Legal(hashOf, past) && Enabled(hashOf, past.site, step) && site == Apply(hashOf, past.site, step)
  }

  // --------------------------------------------------------------- invariant

  /** The journal of a catalog snapshot tells the truth about it, and nothing else lies beside it. */
  ghost predicate Truthful(hashOf: Content -> string, s: Site, d: Partial)
    requires d.journal.Some?
  {
    var snap, c := SnapshotIn(hashOf, d), CopiesIn(d);
    && d.product && d.catalog.Some? && d.folders && RowsOk(snap.rows)
    && Counted(snap, c) && Tidy(snap, c)
    && (s.lease.Some? ==> s.lease.value == |snap.rows|)
    && (Rank(d.journal.value.phase) >= 3 ==> c.tally.objects == |snap.rows|)
  }

  /** Before the catalog snapshot is journalled nothing is counted and no object is there. */
  ghost predicate Untouched(s: Site, d: Partial)
    requires d.journal.Some?
  {
    d.journal.value.tally == NOTHING && d.files == map[] && d.temps == map[]
  }

  ghost predicate PartialOk(hashOf: Content -> string, s: Site, d: Partial) {
    && (HasFiles(d) ==> d.folders)
    && match d.journal
       case None => s.lease.None? && s.call.NoCall?
       case Some(j) =>
         if Rank(j.phase) < 2 then Untouched(s, d) && (s.call.TookProduct? ==> d.product)
         else
           && !s.call.TookProduct?
           && (s.lease.Some? || s.call.Working? ==> Truthful(hashOf, s, d))
  }

  /** A published package holds exactly the objects of its snapshot. */
  ghost predicate PublishedOk(hashOf: Content -> string, b: Published) {
    var snap := Snapshot(b.rows, hashOf);
    && RowsOk(b.rows) && b.files.Keys == Hashes(b.rows)
    && forall row | row in b.rows :: row.hash in b.files && Good(snap, b.files[row.hash], row)
  }

  ghost predicate Inv(hashOf: Content -> string, s: Site) {
    && (s.partial.None? ==> s.lease.None? && s.call.NoCall?)
    && (s.partial.Some? ==> PartialOk(hashOf, s, s.partial.value))
    && (s.dest.Some? ==> PublishedOk(hashOf, s.dest.value))
  }

  lemma CopyKeepsInv(hashOf: Content -> string, s: Site, work: CopyStep)
    requires Inv(hashOf, s) && Enabled(hashOf, s, Copy(work))
    ensures Inv(hashOf, Apply(hashOf, s, Copy(work)))
  {
    var d := s.partial.value;
    var snap, c := SnapshotIn(hashOf, d), CopiesIn(d);
    hide Counted, Tidy, RowsOk, PublishedOk, Good;
    StepKeepsCounted(snap, c, work);
    StepKeepsTidy(snap, c, work);
    assert Truthful(hashOf, s, d);
    var s' := Apply(hashOf, s, Copy(work));
    var d' := s'.partial.value;
    assert SnapshotIn(hashOf, d') == snap && CopiesIn(d') == Copied(snap, c, work);
    assert Truthful(hashOf, s', d');
  }

  lemma JournalCatalogKeepsInv(hashOf: Content -> string, s: Site)
    requires Inv(hashOf, s) && Enabled(hashOf, s, JournalCatalog)
    ensures Inv(hashOf, Apply(hashOf, s, JournalCatalog))
  {
    var s' := Apply(hashOf, s, JournalCatalog);
    var d' := s'.partial.value;
    NothingCounted(SnapshotIn(hashOf, d'));
    hide Counted, Tidy, RowsOk, PublishedOk;
    assert CopiesIn(d') == Copies(map[], map[], NOTHING);
    assert Truthful(hashOf, s', d');
  }

  lemma PublishKeepsInv(hashOf: Content -> string, s: Site)
    requires Inv(hashOf, s) && Enabled(hashOf, s, Publish)
    ensures Inv(hashOf, Apply(hashOf, s, Publish))
  {
    var d := s.partial.value;
    var snap, c := SnapshotIn(hashOf, d), CopiesIn(d);
    assert Truthful(hashOf, s, d);
    CompleteIsExact(snap, c);
    AllInPlace(snap, c);
    hide Counted, Tidy, RowsOk, Good;
  }

  lemma AllInPlace(snap: Snapshot, c: Copies)
    requires Counted(snap, c) && c.tally.objects == |snap.rows|
    ensures forall row | row in snap.rows :: row.hash in c.files && Good(snap, c.files[row.hash], row)
  {
    forall row | row in snap.rows ensures row.hash in c.files && Good(snap, c.files[row.hash], row) {
      var i :| 0 <= i < |snap.rows| && snap.rows[i] == row;
    }
  }

  predicate IsRemoval(step: Step) {
    || step.DeleteObject? || step.DeleteTemp? || step.DeleteProduct? || step.DeleteCatalog?
    || step.DeleteFolders? || step.DeleteJournal? || step.DeleteDirectory?
  }

  lemma RemovalKeepsInv(hashOf: Content -> string, s: Site, step: Step)
    requires Inv(hashOf, s) && IsRemoval(step) && Enabled(hashOf, s, step)
    ensures Inv(hashOf, Apply(hashOf, s, step))
  {
    hide PublishedOk, Truthful;
  }

  /** Steps outside the copying that leave a truthful journal alone. */
  lemma OtherKeepsInv(hashOf: Content -> string, s: Site, step: Step)
    requires Inv(hashOf, s) && Enabled(hashOf, s, step)
    requires !step.Copy? && !step.JournalCatalog? && !step.Publish? && !IsRemoval(step)
    ensures Inv(hashOf, Apply(hashOf, s, step))
  {
    hide PublishedOk, Counted, Tidy, RowsOk;
  }

  lemma StepKeepsInv(hashOf: Content -> string, s: Site, step: Step)
    requires Inv(hashOf, s) && Enabled(hashOf, s, step)
    ensures Inv(hashOf, Apply(hashOf, s, step))
  {
    hide Inv;
    if step.Copy? {
      CopyKeepsInv(hashOf, s, step.work);
    } else if step.JournalCatalog? {
      JournalCatalogKeepsInv(hashOf, s);
    } else if step.Publish? {
      PublishKeepsInv(hashOf, s);
    } else if IsRemoval(step) {
      RemovalKeepsInv(hashOf, s, step);
    } else {
      OtherKeepsInv(hashOf, s, step);
    }
  }

  lemma {:induction false} HistoryKeepsInv(hashOf: Content -> string, h: History)
    requires Legal(hashOf, h)
    ensures Inv(hashOf, h.site)
  {
    match h
    case Begun(_) =>
    case Then(past, step, _) =>
      HistoryKeepsInv(hashOf, past);
      StepKeepsInv(hashOf, past.site, step);
  }

  // -------------------------------------------------------------------- runs

  /** Files of this directory have been removed. */
  ghost predicate BeingRemoved(h: History) {
    h.Then? && h.site.partial.Some? && (IsRemoval(h.step) || BeingRemoved(h.past))
  }

  /** A journalled snapshot stays truthful, with or without a call or a lease, until its directory is removed. */
  lemma {:induction false} TruthfulUntilRemoved(hashOf: Content -> string, h: History, d: Partial)
    requires Legal(hashOf, h) && h.site.partial == Some(d) && d.journal.Some? && Rank(d.journal.value.phase) >= 2
    requires h.site.lease.Some? || h.site.call.Working? || !BeingRemoved(h)
    ensures Truthful(hashOf, h.site, d)
  {
    HistoryKeepsInv(hashOf, h);
    hide Counted, Tidy, RowsOk, PublishedOk, CanCopy;
    if h.site.lease.None? && !h.site.call.Working? {
      TruthfulUntilRemoved(hashOf, h.past, d);
    }
  }

  /**
   Wherever the calls of an export were stopped: a journal that has not reached the catalog snapshot counts
   nothing; one that has counts exactly the rows of the snapshot beside it up to its cursor, each in place,
   with nothing else in the directory, unless the lease was given up and files have been removed since.
  */
  lemma EveryStopIsCounted(hashOf: Content -> string, h: History, d: Partial, j: Journal)
    requires Legal(hashOf, h) && h.site.partial == Some(d) && d.journal == Some(j)
    ensures Rank(j.phase) < 2 ==> j.tally == NOTHING && d.files == map[] && d.temps == map[]
    ensures Rank(j.phase) >= 2 && (h.site.lease.Some? || h.site.call.Working? || !BeingRemoved(h)) ==>
      && d.catalog.Some? && RowsOk(d.catalog.value)
      && Counted(SnapshotIn(hashOf, d), CopiesIn(d)) && Tidy(SnapshotIn(hashOf, d), CopiesIn(d))
      && (h.site.lease.Some? ==> h.site.lease.value == |d.catalog.value|)
  {
    HistoryKeepsInv(hashOf, h);
    hide Counted, Tidy, RowsOk, PublishedOk, BeingRemoved;
    if Rank(j.phase) >= 2 && (h.site.lease.Some? || h.site.call.Working? || !BeingRemoved(h)) {
      TruthfulUntilRemoved(hashOf, h, d);
    }
  }

  /** A call that is let in can never find a count beyond its snapshot. */
  lemma NeverConflicts(hashOf: Content -> string, h: History, d: Partial, j: Journal)
    requires Legal(hashOf, h) && h.site.partial == Some(d) && d.journal == Some(j)
    requires h.site.call.Working? && Rank(j.phase) >= 2
    ensures j.tally.objects <= |Rows(d)| && j.tally.bytes <= Bytes(Rows(d))
  {
    EveryStopIsCounted(hashOf, h, d, j);
    PrefixBytes(Rows(d), j.tally.objects);
  }

  /** A snapshot is taken again only while nothing has been counted against the one before. */
  lemma NeverRetaken(hashOf: Content -> string, h: History, step: Step)
    requires Legal(hashOf, h) && Enabled(hashOf, h.site, step)
    requires step.RemoveProduct? || step.WriteProduct? || step.JournalProduct?
      || step.RemoveCatalog? || step.Pin? || step.WriteCatalog? || step.JournalCatalog?
    ensures
      var d := h.site.partial.value;
      Rank(d.journal.value.phase) < 2 && d.journal.value.tally == NOTHING && d.files == map[] && d.temps == map[]
  {
    HistoryKeepsInv(hashOf, h);
    hide Counted, Tidy, RowsOk, PublishedOk;
  }

  /** However many calls it took, a published package holds every object of its snapshot and nothing else. */
  lemma PublishedExactly(hashOf: Content -> string, h: History)
    requires Legal(hashOf, h) && h.site.dest.Some?
    ensures
      var b := h.site.dest.value;
      && RowsOk(b.rows) && b.files.Keys == Hashes(b.rows)
      && forall row | row in b.rows :: row.hash in b.files && Good(Snapshot(b.rows, hashOf), b.files[row.hash], row)
  {
    HistoryKeepsInv(hashOf, h);
    hide PartialOk, Good, RowsOk;
  }

  /** Counting everything means holding everything: the journal's totals are those of the snapshot. */
  lemma CompleteExactly(hashOf: Content -> string, h: History, d: Partial, j: Journal)
    requires Legal(hashOf, h) && h.site.partial == Some(d) && d.journal == Some(j)
    requires Rank(j.phase) >= 2 && (h.site.lease.Some? || h.site.call.Working? || !BeingRemoved(h))
    ensures j.tally.objects == |Rows(d)| <==> j.tally.cursor == CursorAt(Rows(d), |Rows(d)|)
    ensures j.tally.objects == |Rows(d)| ==>
      j.tally.bytes == Bytes(Rows(d)) && d.files.Keys == Hashes(Rows(d)) && d.temps == map[]
  {
    EveryStopIsCounted(hashOf, h, d, j);
    var snap, c := SnapshotIn(hashOf, d), CopiesIn(d);
    CursorAtEnd(snap, c);
    if j.tally.objects == |Rows(d)| {
      Totals(snap, c);
      CompleteIsExact(snap, c);
    }
  }

  // ---------------------------------------------------------------- stranded

  /** A directory with contents but no journal: no call may resume it, and none knows whose lease to give up. */
  predicate Stranded(s: Site) {
    s.partial.Some? && s.partial.value.journal.None? && s.partial.value != FRESH
  }

  /** A removal has deleted the journal and not yet the rest. */
  ghost predicate RemovalOpen(h: History) {
    && h.Then? && h.site.partial.Some? && h.site.partial.value != FRESH
    && (h.step.DeleteJournal? || RemovalOpen(h.past))
  }

  lemma StrandedStep(hashOf: Content -> string, s: Site, step: Step)
    requires Inv(hashOf, s) && Enabled(hashOf, s, step)
    ensures
      var s' := Apply(hashOf, s, step);
      Stranded(s') <==> s'.partial.Some? && s'.partial.value != FRESH && (step.DeleteJournal? || Stranded(s))
  {
    hide Truthful, PublishedOk, RowsOk, CanCopy;
  }

  /** A directory is stranded exactly by a stop inside its own removal, after the journal was deleted. */
  lemma {:induction false} StrandedExactly(hashOf: Content -> string, h: History)
    requires Legal(hashOf, h)
    ensures Stranded(h.site) <==> RemovalOpen(h)
  {
    match h
    case Begun(_) =>
    case Then(past, step, _) =>
      StrandedExactly(hashOf, past);
      HistoryKeepsInv(hashOf, past);
      hide Inv, Enabled;
      StrandedStep(hashOf, past.site, step);
  }

  /** Nothing but the removal itself can touch a stranded directory. */
  lemma StrandedIsStuck(hashOf: Content -> string, s: Site, step: Step)
    requires Inv(hashOf, s) && Stranded(s) && Enabled(hashOf, s, step)
    ensures IsRemoval(step) || Apply(hashOf, s, step) == s
  {
    hide Truthful, PublishedOk, RowsOk, CanCopy;
  }

  ghost function Extend(hashOf: Content -> string, h: History, step: Step): (h': History)
    requires Legal(hashOf, h) && Enabled(hashOf, h.site, step)
    ensures Legal(hashOf, h') && h'.site == Apply(hashOf, h.site, step)
  {
    Then(h, step, Apply(hashOf, h.site, step))
  }

  /** It can happen: an export stopped early is abandoned, and the removal stopped after the journal. */
  lemma StrandedCanHappen(hashOf: Content -> string) returns (h: History)
    ensures Legal(hashOf, h) && Stranded(h.site)
  {
    h := Begun(NOWHERE);
    assert Legal(hashOf, h);
    hide Legal;
    h := Extend(hashOf, h, CreatePartial);
    h := Extend(hashOf, h, Begin);
    h := Extend(hashOf, h, Admit);
    h := Extend(hashOf, h, MakeFolders);
    h := Extend(hashOf, h, Stop);
    h := Extend(hashOf, h, DeleteJournal);
  }

  /** A call is at work on the objects of this snapshot, under its lease. */
  ghost predicate CopyingOn(hashOf: Content -> string, h: History, rows: seq<Row>) {
    && Legal(hashOf, h) && AtWork(h.site) && h.site.lease.Some?
    && h.site.partial.value.catalog == Some(rows) && h.site.partial.value.journal.value.phase.CatalogSnapshot?
  }

  /** It has counted `k` of them. */
  ghost predicate CopiedUpTo(hashOf: Content -> string, h: History, rows: seq<Row>, k: nat) {
    && CopyingOn(hashOf, h, rows)
    && CopiesIn(h.site.partial.value).tally.objects == k && CopiesIn(h.site.partial.value).temps == map[]
  }

  /** Any snapshot can be taken and journalled. */
  lemma SnapshotRuns(hashOf: Content -> string, rows: seq<Row>) returns (h: History)
    requires RowsOk(rows)
    ensures CopiedUpTo(hashOf, h, rows, 0)
  {
    h := Begun(NOWHERE);
    assert Legal(hashOf, h);
    hide Legal, RowsOk;
    h := Extend(hashOf, h, CreatePartial);
    h := Extend(hashOf, h, Begin);
    h := Extend(hashOf, h, Admit);
    h := Extend(hashOf, h, MakeFolders);
    h := Extend(hashOf, h, WriteProduct);
    h := Extend(hashOf, h, JournalProduct);
    h := Extend(hashOf, h, Pin(|rows|));
    h := Extend(hashOf, h, WriteCatalog(rows));
    h := Extend(hashOf, h, JournalCatalog);
  }

  /** Any number of its objects can be copied and counted. */
  lemma {:induction false} CopyRuns(hashOf: Content -> string, rows: seq<Row>, contents: seq<Content>, k: nat)
    returns (h: History)
    requires RowsOk(rows) && k <= |rows| && k <= |contents|
    requires forall i | 0 <= i < k :: Good(Snapshot(rows, hashOf), contents[i], rows[i])
    ensures CopiedUpTo(hashOf, h, rows, k)
  {
    if k == 0 {
      h := SnapshotRuns(hashOf, rows);
    } else {
      h := CopyRuns(hashOf, rows, contents, k - 1);
      h := CopyRowRuns(hashOf, rows, contents[k - 1], k - 1, h);
    }
  }

  lemma CopyStepRuns(hashOf: Content -> string, rows: seq<Row>, before: History, work: CopyStep) returns (h: History)
    requires CopyingOn(hashOf, before, rows)
    requires CanCopy(Snapshot(rows, hashOf), CopiesIn(before.site.partial.value), work)
    ensures CopyingOn(hashOf, h, rows)
    ensures CopiesIn(h.site.partial.value)
      == Copied(Snapshot(rows, hashOf), CopiesIn(before.site.partial.value), work)
  {
    hide Legal, CanCopy, Copied;
    h := Extend(hashOf, before, Copy(work));
  }

  lemma CopyRowRuns(hashOf: Content -> string, rows: seq<Row>, content: Content, k: nat, before: History)
    returns (h: History)
    requires CopiedUpTo(hashOf, before, rows, k) && k < |rows| && Good(Snapshot(rows, hashOf), content, rows[k])
    ensures CopiedUpTo(hashOf, h, rows, k + 1)
  {
    h := before;
    CopyingIsTruthful(hashOf, h, rows);
    hide CopyingOn, RowsOk, Counted, Good;
    if rows[k].hash !in CopiesIn(h.site.partial.value).files {
      h := CopyStepRuns(hashOf, rows, h, CreateTemp);
      h := CopyStepRuns(hashOf, rows, h, WriteTemp(content));
      h := CopyStepRuns(hashOf, rows, h, RenameTemp);
      assert CopiesIn(h.site.partial.value).temps == map[];
    }
    h := CopyStepRuns(hashOf, rows, h, Advance);
  }

  lemma CopyingIsTruthful(hashOf: Content -> string, h: History, rows: seq<Row>)
    requires CopyingOn(hashOf, h, rows)
    ensures Counted(Snapshot(rows, hashOf), CopiesIn(h.site.partial.value))
    ensures Tidy(Snapshot(rows, hashOf), CopiesIn(h.site.partial.value))
  {
    HistoryKeepsInv(hashOf, h);
    hide Counted, Tidy, PublishedOk, RowsOk, Legal;
  }

  /** The call is stopped, the export abandoned, and the removal has deleted one object. */
  lemma RemovalRuns(hashOf: Content -> string, rows: seq<Row>, before: History, hash: string) returns (h: History)
    requires CopyingOn(hashOf, before, rows) && hash in before.site.partial.value.files
    ensures Legal(hashOf, h) && h.site.partial.Some?
    ensures var d := before.site.partial.value; h.site.partial.value == d.(files := d.files - {hash})
  {
    hide Legal, CanCopy, RowsOk;
    h := Extend(hashOf, before, Stop);
    h := Extend(hashOf, h, LoseLease);
    h := Extend(hashOf, h, DeleteObject(hash));
  }

  /** While a directory is being removed its journal may count any object of its snapshot that is gone. */
  lemma RemovalForgets(hashOf: Content -> string, rows: seq<Row>, contents: seq<Content>, k: nat, i: nat)
    returns (h: History)
    requires RowsOk(rows) && i < k <= |rows| && k <= |contents|
    requires forall j | 0 <= j < k :: Good(Snapshot(rows, hashOf), contents[j], rows[j])
    ensures Legal(hashOf, h) && h.site.partial.Some? && h.site.partial.value.journal.Some?
    ensures var d := h.site.partial.value;
      && d.journal.value.phase.CatalogSnapshot? && d.journal.value.tally.objects == k
      && d.catalog == Some(rows) && rows[i].hash !in d.files
  {
    h := CopyRuns(hashOf, rows, contents, k);
    CopyingIsTruthful(hashOf, h, rows);
    hide Legal, RowsOk, Good, Tidy;
    h := RemovalRuns(hashOf, rows, h, rows[i].hash);
  }
}
