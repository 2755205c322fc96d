/**
Importer against recovery, interleaved transaction by transaction: a claimed session is dead for its
importer, a committed batch is safe from recovery, and commit is one exact step.
*/
module AssetSessions {
  import opened Wrappers
  import opened Digests
  import opened AssetModel
  import opened AssetInvariant

  ghost predicate IsEvent(h: History, e: SessionStep) {
    h.Then? && h.event == OfSession(e)
  }

  /** Some recovery has claimed the session of `o`. */
  ghost predicate Claimed(h: History, o: Owner) {
    && h.Then?
    && ((h.event.OfSession? && h.event.session.ClaimSession? && h.event.session.owner == o) || Claimed(h.past, o))
  }

  /** The importer has committed the batch of `o`. */
  ghost predicate Committed(h: History, o: Owner) {
    && h.Then?
    && ((h.event.OfSession? && h.event.session.PromoteSession? && h.event.session.owner == o) || Committed(h.past, o))
  }

  /** What the other operations leave of sessions, and of references that are no backup pins. */
  ghost predicate LeavesImports(w: World, w': World, removed: set<Ref>) {
    && w'.catalog.temporaries == w.catalog.temporaries && w'.issued == w.issued && w'.closed == w.closed
    && forall r | r in w.catalog.refs && r.owner.ownerType != BACKUP_OWNER_TYPE && r !in removed :: r in w'.catalog.refs
  }

  lemma IngestLeavesImports(w: World, e: IngestStep)
    requires IngestEnabled(w, e)
    ensures LeavesImports(w, IngestApply(w, e), {})
  {
  }

  lemma UpkeepLeavesImports(w: World, e: UpkeepStep)
    requires UpkeepEnabled(w, e)
    ensures LeavesImports(w, UpkeepApply(w, e), if e.RemoveReferences? then e.refs else {})
  {
  }

  lemma StartLeavesImports(w: World, e: StartStep)
    requires StartEnabled(w, e)
    ensures LeavesImports(w, StartApply(w, e), {})
  {
  }

  lemma BackupLeavesImports(w: World, e: BackupStep)
    requires BackupEnabled(w, e)
    ensures LeavesImports(w, BackupApply(w, e), {})
  {
  }

  /** The references an event removes on their owner's behalf. */
  ghost function RemovedBy(e: Event): set<Ref> {
    if e.OfUpkeep? && e.upkeep.RemoveReferences? then e.upkeep.refs else {}
  }

  lemma OtherEventsLeaveImports(w: World, e: Event)
    requires Enabled(w, e) && !e.OfSession?
    ensures LeavesImports(w, Apply(w, e), RemovedBy(e))
  {
    hide IngestEnabled, IngestApply, UpkeepEnabled, UpkeepApply, StartEnabled, StartApply,
      IntentEnabled, IntentApply, BackupEnabled, BackupApply;
    match e
    case OfIngest(i) => IngestLeavesImports(w, i);
    case OfUpkeep(u) => UpkeepLeavesImports(w, u);
    case OfStart(s) => StartLeavesImports(w, s);
    case OfIntent(i) => IntentKeepsOwners(w, i);
    case OfBackup(b) => BackupLeavesImports(w, b);
  }

  lemma SessionDeadStaysDead(reserved: set<string>, w: World, e: SessionStep, o: Owner)
    requires SessionEnabled(w, e) && Permitted(reserved, w, OfSession(e))
    requires o in w.issued && o !in w.catalog.temporaries
    ensures var w' := SessionApply(w, e);
      o in w'.issued && o !in w'.catalog.temporaries && (o in w.closed ==> o in w'.closed)
  {
  }

  /** Once begun and no longer live, a session never becomes live again; a closed owner stays closed. */
  lemma DeadStaysDead(reserved: set<string>, w: World, e: Event, o: Owner)
    requires Enabled(w, e) && Permitted(reserved, w, e) && o in w.issued && o !in w.catalog.temporaries
    ensures o in Apply(w, e).issued && o !in Apply(w, e).catalog.temporaries
    ensures o in w.closed ==> o in Apply(w, e).closed
  {
    hide SessionEnabled, SessionApply;
    if e.OfSession? {
      SessionDeadStaysDead(reserved, w, e.session, o);
    } else {
      OtherEventsLeaveImports(w, e);
      hide Enabled, Apply;
    }
  }

  lemma {:induction false} ClaimedIsDead(reserved: set<string>, h: History, o: Owner)
    requires Legal(h) && Disciplined(reserved, h) && Sound(reserved, Origin(h)) && Claimed(h, o)
    ensures o in h.world.issued && o !in h.world.catalog.temporaries
  {
    if Claimed(h.past, o) {
      ClaimedIsDead(reserved, h.past, o);
      DeadStaysDead(reserved, h.past.world, h.event, o);
    } else {
      HistoryKeepsSound(reserved, h.past);
    }
  }

  /** A session recovery has claimed can never be renewed, committed or finished afterwards. */
  lemma ClaimedNeverCommits(reserved: set<string>, h: History, o: Owner, e: SessionStep)
    requires Legal(h) && Disciplined(reserved, h) && Sound(reserved, Origin(h)) && Claimed(h, o) && e.owner == o
    requires e.RenewSession? || e.PromoteSession? || e.FinishSession?
    ensures !Enabled(h.world, OfSession(e))
  {
    ClaimedIsDead(reserved, h, o);
  }

  lemma {:induction false} CommittedIsClosed(reserved: set<string>, h: History, o: Owner)
    requires Legal(h) && Disciplined(reserved, h) && Sound(reserved, Origin(h)) && Committed(h, o)
    ensures o in h.world.issued && o in h.world.closed && o !in h.world.catalog.temporaries
    ensures o.ownerType in reserved
  {
    if Committed(h.past, o) {
      CommittedIsClosed(reserved, h.past, o);
      DeadStaysDead(reserved, h.past.world, h.event, o);
    } else {
      HistoryKeepsSound(reserved, h.past);
    }
  }

  /** No recovery can claim, unlink or drop anything of a committed batch's temporary owner. */
  lemma CommittedNeverRolledBack(reserved: set<string>, h: History, o: Owner, e: SessionStep)
    requires Legal(h) && Disciplined(reserved, h) && Sound(reserved, Origin(h)) && Committed(h, o) && e.owner == o
    requires e.ClaimSession? || e.RollbackUnlink? || e.RollbackRow?
    ensures !Enabled(h.world, OfSession(e))
  {
    CommittedIsClosed(reserved, h, o);
    HistoryKeepsSound(reserved, h);
    hide Legal, Disciplined, Committed, TablesOk, BackupsOk, ActiveRow;
  }

  /** Nor were both ever done to one session. */
  lemma ClaimedOrCommitted(reserved: set<string>, h: History, o: Owner)
    requires Legal(h) && Disciplined(reserved, h) && Sound(reserved, Origin(h))
    ensures !(Claimed(h, o) && Committed(h, o))
  {
    if h.Then? && Claimed(h, o) && Committed(h, o) {
      ClaimedOrCommitted(reserved, h.past, o);
      if Claimed(h.past, o) {
        ClaimedIsDead(reserved, h.past, o);
      } else {
        CommittedIsClosed(reserved, h.past, o);
      }
    }
  }

  /** Committing moves exactly the temporary owner's references to the final owner, in one step. */
  lemma CommitIsExact(w: World, o: Owner, f: Owner, r: Ref)
    requires SessionEnabled(w, PromoteSession(o, f))
    ensures var w' := SessionApply(w, PromoteSession(o, f));
      && RefsOf(w'.catalog, o) == {} && o !in w'.catalog.temporaries
      && (Ref(f, r.hash) in w'.catalog.refs <==> Ref(f, r.hash) in w.catalog.refs || Ref(o, r.hash) in w.catalog.refs)
      && (r.owner != o && r.owner != f ==> (r in w'.catalog.refs <==> r in w.catalog.refs))
      && w'.catalog.objects == w.catalog.objects && w'.disk == w.disk
  {
  }

  lemma SessionKeepsPermanent(reserved: set<string>, w: World, e: SessionStep, r: Ref)
    requires SessionEnabled(w, e) && Permitted(reserved, w, OfSession(e))
    requires r in w.catalog.refs && IsPermanent(reserved, r.owner)
    ensures r in SessionApply(w, e).catalog.refs
  {
  }

  /** A permanent reference goes only when its owner removes it. */
  lemma OnlyOwnerRemoves(reserved: set<string>, w: World, e: Event, r: Ref)
    requires Enabled(w, e) && Permitted(reserved, w, e)
    requires r in w.catalog.refs && IsPermanent(reserved, r.owner) && r !in RemovedBy(e)
    ensures r in Apply(w, e).catalog.refs
  {
    hide SessionEnabled, SessionApply;
    if e.OfSession? {
      SessionKeepsPermanent(reserved, w, e.session, r);
    } else {
      OtherEventsLeaveImports(w, e);
      hide Enabled, Apply;
    }
  }

  /** No event from `earlier` to `later` removes `r` on its owner's behalf. */
  ghost predicate NotRemoved(r: Ref, earlier: History, later: History) {
    earlier == later || (later.Then? && r !in RemovedBy(later.event) && NotRemoved(r, earlier, later.past))
  }

  /** The references a commit made stay until their final owner removes them, whatever recovery does. */
  lemma {:induction false} CommittedBatchStays(
    reserved: set<string>, earlier: History, later: History, o: Owner, f: Owner, hash: Hash)
    requires Legal(later) && Disciplined(reserved, later) && IsEvent(earlier, PromoteSession(o, f))
    requires Legal(earlier) && Disciplined(reserved, earlier)
    requires Ref(o, hash) in earlier.past.world.catalog.refs && NotRemoved(Ref(f, hash), earlier, later)
    ensures Ref(f, hash) in later.world.catalog.refs
  {
    if earlier == later {
      CommitIsExact(earlier.past.world, o, f, Ref(f, hash));
    } else {
      CommittedBatchStays(reserved, earlier, later.past, o, f, hash);
      OnlyOwnerRemoves(reserved, later.past.world, later.event, Ref(f, hash));
    }
  }

  // ------------------------------------------------------------------ residue

  /** A run one event longer, that callers may make. */
  ghost function Extend(reserved: set<string>, h: History, e: Event): (h': History)
    requires Legal(h) && Disciplined(reserved, h) && Enabled(h.world, e) && Permitted(reserved, h.world, e)
    ensures Legal(h') && Disciplined(reserved, h') && Origin(h') == Origin(h) && h'.world == Apply(h.world, e)
  {
    Then(h, e, Apply(h.world, e))
  }

  /** A file in its place in a store that was empty. */
  ghost predicate LinkedOnly(reserved: set<string>, h: History, content: Content) {
    && Legal(h) && Disciplined(reserved, h) && Origin(h) == EMPTY_WORLD
    && h.world == h.world.(
         catalog := EMPTY_WORLD.catalog.(staging := h.world.catalog.staging),
         issued := {}, closed := {}, snapshots := map[])
    && GoodFile(h.world.disk, Sha256(content), |content|)
  }

  lemma StagingIsPermitted(reserved: set<string>)
    ensures forall w, i: IngestStep | !i.CommitIngest? :: Permitted(reserved, w, OfIngest(i))
  {
  }

  lemma LinkedFile(reserved: set<string>, name: Name, content: Content) returns (h: History)
    requires BACKUP_OWNER_TYPE !in reserved
    ensures LinkedOnly(reserved, h, content)
  {
    h := Begun(EMPTY_WORLD);
    assert Legal(h) && Disciplined(reserved, h);
    hide Legal, Disciplined, Permitted, UpkeepEnabled, UpkeepApply, SessionEnabled, SessionApply, StartEnabled,
      StartApply, IntentEnabled, IntentApply, BackupEnabled, BackupApply;
    StagingIsPermitted(reserved);
    h := Extend(reserved, h, OfIngest(AddStagingRow(name, 0)));
    h := Extend(reserved, h, OfIngest(WriteStagingFile(name, File(0, content))));
    h := Extend(reserved, h, OfIngest(LinkObject(name, Sha256(content))));
  }

  /** The store holds one reference, that of `o`, and no other session or pin. */
  ghost predicate HoldsOne(reserved: set<string>, h: History, o: Owner, hash: Hash) {
    && Legal(h) && Disciplined(reserved, h) && Origin(h) == EMPTY_WORLD
    && h.world.catalog.refs == {Ref(o, hash)}
    && h.world.catalog.intents == map[] && h.world.catalog.backups == map[]
  }

  /** The object admitted for a temporary owner during its session. */
  lemma AdmittedForSession(reserved: set<string>, before: History, o: Owner, content: Content) returns (h: History)
    requires BACKUP_OWNER_TYPE !in reserved && o.ownerType in reserved && LinkedOnly(reserved, before, content)
    ensures HoldsOne(reserved, h, o, Sha256(content)) && h.world.catalog.temporaries == map[o := 0]
  {
    hide Legal, Disciplined, UpkeepEnabled, UpkeepApply, StartEnabled, StartApply, IntentEnabled, IntentApply,
      BackupEnabled, BackupApply;
    h := Extend(reserved, before, OfSession(BeginSession(o, 0)));
    h := Extend(reserved, h, OfIngest(CommitIngest(Sha256(content), |content|, Some(o), 0)));
  }

  /** A recovery claims the session and is stopped there. */
  lemma ClaimedOnly(reserved: set<string>, before: History, o: Owner, hash: Hash) returns (h: History)
    requires o.ownerType in reserved && HoldsOne(reserved, before, o, hash)
    requires before.world.catalog.temporaries == map[o := 0]
    ensures HoldsOne(reserved, h, o, hash) && h.world.catalog.temporaries == map[]
  {
    hide Legal, Disciplined, UpkeepEnabled, UpkeepApply, StartEnabled, StartApply, IntentEnabled, IntentApply,
      BackupEnabled, BackupApply, IngestEnabled, IngestApply;
    h := Extend(reserved, before, OfSession(ClaimSession(o, 1)));
  }

  /** A reference whose session is gone enters the snapshot of the catalog it is in. */
  lemma PinnedResidue(reserved: set<string>, c: Catalog, sid: SessionId, r: Ref)
    requires BACKUP_OWNER_TYPE !in reserved && r.owner.ownerType in reserved && r.owner.ownerType != IMPORT_OWNER_TYPE
    requires r in c.refs && c.temporaries == map[]
    ensures r in SnapshotOf(PinnedCatalog(c, sid, {}, 1)).refs
  {
    var pinned := PinnedCatalog(c, sid, {}, 1);
    assert r in pinned.refs && pinned.temporaries == map[];
    SnapshotKeepsResidue(reserved, pinned, r);
    hide PinnedCatalog, SnapshotOf;
  }

  /** A backup begins. */
  lemma BackupBegun(reserved: set<string>, before: History, o: Owner, hash: Hash, sid: SessionId) returns (h: History)
    requires HoldsOne(reserved, before, o, hash)
    ensures Legal(h) && Disciplined(reserved, h) && Origin(h) == EMPTY_WORLD && sid in h.world.snapshots
    ensures h.world.snapshots[sid] == SnapshotOf(PinnedCatalog(before.world.catalog, sid, {}, 1))
  {
    hide Legal, Disciplined, PinnedCatalog, SnapshotOf, UpkeepEnabled, UpkeepApply, StartEnabled, StartApply,
      IntentEnabled, IntentApply, IngestEnabled, IngestApply, SessionEnabled, SessionApply;
    h := Extend(reserved, before, OfBackup(PinSnapshot(sid, {}, 1, true)));
  }

  /**
   Every temporary owner of a reserved type that is not the importers' can leave a reference in a snapshot: its
   session is claimed by a recovery that is stopped before it rolls the owner back, and a backup begins.
  */
  lemma ResidueCanHappen(reserved: set<string>, o: Owner, name: Name, content: Content, sid: SessionId)
    returns (h: History)
    requires BACKUP_OWNER_TYPE !in reserved && o.ownerType in reserved && o.ownerType != IMPORT_OWNER_TYPE
    ensures Legal(h) && Disciplined(reserved, h) && Origin(h) == EMPTY_WORLD
    ensures sid in h.world.snapshots && Ref(o, Sha256(content)) in h.world.snapshots[sid].refs
  {
    var hash := Sha256(content);
    var linked := LinkedFile(reserved, name, content);
    var admitted := AdmittedForSession(reserved, linked, o, content);
    var claimed := ClaimedOnly(reserved, admitted, o, hash);
    PinnedResidue(reserved, claimed.world.catalog, sid, Ref(o, hash));
    hide Legal, Disciplined, PinnedCatalog, SnapshotOf;
    h := BackupBegun(reserved, claimed, o, hash, sid);
  }
}
