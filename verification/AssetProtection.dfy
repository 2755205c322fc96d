/** A referenced object outlives everything but the removal of the reference. */
module AssetProtection {
  import opened Wrappers
  import opened AssetModel
  import opened AssetInvariant

  /** The reference, its row, and the right file in the right place. */
  ghost predicate Kept(w: World, r: Ref) {
    && r in w.catalog.refs
    && r.hash in w.catalog.objects && GoodFile(w.disk, r.hash, w.catalog.objects[r.hash].size)
  }

  /** The object's file is the one it was. */
  ghost predicate SameFile(w: World, w': World, h: Hash) {
    Own(h) in w.disk.objects && Own(h) in w'.disk.objects && w'.disk.objects[Own(h)] == w.disk.objects[Own(h)]
  }

  /** The event deletes files on behalf of the owner itself. */
  ghost predicate RollsBack(e: Event, o: Owner) {
    e.OfSession? && e.session.RollbackUnlink? && e.session.owner == o
  }

  /** One event keeps row and file, and the active state unless a misfiled copy of the object is quarantined. */
  lemma EventKeeps(w: World, e: Event, r: Ref)
    requires Enabled(w, e) && TablesOk(w) && Kept(w, r) && r in Apply(w, e).catalog.refs && !RollsBack(e, r.owner)
    ensures Kept(Apply(w, e), r) && SameFile(w, Apply(w, e), r.hash)
    ensures ActiveRow(w.catalog, r.hash) ==>
      (ActiveRow(Apply(w, e).catalog, r.hash) <==> !MisfiledMove(w, e, r.hash))
  {
    hide IngestEnabled, IngestApply, UpkeepEnabled, UpkeepApply, SessionEnabled, SessionApply, StartEnabled, StartApply,
      IntentEnabled, IntentApply, BackupEnabled, BackupApply;
    match e
    case OfIngest(i) => IngestKeeps(w, i, r);
    case OfUpkeep(u) => UpkeepKeeps(w, u, r);
    case OfSession(s) => SessionKeeps(w, s, r);
    case OfStart(s) => StartKeeps(w, s, r);
    case OfIntent(i) => IntentKeeps(w, i, r);
    case OfBackup(b) => BackupKeeps(w, b, r);
  }

  ghost predicate KeptActive(w: World, r: Ref) {
    Kept(w, r) && ActiveRow(w.catalog, r.hash)
  }

  lemma IngestKeeps(w: World, e: IngestStep, r: Ref)
    requires IngestEnabled(w, e) && Kept(w, r)
    ensures SameFile(w, IngestApply(w, e), r.hash)
    ensures Kept(IngestApply(w, e), r) && (KeptActive(w, r) ==> KeptActive(IngestApply(w, e), r))
  {
  }

  lemma UpkeepKeeps(w: World, e: UpkeepStep, r: Ref)
    requires UpkeepEnabled(w, e) && Kept(w, r) && r in UpkeepApply(w, e).catalog.refs
    ensures SameFile(w, UpkeepApply(w, e), r.hash)
    ensures Kept(UpkeepApply(w, e), r) && (KeptActive(w, r) ==> KeptActive(UpkeepApply(w, e), r))
  {
  }

  lemma SessionKeeps(w: World, e: SessionStep, r: Ref)
    requires SessionEnabled(w, e) && Kept(w, r) && r in SessionApply(w, e).catalog.refs
    requires !RollsBack(OfSession(e), r.owner)
    ensures SameFile(w, SessionApply(w, e), r.hash)
    ensures Kept(SessionApply(w, e), r) && (KeptActive(w, r) ==> KeptActive(SessionApply(w, e), r))
  {
  }

  lemma StartKeeps(w: World, e: StartStep, r: Ref)
    requires StartEnabled(w, e) && Kept(w, r)
    ensures SameFile(w, StartApply(w, e), r.hash)
    ensures Kept(StartApply(w, e), r) && (KeptActive(w, r) ==> KeptActive(StartApply(w, e), r))
  {
  }

  lemma IntentKeeps(w: World, e: IntentStep, r: Ref)
    requires IntentEnabled(w, e) && Corresponds(w) && Kept(w, r)
    ensures Kept(IntentApply(w, e), r) && SameFile(w, IntentApply(w, e), r.hash)
    ensures ActiveRow(w.catalog, r.hash) ==>
      (ActiveRow(IntentApply(w, e).catalog, r.hash) <==> !MisfiledMove(w, OfIntent(e), r.hash))
  {
  }

  lemma BackupKeeps(w: World, e: BackupStep, r: Ref)
    requires BackupEnabled(w, e) && Kept(w, r) && r in BackupApply(w, e).catalog.refs
    ensures SameFile(w, BackupApply(w, e), r.hash)
    ensures Kept(BackupApply(w, e), r) && (KeptActive(w, r) ==> KeptActive(BackupApply(w, e), r))
  {
  }

  /** The event finishes moving a file that is named after the object but lies in another shard. */
  ghost predicate MisfiledMove(w: World, e: Event, h: Hash) {
    && e.OfIntent? && e.intent.FinalizeMove? && e.intent.name in w.catalog.intents
    && w.catalog.intents[e.intent.name].row.original == Some(h)
  }

  /** `r` is in the table at every point from `earlier` to `later`, and its owner is not being rolled back. */
  ghost predicate HeldSince(r: Ref, earlier: History, later: History) {
    && r in later.world.catalog.refs
    && (earlier == later || (later.Then? && !RollsBack(later.event, r.owner) && HeldSince(r, earlier, later.past)))
  }

  /** No move of a misfiled copy of `h` finishes from `earlier` to `later`. */
  ghost predicate NoMisfiledSince(h: Hash, earlier: History, later: History) {
    earlier == later ||
    (later.Then? && !MisfiledMove(later.past.world, later.event, h) && NoMisfiledSince(h, earlier, later.past))
  }

  /**
   Once an object has its file in place and a reference of any owner, no run of ingests, sweeps, rollbacks of
   other owners, reconciliations, quarantine recoveries and staging cleanups, stopped and reopened anywhere,
   removes its row or its file while the reference stays. It also stays active as long as no misfiled copy of
   it is quarantined.
  */
  lemma {:induction false} ReferencedObjectSurvives(earlier: History, later: History, r: Ref)
    requires Legal(later) && TablesOk(Origin(later))
    requires HeldSince(r, earlier, later) && Kept(earlier.world, r)
    ensures Kept(later.world, r) && SameFile(earlier.world, later.world, r.hash)
    ensures ActiveRow(earlier.world.catalog, r.hash) && NoMisfiledSince(r.hash, earlier, later)
      ==> ActiveRow(later.world.catalog, r.hash)
  {
    if earlier != later {
      ReferencedObjectSurvives(earlier, later.past, r);
      HistoryKeepsTables(later.past);
      EventKeeps(later.past.world, later.event, r);
    }
  }

  // ------------------------------------------------------------------ pins

  /** The session is neither released nor pinned anew between the two. */
  ghost predicate PinsHeld(sid: SessionId, earlier: History, later: History) {
    earlier == later || (later.Then? && !ReleasesPins(later.event, sid) && PinsHeld(sid, earlier, later.past))
  }

  ghost predicate ReleasesPins(e: Event, sid: SessionId) {
    && e.OfBackup?
    && match e.backup
       case PinSnapshot(other, expired, _, _) => sid == other || sid in expired
       case RenewBackup(_, _) => false
       case ReleaseBackups(sids) => sid in sids
  }

  lemma PinStaysInSession(w: World, e: SessionStep, r: Ref)
    requires SessionEnabled(w, e) && r in w.catalog.refs && r.owner != e.owner
    ensures r in SessionApply(w, e).catalog.refs
  {
  }

  lemma PinStaysInBackup(w: World, e: BackupStep, sid: SessionId, h: Hash)
    requires BackupEnabled(w, e) && Ref(BackupOwner(sid), h) in w.catalog.refs && !ReleasesPins(OfBackup(e), sid)
    ensures Ref(BackupOwner(sid), h) in BackupApply(w, e).catalog.refs
  {
  }

  lemma PinStaysInUpkeep(w: World, e: UpkeepStep, r: Ref)
    requires UpkeepEnabled(w, e) && r in w.catalog.refs && (e.RemoveReferences? ==> r !in e.refs)
    ensures r in UpkeepApply(w, e).catalog.refs
  {
  }

  lemma PinStaysInIngest(w: World, e: IngestStep, r: Ref)
    requires IngestEnabled(w, e) && r in w.catalog.refs
    ensures r in IngestApply(w, e).catalog.refs
  {
  }

  lemma PinStays(reserved: set<string>, w: World, e: Event, sid: SessionId, h: Hash)
    requires BACKUP_OWNER_TYPE !in reserved && Enabled(w, e) && TablesOk(w) && Permitted(reserved, w, e)
    requires Ref(BackupOwner(sid), h) in w.catalog.refs && !ReleasesPins(e, sid)
    ensures Ref(BackupOwner(sid), h) in Apply(w, e).catalog.refs && !RollsBack(e, BackupOwner(sid))
  {
    hide IngestEnabled, IngestApply, UpkeepEnabled, UpkeepApply, SessionEnabled, SessionApply, StartEnabled, StartApply,
      IntentEnabled, IntentApply, BackupEnabled, BackupApply, TablesOk, ReleasesPins;
    var r := Ref(BackupOwner(sid), h);
    match e
    case OfIngest(i) => PinStaysInIngest(w, i, r);
    case OfUpkeep(u) => PinStaysInUpkeep(w, u, r);
    case OfSession(s) => PinStaysInSession(w, s, r);
    case OfStart(s) => StartKeepsTables(w, s);
    case OfIntent(i) => IntentKeepsOwners(w, i);
    case OfBackup(b) => PinStaysInBackup(w, b, sid, h);
  }

  lemma {:induction false} PinsStay(reserved: set<string>, earlier: History, later: History, sid: SessionId, h: Hash)
    requires Legal(later) && Disciplined(reserved, later) && TablesOk(Origin(later)) && PinsHeld(sid, earlier, later)
    requires Ref(BackupOwner(sid), h) in earlier.world.catalog.refs
    ensures HeldSince(Ref(BackupOwner(sid), h), earlier, later)
  {
    if earlier != later {
      PinsStay(reserved, earlier, later.past, sid, h);
      HistoryKeepsTables(later.past);
      hide Enabled, Apply, Permitted, ReleasesPins, RollsBack, TablesOk;
      PinStays(reserved, later.past.world, later.event, sid, h);
    }
  }

  /**
   From the moment a backup session pins the active objects until its pins are released, every object
   whose file was in place then can be read with its hash and size, whatever references go meanwhile.
  */
  lemma PinnedObjectsStay(reserved: set<string>, earlier: History, later: History, sid: SessionId, h: Hash)
    requires Legal(later) && Disciplined(reserved, later) && TablesOk(Origin(later))
    requires earlier.Then? && Legal(earlier) && earlier.event.OfBackup?
    requires earlier.event.backup.PinSnapshot? && earlier.event.backup.sid == sid
    requires ActiveRow(earlier.past.world.catalog, h)
    requires GoodFile(earlier.past.world.disk, h, earlier.past.world.catalog.objects[h].size)
    requires PinsHeld(sid, earlier, later)
    ensures SameFile(earlier.past.world, later.world, h)
    ensures h in later.world.catalog.objects && GoodFile(later.world.disk, h, later.world.catalog.objects[h].size)
  {
    var r := Ref(BackupOwner(sid), h);
    assert Kept(earlier.world, r) by {
      hide Legal;
      assert h in ActiveRows(earlier.past.world.catalog);
    }
    PinsStay(reserved, earlier, later, sid, h);
    ReferencedObjectSurvives(earlier, later, r);
  }
}
