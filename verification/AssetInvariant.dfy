/** What every event of the asset store keeps. */
module AssetInvariant {
  import opened AssetModel

  /** Every reference points at a row. */
  ghost predicate ForeignKeys(c: Catalog) {
    forall r | r in c.refs :: r.hash in c.objects
  }

  /** A quarantined object names a quarantine row. */
  ghost predicate NamesRows(c: Catalog) {
    forall h | h in c.objects && c.objects[h].state.Quarantined? :: c.objects[h].state.name in c.quarantine
  }

  /** At most one intent; quarantine rows and files agree, up to the one file it is moving. */
  ghost predicate Corresponds(w: World) {
    && (forall m, n | m in w.catalog.intents && n in w.catalog.intents :: m == n)
    && (w.catalog.intents == map[] ==> w.catalog.quarantine.Keys == w.disk.quarantine.Keys)
    && (forall n | n in w.catalog.intents :: IntentCorresponds(w, n, w.catalog.intents[n]))
  }

  /** What a pending intent says about the directories; a file leaving its own place was wrong there or has no row. */
  ghost predicate IntentCorresponds(w: World, n: Name, intent: Intent) {
    match intent.operation
    case Move(source) =>
      && n !in w.catalog.quarantine && w.disk.quarantine.Keys - {n} == w.catalog.quarantine.Keys
      && intent.row.original == OriginalHash(source)
      && (source in w.disk.objects ==> Quarantinable(w, source))
      && (intent.phase.Prepared? ==> source in w.disk.objects || n in w.disk.quarantine)
      && (intent.phase.Prepared? && source in w.disk.objects && n in w.disk.quarantine ==>
            w.disk.objects[source] == w.disk.quarantine[n])
      && (intent.phase.Moved? ==> source !in w.disk.objects && n in w.disk.quarantine)
    case Purge =>
      && n in w.catalog.quarantine && w.disk.quarantine.Keys + {n} == w.catalog.quarantine.Keys
      && (intent.phase.Moved? ==> n !in w.disk.quarantine)
  }

  /** Sessions and references of a reserved type belong to importers that have begun and not ended. */
  ghost predicate SessionsOk(reserved: set<string>, w: World) {
    && w.closed <= w.issued
    && (forall o | o in w.catalog.temporaries :: o.ownerType in reserved && o in w.issued && o !in w.closed)
    && (forall r | r in w.catalog.refs && r.owner.ownerType in reserved :: r.owner in w.issued && r.owner !in w.closed)
  }

  /** Backup pins belong to live sessions, and a session's pins are the active rows of its snapshot. */
  ghost predicate BackupsOk(w: World) {
    && (forall r | r in w.catalog.refs && r.owner.ownerType == BACKUP_OWNER_TYPE ::
         r.owner.ownerId in w.catalog.backups)
    && w.snapshots.Keys <= w.catalog.backups.Keys
    && (forall sid | sid in w.snapshots ::
          Pinned(w.catalog, sid) == ActiveRows(w.snapshots[sid]) && Clean(w.snapshots[sid]))
  }

  /** A catalog without operational metadata. */
  ghost predicate Clean(c: Catalog) {
    c.backups == map[] && c.temporaries == map[] && forall r | r in c.refs :: !Operational(c, r)
  }

  /** What holds whoever the store's callers are. */
  ghost predicate TablesOk(w: World) {
    && ForeignKeys(w.catalog) && NamesRows(w.catalog) && Corresponds(w)
    && |w.catalog.temporaries| <= MAX_TEMPORARY_OWNER_SESSIONS && |w.catalog.backups| <= MAX_BACKUP_SNAPSHOT_SESSIONS
  }

  /** What holds besides when callers keep to what they are asked. */
  ghost predicate Sound(reserved: set<string>, w: World) {
    TablesOk(w) && SessionsOk(reserved, w) && BackupsOk(w)
  }

  /** Nothing changed about who refers to what, or about sessions. */
  ghost predicate SameOwners(w: World, w': World) {
    && w'.catalog.refs == w.catalog.refs && w'.catalog.temporaries == w.catalog.temporaries
    && w'.catalog.backups == w.catalog.backups
    && w'.issued == w.issued && w'.closed == w.closed && w'.snapshots == w.snapshots
  }

  lemma SameOwnersKeep(reserved: set<string>, w: World, w': World)
    requires SessionsOk(reserved, w) && BackupsOk(w) && SameOwners(w, w')
    ensures SessionsOk(reserved, w') && BackupsOk(w')
  {
  }

  lemma IngestKeepsTables(w: World, e: IngestStep)
    requires w.catalog.intents == map[] && IngestEnabled(w, e) && TablesOk(w)
    ensures TablesOk(IngestApply(w, e))
  {
  }

  lemma IngestKeepsOwners(reserved: set<string>, w: World, e: IngestStep)
    requires IngestEnabled(w, e) && SessionsOk(reserved, w) && BackupsOk(w) && Permitted(reserved, w, OfIngest(e))
    ensures SessionsOk(reserved, IngestApply(w, e)) && BackupsOk(IngestApply(w, e))
  {
  }

  lemma UpkeepKeepsTables(w: World, e: UpkeepStep)
    requires w.catalog.intents == map[] && UpkeepEnabled(w, e) && TablesOk(w)
    ensures TablesOk(UpkeepApply(w, e))
  {
  }

  lemma UpkeepKeepsOwners(reserved: set<string>, w: World, e: UpkeepStep)
    requires UpkeepEnabled(w, e) && SessionsOk(reserved, w) && BackupsOk(w) && Permitted(reserved, w, OfUpkeep(e))
    ensures SessionsOk(reserved, UpkeepApply(w, e)) && BackupsOk(UpkeepApply(w, e))
  {
  }

  lemma SessionKeepsTables(w: World, e: SessionStep)
    requires w.catalog.intents == map[] && SessionEnabled(w, e) && TablesOk(w)
    ensures TablesOk(SessionApply(w, e))
  {
    SessionCount(w, e);
  }

  lemma SessionCount(w: World, e: SessionStep)
    requires SessionEnabled(w, e) && |w.catalog.temporaries| <= MAX_TEMPORARY_OWNER_SESSIONS
    ensures |SessionApply(w, e).catalog.temporaries| <= MAX_TEMPORARY_OWNER_SESSIONS
  {
  }

  lemma SessionKeepsSessions(reserved: set<string>, w: World, e: SessionStep)
    requires SessionEnabled(w, e) && SessionsOk(reserved, w) && Permitted(reserved, w, OfSession(e))
    ensures SessionsOk(reserved, SessionApply(w, e))
  {
    if e.FinishSession? || e.PromoteSession? {
      assert forall r | r in SessionApply(w, e).catalog.refs && r.owner.ownerType in reserved ::
          r in w.catalog.refs && r.owner != e.owner by {
        assert forall r | r in w.catalog.refs && r.owner == e.owner :: r in RefsOf(w.catalog, e.owner);
      }
    }
  }

  lemma SessionKeepsBackups(reserved: set<string>, w: World, e: SessionStep)
    requires BACKUP_OWNER_TYPE !in reserved
    requires SessionEnabled(w, e) && BackupsOk(w) && Permitted(reserved, w, OfSession(e))
    ensures BackupsOk(SessionApply(w, e))
  {
  }

  lemma StartKeepsTables(w: World, e: StartStep)
    requires w.catalog.intents == map[] && StartEnabled(w, e) && TablesOk(w)
    ensures TablesOk(StartApply(w, e)) && SameOwners(w, StartApply(w, e))
  {
  }

  lemma IntentKeepsTables(w: World, e: IntentStep)
    requires IntentEnabled(w, e) && TablesOk(w)
    ensures TablesOk(IntentApply(w, e))
  {
  }

  lemma IntentKeepsOwners(w: World, e: IntentStep)
    requires IntentEnabled(w, e)
    ensures SameOwners(w, IntentApply(w, e))
  {
  }

  lemma SnapshotIsClean(c: Catalog)
    ensures Clean(SnapshotOf(c)) && ActiveRows(SnapshotOf(c)) == ActiveRows(c)
  {
  }

  /**
   Of the references of a reserved type a copy drops those of live sessions and all of the importers' type;
   those that a dead owner of another type left behind stay in it.
  */
  lemma SnapshotKeepsResidue(reserved: set<string>, c: Catalog, r: Ref)
    requires BACKUP_OWNER_TYPE !in reserved && r.owner.ownerType in reserved
    ensures r in SnapshotOf(c).refs <==>
      r in c.refs && r.owner.ownerType != IMPORT_OWNER_TYPE && r.owner !in c.temporaries
  {
  }

  lemma ReleasedPins(c: Catalog, sids: set<SessionId>, sid: SessionId)
    ensures Pinned(Released(c, sids), sid) == if sid in sids then {} else Pinned(c, sid)
  {
  }

  /** Pins found under the name of a session that does not exist. */
  ghost function StrayPins(c: Catalog, sid: SessionId): set<Hash> {
    if sid in c.backups then {} else Pinned(c, sid)
  }

  lemma PinnedPins(c: Catalog, sid: SessionId, expired: set<SessionId>, now: int, other: SessionId)
    requires expired <= c.backups.Keys
    ensures var c' := PinnedCatalog(c, sid, expired, now);
      Pinned(c', other) ==
        if other == sid then ActiveRows(c) + StrayPins(c, sid)
        else if other in expired then {} else Pinned(c, other)
  {
    ReleasedPins(c, expired, other);
    ReleasedPins(Released(c, expired), {sid}, other);
    var d := Released(c, expired);
    var before := if sid in d.backups then Released(d, {sid}) else d;
    var c' := PinnedCatalog(c, sid, expired, now);
    assert forall r | r in c'.refs && r.owner == BackupOwner(other) ::
        r in before.refs || (other == sid && r.hash in ActiveRows(c));
    forall h | h in Pinned(before, other) ensures h in Pinned(c', other) {
      assert Ref(BackupOwner(other), h) in c'.refs;
    }
    if other == sid {
      forall h | h in ActiveRows(c) ensures h in Pinned(c', sid) {
        assert Ref(BackupOwner(sid), h) in c'.refs;
      }
    }
  }

  /** While pins belong to sessions there are none to find. */
  lemma NoStrayPins(w: World, sid: SessionId)
    requires BackupsOk(w)
    ensures StrayPins(w.catalog, sid) == {}
  {
  }

  lemma PinnedSessions(c: Catalog, sid: SessionId, expired: set<SessionId>, now: int)
    requires expired <= c.backups.Keys
    requires sid in c.backups.Keys - expired || |c.backups.Keys - expired| < MAX_BACKUP_SNAPSHOT_SESSIONS
    ensures |c.backups| <= MAX_BACKUP_SNAPSHOT_SESSIONS ==>
      |PinnedCatalog(c, sid, expired, now).backups| <= MAX_BACKUP_SNAPSHOT_SESSIONS
    ensures PinnedCatalog(c, sid, expired, now).backups.Keys == c.backups.Keys - expired + {sid}
  {
    var live := c.backups.Keys - expired;
    assert PinnedCatalog(c, sid, expired, now).backups.Keys == live + {sid};
    Shrink(live, c.backups.Keys);
    if sid in live { assert live + {sid} == live; }
  }

  lemma Shrink<T>(a: set<T>, b: set<T>)
    requires a <= b
    ensures |a| <= |b|
  {
    assert b == a + (b - a);
  }

  lemma PinOwners(w: World, sid: SessionId, expired: set<SessionId>, now: int)
    requires BackupsOk(w) && expired <= w.catalog.backups.Keys
    ensures var c := PinnedCatalog(w.catalog, sid, expired, now);
      && ActiveRows(c) == ActiveRows(w.catalog)
      && forall r | r in c.refs && r.owner.ownerType == BACKUP_OWNER_TYPE :: r.owner.ownerId in c.backups
  {
  }

  lemma PinKeepsBackups(w: World, sid: SessionId, expired: set<SessionId>, now: int, written: bool)
    requires BackupEnabled(w, PinSnapshot(sid, expired, now, written)) && BackupsOk(w)
    ensures BackupsOk(BackupApply(w, PinSnapshot(sid, expired, now, written)))
  {
    var w' := BackupApply(w, PinSnapshot(sid, expired, now, written));
    PinnedSessions(w.catalog, sid, expired, now);
    SnapshotIsClean(w'.catalog);
    NoStrayPins(w, sid);
    PinOwners(w, sid, expired, now);
    hide PinnedCatalog, SnapshotOf, Clean, StrayPins, Pinned, ActiveRows;
    forall other | other in w'.snapshots
      ensures Pinned(w'.catalog, other) == ActiveRows(w'.snapshots[other]) && Clean(w'.snapshots[other])
    {
      PinnedPins(w.catalog, sid, expired, now, other);
    }
  }

  lemma ReleaseKeepsBackups(w: World, sids: set<SessionId>)
    requires BackupsOk(w)
    ensures BackupsOk(BackupApply(w, ReleaseBackups(sids)))
  {
    var w' := BackupApply(w, ReleaseBackups(sids));
    forall other | other in w'.snapshots ensures Pinned(w'.catalog, other) == Pinned(w.catalog, other) {
      ReleasedPins(w.catalog, sids, other);
    }
  }

  lemma BackupKeepsBackups(w: World, e: BackupStep)
    requires BackupEnabled(w, e) && BackupsOk(w)
    ensures BackupsOk(BackupApply(w, e))
  {
    match e
    case PinSnapshot(sid, expired, now, written) =>
      hide BackupEnabled, BackupApply, BackupsOk;
      PinKeepsBackups(w, sid, expired, now, written);
    case RenewBackup(sid, now) =>
      assert BackupApply(w, e).catalog.backups.Keys == w.catalog.backups.Keys;
    case ReleaseBackups(sids) =>
      hide BackupEnabled, BackupApply, BackupsOk;
      ReleaseKeepsBackups(w, sids);
  }

  lemma BackupCount(w: World, e: BackupStep)
    requires BackupEnabled(w, e) && |w.catalog.backups| <= MAX_BACKUP_SNAPSHOT_SESSIONS
    ensures |BackupApply(w, e).catalog.backups| <= MAX_BACKUP_SNAPSHOT_SESSIONS
  {
    var w' := BackupApply(w, e);
    match e
    case PinSnapshot(sid, expired, now, written) => PinnedSessions(w.catalog, sid, expired, now);
    case RenewBackup(sid, now) => assert w'.catalog.backups.Keys == w.catalog.backups.Keys;
    case ReleaseBackups(sids) => Shrink(w'.catalog.backups.Keys, w.catalog.backups.Keys);
  }

  lemma BackupKeepsTables(w: World, e: BackupStep)
    requires w.catalog.intents == map[] && BackupEnabled(w, e) && TablesOk(w)
    ensures TablesOk(BackupApply(w, e))
  {
    BackupCount(w, e);
    BackupLeavesRest(w, e);
    hide BackupEnabled, BackupApply;
  }

  /** Pinning and releasing change references and sessions only, and refer to rows that are there. */
  lemma BackupLeavesRest(w: World, e: BackupStep)
    requires BackupEnabled(w, e)
    ensures var w' := BackupApply(w, e);
      && w'.disk == w.disk
      && w'.catalog == w.catalog.(refs := w'.catalog.refs, backups := w'.catalog.backups)
      && forall r | r in w'.catalog.refs :: r in w.catalog.refs || r.hash in w.catalog.objects
  {
  }

  lemma BackupKeepsSessions(reserved: set<string>, w: World, e: BackupStep)
    requires BackupEnabled(w, e) && SessionsOk(reserved, w) && BACKUP_OWNER_TYPE !in reserved
    ensures SessionsOk(reserved, BackupApply(w, e))
  {
  }

  /** Every event of every operation keeps the tables and directories consistent, whoever the owners are. */
  lemma EventKeepsTables(w: World, e: Event)
    requires Enabled(w, e) && TablesOk(w)
    ensures TablesOk(Apply(w, e))
  {
    hide IngestEnabled, IngestApply, UpkeepEnabled, UpkeepApply, SessionEnabled, SessionApply, StartEnabled, StartApply,
      IntentEnabled, IntentApply, BackupEnabled, BackupApply, TablesOk;
    match e
    case OfIngest(i) => IngestKeepsTables(w, i);
    case OfUpkeep(u) => UpkeepKeepsTables(w, u);
    case OfSession(s) => SessionKeepsTables(w, s);
    case OfStart(s) => StartKeepsTables(w, s);
    case OfIntent(i) => IntentKeepsTables(w, i);
    case OfBackup(b) => BackupKeepsTables(w, b);
  }

  /** Every permitted event keeps who may own what. */
  lemma EventKeepsSound(reserved: set<string>, w: World, e: Event)
    requires BACKUP_OWNER_TYPE !in reserved && Enabled(w, e) && Permitted(reserved, w, e) && Sound(reserved, w)
    ensures Sound(reserved, Apply(w, e))
  {
    hide IngestEnabled, IngestApply, UpkeepEnabled, UpkeepApply, SessionEnabled, SessionApply, StartEnabled, StartApply,
      IntentEnabled, IntentApply, BackupEnabled, BackupApply, TablesOk, SessionsOk, BackupsOk, Permitted, SameOwners;
    EventKeepsTables(w, e);
    match e
    case OfIngest(i) => IngestKeepsOwners(reserved, w, i);
    case OfUpkeep(u) => UpkeepKeepsOwners(reserved, w, u);
    case OfSession(s) =>
      SessionKeepsSessions(reserved, w, s);
      SessionKeepsBackups(reserved, w, s);
    case OfStart(s) =>
      StartKeepsTables(w, s);
      SameOwnersKeep(reserved, w, StartApply(w, s));
    case OfIntent(i) =>
      IntentKeepsOwners(w, i);
      SameOwnersKeep(reserved, w, IntentApply(w, i));
    case OfBackup(b) =>
      BackupKeepsSessions(reserved, w, b);
      BackupKeepsBackups(w, b);
  }

  lemma {:induction false} HistoryKeepsTables(h: History)
    requires Legal(h) && TablesOk(Origin(h))
    ensures TablesOk(h.world)
  {
    if h.Then? {
      HistoryKeepsTables(h.past);
      EventKeepsTables(h.past.world, h.event);
    }
  }

  lemma {:induction false} HistoryKeepsSound(reserved: set<string>, h: History)
    requires Legal(h) && Disciplined(reserved, h) && Sound(reserved, Origin(h))
    ensures Sound(reserved, h.world)
  {
    if h.Then? {
      HistoryKeepsSound(reserved, h.past);
      EventKeepsSound(reserved, h.past.world, h.event);
    }
  }

  // ------------------------------------------------ what operations leave alone

  lemma UpkeepOnlyUnlinks(w: World, e: UpkeepStep)
    requires UpkeepEnabled(w, e)
    ensures UpkeepApply(w, e).disk.objects.Keys <= w.disk.objects.Keys
    ensures UpkeepApply(w, e).catalog.intents == w.catalog.intents
  {
  }

  lemma SessionOnlyUnlinks(w: World, e: SessionStep)
    requires SessionEnabled(w, e)
    ensures SessionApply(w, e).disk.objects.Keys <= w.disk.objects.Keys
    ensures SessionApply(w, e).catalog.intents == w.catalog.intents
  {
  }

  lemma BackupKeepsFiles(w: World, e: BackupStep)
    requires BackupEnabled(w, e)
    ensures BackupApply(w, e).disk == w.disk && BackupApply(w, e).catalog.intents == w.catalog.intents
  {
  }

  lemma IngestKeepsIntents(w: World, e: IngestStep)
    requires IngestEnabled(w, e)
    ensures IngestApply(w, e).catalog.intents == w.catalog.intents
  {
  }

  /** Only recording and carrying out an intent touch the intents table. */
  lemma PlainKeepsIdle(w: World, e: Event)
    requires Enabled(w, e) && !e.OfIntent? && !e.OfStart?
    ensures w.catalog.intents == map[] && Apply(w, e).catalog.intents == map[]
  {
    hide IngestEnabled, IngestApply, UpkeepEnabled, UpkeepApply, SessionEnabled, SessionApply, BackupEnabled,
      BackupApply;
    match e
    case OfIngest(i) => IngestKeepsIntents(w, i);
    case OfUpkeep(u) => UpkeepOnlyUnlinks(w, u);
    case OfSession(s) => SessionOnlyUnlinks(w, s);
    case OfBackup(b) => BackupKeepsFiles(w, b);
  }
}
