/**
`AssetStore`: the operations as they run. Each transaction and file operation is recorded in `history`,
so every state a process stop can leave is a state of a legal run of `AssetModel`.
*/
module AssetStore {
  import opened Wrappers
  import opened Digests
  import Ordering
  import opened AssetModel
  import opened AssetInvariant
  import opened AssetQuarantine
  import opened AssetRollback
  import opened AssetCatalog

  datatype Limits = Limits(maxObjectBytes: nat, maxTotalBytes: nat)

  datatype Fault =
    | InvalidInput
    | UnsupportedContent
    | LimitExceeded
    | HashMetadataConflict
    | NotActive
    | Cancelled

  /** The run began with no intent pending. */
  ghost predicate Rooted(h: History) {
    TablesOk(Origin(h)) && Origin(h).catalog.intents == map[]
  }

  // ---------------------------------------------------------------- sweeping

  /** The hashes of a page that are old enough and that nobody refers to. */
  ghost function Doomed(c: Catalog, page: seq<Hash>, cutoff: int): set<Hash> {
    set h | h in page && h in c.objects && c.objects[h].created <= cutoff && !Referenced(c, h)
  }

  predicate IsDoomed(c: Catalog, cutoff: int, h: Hash) {
    h in c.objects && c.objects[h].created <= cutoff && !Referenced(c, h)
  }

  /** The doomed hashes of a page, as the page lists them. */
  function DoomedInOrder(c: Catalog, page: seq<Hash>, cutoff: int): seq<Hash> {
    if page == [] then []
    else
      var h := page[|page| - 1];
      DoomedInOrder(c, page[..|page| - 1], cutoff) + if IsDoomed(c, cutoff, h) then [h] else []
  }

  lemma NoneDoomed(c: Catalog, cutoff: int)
    ensures DoomedInOrder(c, [], cutoff) == []
  {
  }

  /** A hash the page lists once is doomed or not whatever was swept before it. */
  lemma OneMoreDoomed(c: Catalog, page: seq<Hash>, i: nat, cutoff: int)
    requires i < |page|
    ensures
      var before, h := page[..i], page[i];
      && DoomedInOrder(c, page[..i + 1], cutoff) ==
        DoomedInOrder(c, before, cutoff) + (if IsDoomed(c, cutoff, h) then [h] else [])
      && (Ordering.Distinct(page) ==> h !in before)
      && (IsDoomed(c, cutoff, h) && h !in before <==> h in Doomed(c, page[..i + 1], cutoff) - Doomed(c, before, cutoff))
  {
    assert page[..i + 1][..i] == page[..i];
    assert page[..i + 1] == page[..i] + [page[i]];
  }

  ghost function Owns(hashes: set<Hash>): set<Slot> { set h | h in hashes :: Own(h) }

  /** Rows and files of these hashes gone, nothing else changed. */
  ghost function Swept(w: World, doomed: set<Hash>): World {
    w.(catalog := w.catalog.(objects := w.catalog.objects - doomed),
       disk := w.disk.(objects := w.disk.objects - Owns(doomed)))
  }

  lemma SweptNone(w: World, cutoff: int)
    ensures Doomed(w.catalog, [], cutoff) == {} && Swept(w, {}) == w
  {
  }

  /** Sweeping one more hash of the page, given what is already swept. */
  lemma SweptMore(w: World, page: seq<Hash>, h: Hash, cutoff: int)
    ensures var done := Doomed(w.catalog, page, cutoff);
      var c := Swept(w, done).catalog;
      if h in c.objects && c.objects[h].created <= cutoff && !Referenced(c, h) then
        && Doomed(w.catalog, page + [h], cutoff) == done + {h}
        && Swept(w, done + {h}) == Swept(Swept(w, done), {h})
      else Doomed(w.catalog, page + [h], cutoff) == done
  {
  }

  // ---------------------------------------------------------------- ingest

  ghost function Staged(w: World, name: Name, file: File, now: int): World {
    w.(catalog := w.catalog.(staging := w.catalog.staging[name := now]),
       disk := w.disk.(staging := w.disk.staging[name := file]))
  }

  /** Between `w` and `w'` no row but that of `h`, and no shard file but its own, was touched. */
  ghost predicate OnlyRowChanged(w: World, w': World, h: Hash) {
    && w'.catalog.objects - {h} == w.catalog.objects - {h}
    && w'.disk.objects - {Own(h)} == w.disk.objects - {Own(h)}
    && w'.issued == w.issued && w'.closed == w.closed
    && w'.catalog.staging == w.catalog.staging && w'.disk.staging == w.disk.staging
    && w'.catalog.temporaries == w.catalog.temporaries && w'.catalog.backups == w.catalog.backups
  }

  /** The object of this content is active, its size right and its file in place. */
  ghost predicate Admitted(w: World, content: Content) {
    var h := Sha256(content);
    ActiveRow(w.catalog, h) && w.catalog.objects[h].size == |content| && GoodFile(w.disk, h, |content|)
  }

  /** The quota query: the active bytes of everything but this hash. */
  lemma OthersBytes(objects: map<Hash, Row>, h: Hash)
    ensures ActiveBytes(objects - {h}) == ActiveBytes(objects) - (if h in objects then ActiveSize(objects[h]) else 0)
  {
    if h in objects {
      CountFirst(objects, h);
    } else {
      assert objects - {h} == objects;
    }
  }

  lemma AdmittedEffect(c: Catalog, h: Hash, size: nat, owner: Option<Owner>, now: int)
    ensures var c' := Ingested(c, h, size, owner, now);
      && ActiveBytes(c'.objects) == ActiveBytes(c.objects - {h}) + size
      && c'.objects - {h} == c.objects - {h}
      && h in c'.objects && c'.objects[h].state.Active? && c'.objects[h].size == size
  {
    var c' := Ingested(c, h, size, owner, now);
    CountFirst(c'.objects, h);
    assert c'.objects - {h} == c.objects - {h};
  }

  /** The staged copy comes and goes around an admission that leaves it alone. */
  lemma AroundStaging(w: World, name: Name, file: File, now: int, published: World, h: Hash)
    requires name !in w.catalog.staging && name !in w.disk.staging
    requires OnlyRowChanged(Staged(w, name, file, now), published, h)
    ensures OnlyRowChanged(w, Unstaged(published, name), h)
    ensures forall content :: Admitted(published, content) ==> Admitted(Unstaged(published, name), content)
  {
  }

  ghost function Unstaged(w: World, name: Name): World {
    w.(catalog := w.catalog.(staging := w.catalog.staging - {name}),
       disk := w.disk.(staging := w.disk.staging - {name}))
  }

  lemma NothingChanged(w: World, h: Hash)
    ensures OnlyRowChanged(w, w, h)
  {
  }

  /** Linking the staged file where it is not yet in place, and then the admitting transaction. */
  lemma AdmissionIs(w: World, name: Name, content: Content, owner: Option<Owner>, inPlace: bool, now: int)
    requires name in w.disk.staging && w.disk.staging[name].content == content
    requires if inPlace then GoodFile(w.disk, Sha256(content), |content|) else Own(Sha256(content)) !in w.disk.objects
    ensures
      var h := Sha256(content);
      && (!inPlace ==> IngestEnabled(w, LinkObject(name, h)))
      && var linked := if inPlace then w else IngestApply(w, LinkObject(name, h));
      && IngestEnabled(linked, CommitIngest(h, |content|, owner, now))
      && var after := IngestApply(linked, CommitIngest(h, |content|, owner, now));
      && OnlyRowChanged(w, after, h) && Admitted(after, content)
      && after.catalog.refs == w.catalog.refs + (if owner.Some? then {Ref(owner.value, h)} else {})
      && ActiveBytes(after.catalog.objects) == ActiveBytes(w.catalog.objects - {h}) + |content|
  {
    AdmittedEffect(w.catalog, Sha256(content), |content|, owner, now);
    hide ActiveBytes;
  }

  // ---------------------------------------------------------------- reconciliation

  const MISMATCH := "catalog hash or size mismatch"

  /** A row after it was compared with its file: missing, active, or quarantined with the file. */
  ghost function Reconciled(w: World, h: Hash, name: Name, now: int): World
    requires h in w.catalog.objects
  {
    if Own(h) !in w.disk.objects then
      w.(catalog := w.catalog.(objects := SetState(w.catalog.objects, h, Missing)))
    else if GoodFile(w.disk, h, w.catalog.objects[h].size) then
      w.(catalog := w.catalog.(objects := SetState(w.catalog.objects, h, Active)))
    else MoveOutcome(w, MovePlan(name, Own(h), MISMATCH, now))
  }

  // ---------------------------------------------------------------- backup sessions

  const BACKUP_SNAPSHOT_LEASE_TIMEOUT_MS := 24 * 60 * 60 * 1_000

  /** Sessions whose lease is younger than the timeout. */
  function Live(backups: map<SessionId, int>, now: int): set<SessionId> {
    set sid | sid in backups && backups[sid] > now - BACKUP_SNAPSHOT_LEASE_TIMEOUT_MS
  }

  /** The pin rows of these sessions. */
  function PinRefs(c: Catalog, sids: set<SessionId>): set<Ref> {
    set r | r in c.refs && r.owner.ownerType == BACKUP_OWNER_TYPE && r.owner.ownerId in sids
  }

  lemma KeepsIntents(c: Catalog, sid: SessionId, expired: set<SessionId>, now: int)
    ensures PinnedCatalog(c, sid, expired, now).intents == c.intents
    ensures sid in PinnedCatalog(c, sid, expired, now).backups
    ensures ActiveRows(PinnedCatalog(c, sid, expired, now)) == ActiveRows(c)
  {
  }

  /** The sessions whose pins go before the active rows are pinned: the stale ones, and this one if it is live. */
  function Cleared(c: Catalog, sid: SessionId, expired: set<SessionId>): set<SessionId> {
    if sid in c.backups && sid !in expired then expired + {sid} else expired
  }

  lemma PinnedRefs(c: Catalog, sid: SessionId, expired: set<SessionId>, now: int)
    ensures PinnedCatalog(c, sid, expired, now).refs
      == (c.refs - PinRefs(c, Cleared(c, sid, expired))) + (set h | h in ActiveRows(c) :: Ref(BackupOwner(sid), h))
    ensures PinnedCatalog(c, sid, expired, now).backups
      == (c.backups - expired)[sid := if sid in c.backups - expired then Max((c.backups - expired)[sid], now) else now]
  {
  }

  lemma {:induction false} SameSize(refs: set<Ref>, o: Owner)
    requires forall r | r in refs :: r.owner == o
    ensures |refs| == |set r | r in refs :: r.hash|
    decreases |refs|
  {
    var hashes := set r | r in refs :: r.hash;
    if refs != {} {
      var r :| r in refs;
      SameSize(refs - {r}, o);
      assert (set q | q in refs - {r} :: q.hash) == hashes - {r.hash} by {
        forall q | q in refs - {r} ensures q.hash != r.hash { assert q == Ref(o, q.hash) && r == Ref(o, r.hash); }
      }
    }
  }

  lemma PinCount(c: Catalog, sid: SessionId)
    ensures |PinRefs(c, {sid})| == |Pinned(c, sid)|
  {
    var pins := PinRefs(c, {sid});
    assert forall r | r in pins :: r.owner == BackupOwner(sid);
    SameSize(pins, BackupOwner(sid));
    assert Pinned(c, sid) == set r | r in pins :: r.hash;
  }

  // ---------------------------------------------------------------- opening

  const TEMPORARY_OWNER_LEASE_TIMEOUT_MS := 24 * 60 * 60 * 1_000

  /** What opening leaves of a store without a pending intent. */
  ghost function Opened(w: World, now: int): World
  {
    var expired := w.catalog.backups.Keys - Live(w.catalog.backups, now);
    var c := BackupApply(w, ReleaseBackups(expired)).catalog;
    var cutoff := now - TEMPORARY_OWNER_LEASE_TIMEOUT_MS;
    RolledBack(BackupApply(w, ReleaseBackups(expired)), DeadOfTypes(c, ExpiredTypes(c, cutoff), cutoff))
  }

  lemma FewerTypes(c: Catalog, cutoff: int)
    requires |c.temporaries| <= MAX_TEMPORARY_OWNER_SESSIONS
    ensures |ExpiredTypes(c, cutoff)| <= MAX_TEMPORARY_OWNER_SESSIONS
  {
    var owners := set o | o in c.temporaries && c.temporaries[o] < cutoff;
    FewTypes(owners);
    Shrink(owners, c.temporaries.Keys);
    assert ExpiredTypes(c, cutoff) == set o | o in owners :: o.ownerType;
  }

  lemma NoneGone(c: Catalog, cutoff: int)
    ensures Gone(c, DeadOfTypes(c, {}, cutoff))
  {
  }

  lemma DeadHaveType(c: Catalog, ownerType: string, cutoff: int)
    ensures forall o | o in DeadOwners(c, ownerType, cutoff) :: o.ownerType == ownerType
  {
  }

  lemma OneTypeMore(c: Catalog, types: set<string>, todo: set<string>, t: string, cutoff: int)
    requires t in todo && todo <= types
    ensures DeadOfTypes(c, types - (todo - {t}), cutoff) ==
      DeadOfTypes(c, types - todo, cutoff) + DeadOwners(c, t, cutoff)
    ensures DeadOfTypes(c, types, cutoff) + DeadOwners(c, t, cutoff) == DeadOfTypes(c, types, cutoff)
  {
    assert types - (todo - {t}) == (types - todo) + {t};
  }

  lemma AllGone(dead: set<Owner>, earlier: History, later: History)
    requires Legal(later) && OnlyRollsBack(dead, earlier, later) && Gone(later.world.catalog, dead)
    ensures later.world == RolledBack(earlier.world, dead)
  {
    RollbackSurvivesCrashes(dead, earlier, later);
  }

  class Store {
    const db: Database
    const limits: Limits
    var disk: Disk
    ghost var issued: set<Owner>
    ghost var closed: set<Owner>
    ghost var snapshots: map<SessionId, Catalog>
    ghost var history: History

    /** A new store: empty tables, empty directories. */
    constructor (limits: Limits)
      ensures Valid() && fresh(db) && Now() == EMPTY_WORLD && history == Begun(EMPTY_WORLD)
      ensures this.limits == limits
    {
      this.db := new Database(EMPTY_WORLD.catalog);
      this.limits := limits;
      disk := EMPTY_WORLD.disk;
      issued, closed, snapshots := {}, {}, map[];
      history := Begun(EMPTY_WORLD);
    }

    ghost function Now(): World
      reads this, db
    {
      World(db.tables, disk, issued, closed, snapshots)
    }

    /** Between two operations: the totals are right and the state was reached by a legal run. */
    ghost predicate Valid()
      reads this, db
    {
      db.Ledger() && Legal(history) && Rooted(history) && history.world == Now() && TablesOk(Now())
    }

    ghost predicate Idle()
      reads this, db
    {
      Valid() && db.tables.intents == map[]
    }

    /** Closes a transaction or a file operation: what was done is this event. */
    ghost method Record(e: Event)
      requires db.Ledger() && Legal(history) && Rooted(history) && TablesOk(history.world) && Enabled(history.world, e)
      requires db.tables == Apply(history.world, e).catalog && disk == Apply(history.world, e).disk
      modifies this`history, this`issued, this`closed, this`snapshots
      ensures Valid() && Now() == Apply(old(history).world, e)
      ensures history == Then(old(history), e, Now())
    {
      hide Enabled, Apply, TablesOk, Recount;
      EventKeepsTables(history.world, e);
      var w := Apply(history.world, e);
      issued, closed, snapshots := w.issued, w.closed, w.snapshots;
      history := Then(history, e, w);
    }

    // -------------------------------------------------------------- temporary owners

    ghost method RecordSession(e: SessionStep)
      requires db.Ledger() && Legal(history) && Rooted(history) && TablesOk(history.world)
      requires history.world.catalog.intents == map[] && SessionEnabled(history.world, e)
      requires db.tables == SessionApply(history.world, e).catalog && disk == SessionApply(history.world, e).disk
      modifies this`history, this`issued, this`closed, this`snapshots
      ensures Valid() && Now() == SessionApply(old(history).world, e)
      ensures history == Then(old(history), OfSession(e), Now())
    {
      hide SessionEnabled, SessionApply, TablesOk, Recount;
      Record(OfSession(e));
    }

    /** The transaction of one rollback round: the reference, and the row nobody else refers to. */
    method RollbackRowOnce(o: Owner, h: Hash) returns (removed: nat)
      requires Idle() && SessionEnabled(Now(), RollbackRow(o, h))
      modifies this, db
      ensures Valid() && Now() == SessionApply(old(Now()), RollbackRow(o, h))
      ensures history == Then(old(history), OfSession(RollbackRow(o, h)), Now())
      ensures removed == if ActiveRow(old(db.tables), h) && !ReferencedByOther(old(db.tables), h, o) then 1 else 0
    {
      hide Legal, Enabled, Apply, TablesOk, Recount;
      var alone := ActiveRow(db.tables, h) && !ReferencedByOther(db.tables, h, o);
      removed := 0;
      var _ := db.DeleteRefs({Ref(o, h)});
      if alone {
        db.DeleteObject(h);
        removed := 1;
      }
      RecordSession(RollbackRow(o, h));
    }

    /** One round of a rollback: the file if nobody else refers to it, then reference and row together. */
    method RollbackOne(o: Owner, h: Hash) returns (removed: nat)
      requires Idle() && Ref(o, h) in db.tables.refs
      modifies this, db
      ensures Idle() && OnlyRollsBack({o}, old(history), history)
      ensures db.tables == RolledBackRow(old(db.tables), o, h)
      ensures removed == if ActiveRow(old(db.tables), h) && !ReferencedByOther(old(db.tables), h, o) then 1 else 0
    {
      hide Legal, Enabled, Apply, TablesOk, Recount, ReferencedByOther, ActiveRow, Rooted;
      if ActiveRow(db.tables, h) && !ReferencedByOther(db.tables, h, o) && Own(h) in disk.objects {
        disk := disk.(objects := disk.objects - {Own(h)});
        RecordSession(RollbackUnlink(o, h));
      }
      assert OnlyRollsBack({o}, old(history), history);
      removed := RollbackRowOnce(o, h);
    }

    /**
     `rollback_temporary_owner_locked`: removes exactly the owner's references and session, and the active
     objects nobody else referred to; and it is the same for every state an earlier attempt was stopped in.
    */
    method RollbackTemporaryOwner(o: Owner) returns (removed: nat)
      requires Idle()
      modifies this, db
      ensures Idle() && OnlyRollsBack({o}, old(history), history)
      ensures Now() == RolledBack(old(Now()), {o})
      ensures removed == |Orphans(old(db.tables), {o})|
    {
      hide Legal, Enabled, Apply, TablesOk, Recount, Rooted, Orphans, RolledBackRow, RolledBack, ReferencedByOther,
        ActiveRow, Gone;
      removed := 0;
      var todo := RefsOf(db.tables, o);
      while todo != {}
        invariant Idle() && OnlyRollsBack({o}, old(history), history)
        invariant todo == RefsOf(db.tables, o)
        invariant removed + |Orphans(db.tables, {o})| == |Orphans(old(db.tables), {o})|
        decreases |todo|
      {
        var r :| r in todo;
        ghost var before := history;
        RowOrphans(db.tables, {o}, o, r.hash);
        OrphanAlone(db.tables, o, r.hash);
        RowRefs(db.tables, o, r.hash);
        var one := RollbackOne(o, r.hash);
        RollsBackOn({o}, {o}, old(history), before, history);
        assert {o} + {o} == {o};
        removed := removed + one;
        todo := RefsOf(db.tables, o);
      }
      NoOrphans(db.tables, o);
      EndSessionOf(o);
      assert OnlyRollsBack({o}, old(history), history);
      GoneExactly(db.tables, {o});
      RollbackSurvivesCrashes({o}, old(history), history);
    }

    /** `DELETE FROM asset_temporary_owner_sessions`, whether or not the session was claimed before. */
    method EndSessionOf(o: Owner)
      requires Idle()
      modifies this, db
      ensures Idle() && history == Then(old(history), OfSession(EndSession(o)), Now())
      ensures db.tables == old(db.tables).(temporaries := old(db.tables).temporaries - {o}) && disk == old(disk)
    {
      hide Legal, Enabled, Apply, TablesOk, Recount;
      db.SetUncounted(db.tables.intents, db.tables.backups, db.tables.temporaries - {o});
      RecordSession(EndSession(o));
    }

    /** Claims an expired session, if there is one, and rolls its owner back. */
    method ClaimAndRollBack(o: Owner, ownerType: string, cutoff: int) returns (removed: nat)
      requires Idle() && o in DeadOwners(db.tables, ownerType, cutoff)
      modifies this, db
      ensures Idle() && OnlyRollsBack({o}, old(history), history)
      ensures Now() == RolledBack(old(Now()), {o})
      ensures removed == |Orphans(old(db.tables), {o})|
    {
      hide Legal, Enabled, Apply, TablesOk, Recount, Orphans, RolledBack;
      if o in db.tables.temporaries {
        StepTowards(Now(), {o}, ClaimSession(o, cutoff));
        ghost var before := db.tables;
        db.SetUncounted(db.tables.intents, db.tables.backups, db.tables.temporaries - {o});
        RecordSession(ClaimSession(o, cutoff));
        SameOrphans(before, db.tables, {o});
      }
      ghost var claimed := history;
      assert OnlyRollsBack({o}, old(history), claimed);
      removed := RollbackTemporaryOwner(o);
      RollsBackOn({o}, {o}, old(history), claimed, history);
      assert {o} + {o} == {o};
    }

    /**
     `recover_temporary_owner_type_before`: ends with no expired session and no reference without a session
     in this type, having rolled back exactly the owners that were dead at the start, in whatever order.
    */
    method RecoverTemporaryOwners(ownerType: string, cutoff: int) returns (removed: nat)
      requires Idle()
      modifies this, db
      ensures Idle() && DeadOwners(db.tables, ownerType, cutoff) == {}
      ensures var dead := DeadOwners(old(db.tables), ownerType, cutoff);
        && Now() == RolledBack(old(Now()), dead)
        && removed == |Orphans(old(db.tables), dead)|
        && OnlyRollsBack(dead, old(history), history)
    {
      hide Legal, Enabled, Apply, TablesOk, Recount, Orphans, RolledBack, DeadOwners, Gone;
      removed := 0;
      ghost var dead := DeadOwners(db.tables, ownerType, cutoff);
      var todo := DeadOwners(db.tables, ownerType, cutoff);
      while todo != {}
        invariant Idle() && OnlyRollsBack(dead, old(history), history)
        invariant todo == DeadOwners(db.tables, ownerType, cutoff) && todo <= dead
        invariant forall o | o in dead - todo :: RefsOf(db.tables, o) == {} && o !in db.tables.temporaries
        invariant removed + |Orphans(db.tables, dead)| == |Orphans(old(db.tables), dead)|
        decreases |todo|
      {
        var o :| o in todo;
        ghost var before, at := Now(), history;
        OneLessDead(before, o, ownerType, cutoff);
        OrphansSplit(before, o, dead);
        var one := ClaimAndRollBack(o, ownerType, cutoff);
        RollsBackOn(dead, {o}, old(history), at, history);
        assert dead + {o} == dead;
        GoneAndKept(before, o);
        removed := removed + one;
        todo := DeadOwners(db.tables, ownerType, cutoff);
      }
      GoneExactly(db.tables, dead);
      RollbackSurvivesCrashes(dead, old(history), history);
      NoOrphansOf(db.tables, dead);
    }

    /** `recover_expired_temporary_owner_sessions`: type by type, over the types found at the start. */
    method RecoverExpired(cutoff: int)
      requires Idle()
      modifies this, db
      ensures Idle()
      ensures Now() == RolledBack(old(Now()), DeadOfTypes(old(db.tables), ExpiredTypes(old(db.tables), cutoff), cutoff))
    {
      hide Legal, Enabled, Apply, Recount, RolledBack, DeadOwners, DeadOfTypes, Orphans, Gone;
      var types := ExpiredTypes(db.tables, cutoff);
      FewerTypes(db.tables, cutoff);
      assert |types| <= MAX_TEMPORARY_OWNER_SESSIONS;
      hide TablesOk;
      ghost var start, dead := db.tables, DeadOfTypes(db.tables, types, cutoff);
      NoneGone(start, cutoff);
      var todo := types;
      assert types - todo == {};
      while todo != {}
        invariant todo <= types && Idle() && OnlyRollsBack(dead, old(history), history)
        invariant forall t | t in todo :: DeadOwners(db.tables, t, cutoff) == DeadOwners(start, t, cutoff)
        invariant Gone(db.tables, DeadOfTypes(start, types - todo, cutoff))
        decreases |todo|
      {
        var t :| t in todo;
        ghost var w, at := Now(), history;
        var _ := RecoverTemporaryOwners(t, cutoff);
        ghost var now := DeadOwners(w.catalog, t, cutoff);
        OneTypeMore(start, types, todo, t, cutoff);
        RollsBackOn(dead, now, old(history), at, history);
        RolledBackAreGone(w, now, DeadOfTypes(start, types - todo, cutoff));
        forall u | u in todo - {t} ensures DeadOwners(db.tables, u, cutoff) == DeadOwners(start, u, cutoff) {
          DeadHaveType(w.catalog, t, cutoff);
          OtherTypesStayDead(w, now, t, u, cutoff);
        }
        todo := todo - {t};
      }
      assert types - todo == types;
      AllGone(dead, old(history), history);
    }

    /**
     `commit_temporary_owner_refs`: succeeds exactly for a live session whose references are as many as
     expected and all active, and then moves them to the final owner in one transaction.
    */
    method CommitTemporaryOwner(o: Owner, f: Owner, expected: nat) returns (r: Result<nat, Fault>)
      requires Idle()
      modifies this, db
      ensures Idle()
      ensures r.Success? <==>
        && f.ownerType != o.ownerType && expected > 0 && o in old(db.tables).temporaries
        && |RefsOf(old(db.tables), o)| == expected
        && forall q | q in RefsOf(old(db.tables), o) :: ActiveRow(old(db.tables), q.hash)
      ensures r.Success? ==>
        && r.value == expected && db.tables == Promoted(old(db.tables), o, f) && disk == old(disk)
        && history == Then(old(history), OfSession(PromoteSession(o, f)), Now())
      ensures r.Failure? ==> Now() == old(Now())
    {
      hide Legal, Enabled, Apply, TablesOk, Recount, ActiveRow;
      if f.ownerType == o.ownerType || expected == 0 || o !in db.tables.temporaries {
        return Failure(InvalidInput);
      }
      var batch := RefsOf(db.tables, o);
      if |batch| != expected {
        return Failure(InvalidInput);
      }
      if exists q | q in batch :: !ActiveRow(db.tables, q.hash) {
        return Failure(NotActive);
      }
      PromoteBatch(o, f, batch);
      return Success(expected);
    }

    /** The promoting transaction: insert for the final owner, delete the temporary rows and the session. */
    method PromoteBatch(o: Owner, f: Owner, batch: set<Ref>)
      requires Idle() && SessionEnabled(Now(), PromoteSession(o, f)) && batch == RefsOf(db.tables, o)
      modifies this, db
      ensures Idle() && Now() == SessionApply(old(Now()), PromoteSession(o, f))
      ensures history == Then(old(history), OfSession(PromoteSession(o, f)), Now())
    {
      hide Legal, Enabled, Apply, TablesOk, Recount, ActiveRow;
      db.InsertRefs(set q | q in batch :: Ref(f, q.hash));
      var _ := db.DeleteRefs(batch);
      assert db.tables.refs == Promoted(old(db.tables), o, f).refs;
      db.SetUncounted(db.tables.intents, db.tables.backups, db.tables.temporaries - {o});
      RecordSession(PromoteSession(o, f));
    }

    // -------------------------------------------------------------- quarantine

    ghost method RecordIntent(e: IntentStep)
      requires db.Ledger() && Legal(history) && Rooted(history) && TablesOk(history.world)
      requires IntentEnabled(history.world, e)
      requires db.tables == IntentApply(history.world, e).catalog && disk == IntentApply(history.world, e).disk
      modifies this`history, this`issued, this`closed, this`snapshots
      ensures Valid() && Now() == IntentApply(old(history).world, e)
      ensures history == Then(old(history), OfIntent(e), Now())
    {
      hide IntentEnabled, IntentApply, TablesOk, Recount;
      Record(OfIntent(e));
    }

    /** The file side of a move: linked into quarantine, then unlinked, whichever of the two is still to do. */
    method MoveFile(name: Name)
      requires Valid() && PendingMove(Now(), name, Prepared)
      modifies this
      ensures Valid() && db.tables == old(db.tables) && OnlyIntents(old(history), history)
      ensures db.tables.intents[name].operation.source !in disk.objects && name in disk.quarantine
    {
      hide Legal, Enabled, Apply, Recount, NamesRows, ForeignKeys;
      var source := db.tables.intents[name].operation.source;
      assert IntentCorresponds(Now(), name, db.tables.intents[name]);
      if source in disk.objects && name !in disk.quarantine {
        disk := disk.(quarantine := disk.quarantine[name := disk.objects[source]]);
        RecordIntent(LinkQuarantine(name));
        assert OnlyIntents(old(history), history);
        disk := disk.(objects := disk.objects - {source});
        RecordIntent(UnlinkSource(name));
      } else if source in disk.objects {
        disk := disk.(objects := disk.objects - {source});
        RecordIntent(UnlinkSource(name));
      }
    }

    method RecordPhaseMoved(name: Name)
      requires Valid() && IntentEnabled(Now(), RecordMoved(name))
      modifies this, db
      ensures Valid() && Now() == IntentApply(old(Now()), RecordMoved(name)) && disk == old(disk)
      ensures history == Then(old(history), OfIntent(RecordMoved(name)), Now())
    {
      hide Legal, Enabled, Apply, TablesOk, Recount;
      var intent := db.tables.intents[name].(phase := Moved);
      db.SetUncounted(db.tables.intents[name := intent], db.tables.backups, db.tables.temporaries);
      RecordIntent(RecordMoved(name));
    }

    method FinalizeMoveOf(name: Name)
      requires Valid() && PendingMove(Now(), name, Moved)
      modifies this, db
      ensures Valid() && Now() == IntentApply(old(Now()), FinalizeMove(name))
      ensures history == Then(old(history), OfIntent(FinalizeMove(name)), Now())
    {
      hide Legal, Enabled, Apply, TablesOk, Recount;
      var row := db.tables.intents[name].row;
      db.PutQuarantine(name, row);
      if row.original.Some? {
        db.UpdateState(row.original.value, Quarantined(name));
      }
      db.SetUncounted(db.tables.intents - {name}, db.tables.backups, db.tables.temporaries);
      RecordIntent(FinalizeMove(name));
    }

    /** `complete_quarantine_move`, from wherever an earlier attempt was stopped. */
    method CompleteQuarantineMove(name: Name)
      requires Valid() && name in db.tables.intents && db.tables.intents[name].operation.Move?
      modifies this, db
      ensures Valid() && OnlyIntents(old(history), history)
      ensures db.tables.intents == old(db.tables).intents - {name}
    {
      hide Legal, Enabled, Apply, TablesOk, Recount;
      if db.tables.intents[name].phase.Prepared? {
        MoveFile(name);
        RecordPhaseMoved(name);
      }
      assert OnlyIntents(old(history), history);
      FinalizeMoveOf(name);
    }

    method FinalizePurgeOf(name: Name)
      requires Valid() && PendingPurge(Now(), name, Moved)
      modifies this, db
      ensures Valid() && Now() == IntentApply(old(Now()), FinalizePurge(name))
      ensures history == Then(old(history), OfIntent(FinalizePurge(name)), Now())
    {
      hide Legal, Enabled, Apply, TablesOk, Recount;
      db.MissQuarantined(name);
      db.DeleteQuarantine(name);
      db.SetUncounted(db.tables.intents - {name}, db.tables.backups, db.tables.temporaries);
      RecordIntent(FinalizePurge(name));
    }

    /** `complete_quarantine_purge`, from wherever an earlier attempt was stopped. */
    method CompleteQuarantinePurge(name: Name)
      requires Valid() && name in db.tables.intents && db.tables.intents[name].operation.Purge?
      modifies this, db
      ensures Valid() && OnlyIntents(old(history), history)
      ensures db.tables.intents == old(db.tables).intents - {name}
    {
      hide Legal, Enabled, Apply, TablesOk, Recount;
      if db.tables.intents[name].phase.Prepared? {
        PurgeFile(name);
      }
      assert OnlyIntents(old(history), history);
      FinalizePurgeOf(name);
    }

    /** The unlink, unless an earlier attempt already made it, and its record. */
    method PurgeFile(name: Name)
      requires Valid() && name in db.tables.intents
      requires db.tables.intents[name].operation.Purge? && db.tables.intents[name].phase.Prepared?
      modifies this, db
      ensures Valid() && OnlyIntents(old(history), history)
      ensures db.tables.intents == old(db.tables).intents[name := old(db.tables).intents[name].(phase := Moved)]
    {
      hide Legal, Enabled, Apply, TablesOk, Recount, Rooted;
      if name in disk.quarantine {
        disk := disk.(quarantine := disk.quarantine - {name});
        RecordIntent(UnlinkQuarantined(name));
      }
      assert OnlyIntents(old(history), history);
      RecordPhaseMoved(name);
    }

    /**
     `recover_quarantine_intents`: whatever state the run was stopped in, no intent is left and the store is
     where the interrupted move or purge would have ended.
    */
    method RecoverQuarantineIntents()
      requires Valid()
      modifies this, db
      ensures Idle() && OnlyIntents(old(history), history)
      ensures Reached(PendingOf(old(history)), old(Now()))
      ensures Now() == Finished(PendingOf(old(history)), old(Now()))
    {
      hide Legal, Enabled, Apply, TablesOk, Recount, PendingOf, Reached, Finished;
      EveryStopIsOnPath(history);
      var todo := db.tables.intents.Keys;
      while todo != {}
        invariant Valid() && OnlyIntents(old(history), history)
        invariant todo == db.tables.intents.Keys
        decreases |todo|
      {
        var name :| name in todo;
        ghost var before := history;
        if db.tables.intents[name].operation.Move? {
          CompleteQuarantineMove(name);
        } else {
          CompleteQuarantinePurge(name);
        }
        OnlyIntentsOn(old(history), before, history);
        todo := todo - {name};
      }
      RecoveryEndsAtOutcome(old(history), history);
    }

    ghost method RecordStart(e: StartStep)
      requires db.Ledger() && Legal(history) && Rooted(history) && TablesOk(history.world)
      requires history.world.catalog.intents == map[] && StartEnabled(history.world, e)
      requires db.tables == StartApply(history.world, e).catalog && disk == StartApply(history.world, e).disk
      modifies this`history, this`issued, this`closed, this`snapshots
      ensures Valid() && Now() == StartApply(old(history).world, e)
      ensures history == Then(old(history), OfStart(e), Now())
    {
      hide StartEnabled, StartApply, TablesOk, Recount;
      Record(OfStart(e));
    }

    /** `quarantine_file`: the intent first, then the move it describes. */
    method QuarantineFile(p: MovePlan)
      requires Idle() && MoveStarts(Now(), p)
      modifies this, db
      ensures Idle() && Now() == MoveOutcome(old(Now()), p)
    {
      hide Legal, Enabled, Apply, TablesOk, Recount, MoveStarts, Quarantinable, MoveOutcome;
      assert StartEnabled(Now(), PrepareMove(p.name, p.source, p.reason, p.now)) by { StartsPlain(Now(), p); }
      var intent := Intent(Move(p.source), Prepared, QuarantineRow(OriginalHash(p.source), p.reason, p.now));
      db.SetUncounted(db.tables.intents[p.name := intent], db.tables.backups, db.tables.temporaries);
      RecordStart(PrepareMove(p.name, p.source, p.reason, p.now));
      ghost var started := history;
      assert PendingOf(started) == Moving(old(Now()), p, 0);
      EveryStopIsOnPath(started);
      CompleteQuarantineMove(p.name);
      assert db.tables.intents == map[];
      RecoveryEndsAtOutcome(started, history);
      OutcomeOfMove(started, old(Now()), p);
    }

    /** Quarantining the file under an object's own name. */
    method QuarantineOwn(h: Hash, name: Name, reason: string, now: int)
      requires Idle() && Quarantinable(Now(), Own(h))
      requires name !in db.tables.quarantine && name !in disk.quarantine
      modifies this, db
      ensures Idle() && OnlyRowChanged(old(Now()), Now(), h) && db.tables.refs == old(db.tables).refs
      ensures Own(h) !in disk.objects && !ActiveRow(db.tables, h)
      ensures Now() == MoveOutcome(old(Now()), MovePlan(name, Own(h), reason, now))
    {
      hide Legal, Enabled, Apply, TablesOk, Recount, Rooted;
      QuarantineFile(MovePlan(name, Own(h), reason, now));
    }

    /** `purge_quarantine_file`: nothing to do for an unknown name. */
    method PurgeQuarantineFile(name: Name)
      requires Idle()
      modifies this, db
      ensures Idle()
      ensures name !in old(db.tables).quarantine ==> Now() == old(Now())
      ensures name in old(db.tables).quarantine ==> Now() == PurgeOutcome(old(Now()), name)
    {
      hide Legal, Enabled, Apply, TablesOk, Recount, PurgeOutcome;
      if name in db.tables.quarantine {
        var intent := Intent(Purge, Prepared, db.tables.quarantine[name]);
        db.SetUncounted(db.tables.intents[name := intent], db.tables.backups, db.tables.temporaries);
        RecordStart(PreparePurge(name));
        ghost var started := history;
        assert PendingOf(started) == Purging(old(Now()), name, 0);
        EveryStopIsOnPath(started);
        CompleteQuarantinePurge(name);
        assert db.tables.intents == map[];
        RecoveryEndsAtOutcome(started, history);
        OutcomeOfPurge(started, old(Now()), name);
      }
    }

    // -------------------------------------------------------------- mark and sweep

    ghost method RecordUpkeep(e: UpkeepStep)
      requires db.Ledger() && Legal(history) && Rooted(history) && TablesOk(history.world)
      requires history.world.catalog.intents == map[] && UpkeepEnabled(history.world, e)
      requires db.tables == UpkeepApply(history.world, e).catalog && disk == UpkeepApply(history.world, e).disk
      modifies this`history, this`issued, this`closed, this`snapshots
      ensures Valid() && Now() == UpkeepApply(old(history).world, e)
      ensures history == Then(old(history), OfUpkeep(e), Now())
    {
      hide UpkeepEnabled, UpkeepApply, TablesOk, Recount;
      Record(OfUpkeep(e));
    }

    /** Unlinks an orphan and then drops its row. */
    method SweepOne(h: Hash)
      requires Idle() && h in db.tables.objects && !Referenced(db.tables, h)
      modifies this, db
      ensures Idle()
      ensures Now() == Swept(old(Now()), {h})
    {
      hide Legal, Enabled, Apply, TablesOk, Recount;
      if Own(h) in disk.objects {
        disk := disk.(objects := disk.objects - {Own(h)});
        RecordUpkeep(SweepUnlink(h));
      }
      db.DeleteObject(h);
      RecordUpkeep(SweepRow(h));
      assert Owns({h}) == {Own(h)};
    }

    /**
     `mark_sweep_page` on the hashes its query returned: removes exactly those that are still old enough
     and unreferenced, row and file, and reports them in page order.
    */
    method MarkSweepPage(page: seq<Hash>, cutoff: int) returns (removed: seq<Hash>)
      requires Idle()
      modifies this, db
      ensures Idle()
      ensures Now() == Swept(old(Now()), Doomed(old(db.tables), page, cutoff))
      ensures forall h :: h in removed <==> h in Doomed(old(db.tables), page, cutoff)
      ensures Ordering.Distinct(page) ==> removed == DoomedInOrder(old(db.tables), page, cutoff)
    {
      hide Legal, Enabled, Apply, TablesOk, Recount, DoomedInOrder;
      NoneDoomed(db.tables, cutoff);
      removed := [];
      SweptNone(Now(), cutoff);
      for i := 0 to |page|
        invariant Idle()
        invariant Now() == Swept(old(Now()), Doomed(old(db.tables), page[..i], cutoff))
        invariant forall h :: h in removed <==> h in Doomed(old(db.tables), page[..i], cutoff)
        invariant Ordering.Distinct(page) ==> removed == DoomedInOrder(old(db.tables), page[..i], cutoff)
      {
        var h := page[i];
        OneMoreDoomed(old(db.tables), page, i, cutoff);
        assert page[..i + 1] == page[..i] + [h];
        SweptMore(old(Now()), page[..i], h, cutoff);
        if h in db.tables.objects && db.tables.objects[h].created <= cutoff && !Referenced(db.tables, h) {
          SweepOne(h);
          removed := removed + [h];
        }
      }
      assert page[..|page|] == page;
    }

    // -------------------------------------------------------------- ingest

    ghost method RecordIngest(e: IngestStep)
      requires db.Ledger() && Legal(history) && Rooted(history) && TablesOk(history.world)
      requires history.world.catalog.intents == map[] && IngestEnabled(history.world, e)
      requires db.tables == IngestApply(history.world, e).catalog && disk == IngestApply(history.world, e).disk
      modifies this`history, this`issued, this`closed, this`snapshots
      ensures Valid() && Now() == IngestApply(old(history).world, e)
      ensures history == Then(old(history), OfIngest(e), Now())
    {
      hide IngestEnabled, IngestApply, TablesOk, Recount;
      Record(OfIngest(e));
    }

    /** `allocate_staging` and the copy: the row before the file, so that no staged file is unrecorded. */
    method Stage(name: Name, inode: nat, content: Content, now: int)
      requires Idle() && name !in db.tables.staging && name !in disk.staging
      modifies this, db
      ensures Idle()
      ensures Now() == Staged(old(Now()), name, File(inode, content), now)
    {
      hide Legal, Enabled, Apply, TablesOk, Recount;
      db.InsertStaging(name, now);
      RecordIngest(AddStagingRow(name, now));
      disk := disk.(staging := disk.staging[name := File(inode, [])]);
      RecordIngest(WriteStagingFile(name, File(inode, [])));
      disk := disk.(staging := disk.staging[name := File(inode, content)]);
      RecordIngest(WriteStagingFile(name, File(inode, content)));
    }

    /** `cleanup_staged_file`: the file before the row. */
    method Unstage(name: Name)
      requires Idle()
      modifies this, db
      ensures Idle() && Now() == Unstaged(old(Now()), name)
      ensures db.totals.activeBytes == old(db.totals.activeBytes)
    {
      hide Legal, Enabled, Apply, TablesOk, Rooted, Recount;
      if name in disk.staging {
        disk := disk.(staging := disk.staging - {name});
        RecordIngest(RemoveStagingFile(name));
      }
      db.DeleteStaging(name);
      RecordIngest(RemoveStagingRow(name));
      assert old(disk).staging - {name} == disk.staging;
    }

    /** `prepare_destination`: true for the right file already in place; wrong content is quarantined. */
    method PrepareDestination(h: Hash, size: nat, quarantineName: Name, now: int) returns (r: Result<bool, Fault>)
      requires Idle() && |h.preimage| == size
      requires quarantineName !in db.tables.quarantine && quarantineName !in disk.quarantine
      modifies this, db
      ensures Idle()
      ensures r.Success? && r.value ==> Now() == old(Now()) && GoodFile(disk, h, size)
      ensures r.Success? && !r.value ==> Own(h) !in disk.objects
      ensures r.Failure? ==> Now() == old(Now())
      ensures OnlyRowChanged(old(Now()), Now(), h) && db.tables.refs == old(db.tables).refs
    {
      hide Legal, Enabled, Apply, TablesOk, Recount;
      if Own(h) !in disk.objects {
        return Success(false);
      }
      var found := disk.objects[Own(h)].content;
      if |found| > limits.maxObjectBytes {
        return Failure(LimitExceeded);
      }
      if Sha256(found) == h && |found| == size {
        return Success(true);
      }
      QuarantineOwn(h, quarantineName, "object path content did not match its hash", now);
      return Success(false);
    }

    /** The admitting transaction. */
    method Admit(h: Hash, size: nat, owner: Option<Owner>, now: int)
      requires Idle() && IngestEnabled(Now(), CommitIngest(h, size, owner, now))
      modifies this, db
      ensures Idle() && Now() == IngestApply(old(Now()), CommitIngest(h, size, owner, now))
    {
      hide Legal, Enabled, Apply, TablesOk, Recount;
      var created := if h in db.tables.objects then db.tables.objects[h].created else now;
      db.PutObject(h, Row(size, Active, created));
      if owner.Some? {
        var _ := db.InsertRef(Ref(owner.value, h));
      }
      assert db.tables.refs == Ingested(old(db.tables), h, size, owner, now).refs;
      RecordIngest(CommitIngest(h, size, owner, now));
    }

    /** The quota check, the link unless the file is already there, and the admission. */
    method AdmitWithinQuota(name: Name, content: Content, owner: Option<Owner>, inPlace: bool, now: int)
      returns (ok: bool)
      requires Idle() && name in disk.staging && disk.staging[name].content == content
      requires if inPlace then GoodFile(disk, Sha256(content), |content|) else Own(Sha256(content)) !in disk.objects
      modifies this, db
      ensures Idle() && OnlyRowChanged(old(Now()), Now(), Sha256(content))
      ensures ok <==> ActiveBytes(old(db.tables).objects - {Sha256(content)}) + |content| <= limits.maxTotalBytes
      ensures !ok ==> Now() == old(Now())
      ensures ok ==>
        && Admitted(Now(), content)
        && db.totals.activeBytes == ActiveBytes(old(db.tables).objects - {Sha256(content)}) + |content|
        && db.tables.refs == old(db.tables).refs + (if owner.Some? then {Ref(owner.value, Sha256(content))} else {})
    {
      var h := Sha256(content);
      OthersBytes(db.tables.objects, h);
      AdmissionIs(Now(), name, content, owner, inPlace, now);
      hide Legal, Enabled, Apply, TablesOk, Rooted, IngestEnabled, IngestApply, Admitted, ActiveBytes, MissingCount,
        GoodFile;
      var others := db.totals.activeBytes - (if h in db.tables.objects then ActiveSize(db.tables.objects[h]) else 0);
      ok := others + |content| <= limits.maxTotalBytes;
      if ok {
        if !inPlace {
          LinkStaged(name, h);
        }
        Admit(h, |content|, owner, now);
      }
    }

    /** From the checked content to the admitted object; the staged copy is left for the caller to remove. */
    method Publish(name: Name, content: Content, owner: Option<Owner>, quarantineName: Name, now: int)
      returns (r: Result<bool, Fault>)
      requires Idle() && name in disk.staging && disk.staging[name].content == content
      requires quarantineName !in db.tables.quarantine && quarantineName !in disk.quarantine
      modifies this, db
      ensures Idle()
      ensures OnlyRowChanged(old(Now()), Now(), Sha256(content))
      ensures db.tables.refs == old(db.tables).refs
        + (if r.Success? && owner.Some? then {Ref(owner.value, Sha256(content))} else {})
      ensures r.Success? ==>
        && Admitted(Now(), content)
        && db.totals.activeBytes == ActiveBytes(old(db.tables).objects - {Sha256(content)}) + |content|
        && db.totals.activeBytes <= limits.maxTotalBytes
    {
      hide Legal, Enabled, Apply, TablesOk, Recount, Admitted, GoodFile;
      var prepared := PrepareDestination(Sha256(content), |content|, quarantineName, now);
      if prepared.Failure? {
        return Failure(prepared.error);
      }
      var ok := AdmitWithinQuota(name, content, owner, prepared.value, now);
      r := if ok then prepared else Failure(LimitExceeded);
    }

    method LinkStaged(name: Name, h: Hash)
      requires Idle() && IngestEnabled(Now(), LinkObject(name, h))
      modifies this
      ensures Idle() && Now() == IngestApply(old(Now()), LinkObject(name, h))
    {
      hide Legal, Enabled, Apply, TablesOk, Recount;
      disk := disk.(objects := disk.objects[Own(h) := disk.staging[name]]);
      RecordIngest(LinkObject(name, h));
    }

    /**
     `ingest`: on success the object is active with its file in place and referenced as asked, the active
     bytes are those of all other objects plus its own and within the quota; in every case the staging
     area is as before and only the row of this hash may have changed.
    */
    method Ingest(content: Content, owner: Option<Owner>, name: Name, inode: nat, quarantineName: Name, now: int,
        mayCancel: bool)
      returns (r: Result<bool, Fault>)
      requires Idle() && name !in db.tables.staging && name !in disk.staging
      requires quarantineName !in db.tables.quarantine && quarantineName !in disk.quarantine
      modifies this, db
      ensures Idle()
      ensures OnlyRowChanged(old(Now()), Now(), Sha256(content))
      ensures db.tables.refs == old(db.tables).refs
        + (if r.Success? && owner.Some? then {Ref(owner.value, Sha256(content))} else {})
      ensures r.Success? ==>
        && Admitted(Now(), content)
        && db.totals.activeBytes == ActiveBytes(old(db.tables).objects - {Sha256(content)}) + |content|
        && db.totals.activeBytes <= limits.maxTotalBytes
    {
      hide Legal, Enabled, Apply, TablesOk, Recount, ActiveBytes, Rooted, OnlyRowChanged, Admitted;
      var copied := if |content| <= limits.maxObjectBytes then content else content[..limits.maxObjectBytes];
      Stage(name, inode, copied, now);
      NothingChanged(Now(), Sha256(content));
      var cancelled := false;
      if mayCancel {
        cancelled := *;
      }
      if cancelled {
        r := Failure(Cancelled);
      } else if |content| == 0 {
        r := Failure(UnsupportedContent);
      } else if |content| > limits.maxObjectBytes {
        r := Failure(LimitExceeded);
      } else {
        r := Publish(name, content, owner, quarantineName, now);
      }
      AroundStaging(old(Now()), name, File(inode, copied), now, Now(), Sha256(content));
      Unstage(name);
    }

    // -------------------------------------------------------------- backup sessions

    ghost method RecordBackup(e: BackupStep)
      requires db.Ledger() && Legal(history) && Rooted(history) && TablesOk(history.world)
      requires history.world.catalog.intents == map[] && BackupEnabled(history.world, e)
      requires db.tables == BackupApply(history.world, e).catalog && disk == BackupApply(history.world, e).disk
      modifies this`history, this`issued, this`closed, this`snapshots
      ensures Valid() && Now() == BackupApply(old(history).world, e)
      ensures history == Then(old(history), OfBackup(e), Now())
    {
      hide BackupEnabled, BackupApply, TablesOk, Recount;
      Record(OfBackup(e));
    }

    /** Deletes the sessions and every pin they own. */
    method ReleaseBackupSessions(sids: set<SessionId>) returns (released: nat)
      requires Idle()
      modifies this, db
      ensures Idle() && Now() == BackupApply(old(Now()), ReleaseBackups(sids))
      ensures released == |PinRefs(old(db.tables), sids)|
    {
      hide Legal, Enabled, Apply, TablesOk, Recount, Rooted;
      var pins := PinRefs(db.tables, sids);
      released := db.DeleteRefs(pins);
      assert old(db.tables).refs * pins == pins;
      assert db.tables.refs == Released(old(db.tables), sids).refs;
      db.SetUncounted(db.tables.intents, db.tables.backups - sids, db.tables.temporaries);
      RecordBackup(ReleaseBackups(sids));
    }

    /** The pinning transaction: stale sessions go, and the active rows are pinned for the session. */
    method PinActive(sid: SessionId, expired: set<SessionId>, now: int)
      requires db.Ledger()
      modifies db
      ensures db.Ledger() && db.tables == PinnedCatalog(old(db.tables), sid, expired, now)
    {
      hide Recount, PinRefs, ActiveRows, Cleared;
      PinnedRefs(db.tables, sid, expired, now);
      var pins := set h | h in ActiveRows(db.tables) :: Ref(BackupOwner(sid), h);
      var _ := db.DeleteRefs(PinRefs(db.tables, Cleared(db.tables, sid, expired)));
      db.InsertRefs(pins);
      var live := db.tables.backups - expired;
      var lease := if sid in live then Max(live[sid], now) else now;
      db.SetUncounted(db.tables.intents, live[sid := lease], db.tables.temporaries);
    }

    /** Pins, then writes the copy before anything else can change the catalog. */
    method PinAndCopy(sid: SessionId, expired: set<SessionId>, now: int) returns (copy: Database)
      requires Idle() && BackupEnabled(Now(), PinSnapshot(sid, expired, now, true))
      modifies this, db
      ensures Idle() && Now() == BackupApply(old(Now()), PinSnapshot(sid, expired, now, true))
      ensures fresh(copy) && copy.Ledger() && sid in snapshots && copy.tables == snapshots[sid] && Clean(copy.tables)
      ensures ActiveRows(copy.tables) == ActiveRows(old(db.tables))
      ensures Pinned(db.tables, sid) == ActiveRows(copy.tables) + StrayPins(old(db.tables), sid)
      ensures sid in db.tables.backups
    {
      hide Legal, Enabled, Apply, Recount, Rooted, TablesOk, PinnedCatalog, SnapshotOf, Clean, ActiveRows, Pinned,
        StrayPins;
      PinnedPins(db.tables, sid, expired, now, sid);
      KeepsIntents(db.tables, sid, expired, now);
      PinActive(sid, expired, now);
      copy := new Database.CopyOf(db);
      CleanCopy(copy);
      RecordBackup(PinSnapshot(sid, expired, now, true));
    }

    /** Pins, but the copy is cancelled: the session is released again. */
    method PinAndRelease(sid: SessionId, expired: set<SessionId>, now: int)
      requires Idle() && BackupEnabled(Now(), PinSnapshot(sid, expired, now, false))
      modifies this, db
      ensures Idle() && sid !in db.tables.backups
    {
      hide Legal, Enabled, Apply, Recount, Rooted, TablesOk, PinnedCatalog;
      KeepsIntents(db.tables, sid, expired, now);
      PinActive(sid, expired, now);
      RecordBackup(PinSnapshot(sid, expired, now, false));
      var _ := ReleaseBackupSessions({sid});
    }

    /**
     `begin_backup_snapshot`: refused only when 128 other sessions are live; the copy it writes has right
     totals and no operational metadata. The session pins the active rows of that copy, and nothing else as
     long as pins belong to sessions. A cancelled copy releases the session again.
    */
    method BeginBackupSnapshot(sid: SessionId, now: int, mayCancel: bool) returns (r: Result<Database, Fault>)
      requires Idle()
      modifies this, db
      ensures Idle()
      ensures r.Success? ==>
        && fresh(r.value) && r.value.Ledger() && Clean(r.value.tables)
        && sid in snapshots && snapshots[sid] == r.value.tables && sid in db.tables.backups
        && ActiveRows(r.value.tables) == ActiveRows(old(db.tables))
        && Pinned(db.tables, sid) == ActiveRows(r.value.tables) + StrayPins(old(db.tables), sid)
      ensures r.Success? && old(BackupsOk(Now())) ==> Pinned(db.tables, sid) == ActiveRows(r.value.tables)
      ensures r.Failure? && r.error.InvalidInput? ==>
        && Now() == old(Now()) && sid !in Live(old(db.tables).backups, now)
        && |Live(old(db.tables).backups, now)| == MAX_BACKUP_SNAPSHOT_SESSIONS
      ensures r.Failure? ==> r.error.InvalidInput? || (r.error.Cancelled? && mayCancel && sid !in db.tables.backups)
    {
      hide Legal, Enabled, Apply, Recount, Rooted, PinnedCatalog;
      var live := Live(db.tables.backups, now);
      var expired := db.tables.backups.Keys - live;
      assert db.tables.backups.Keys - expired == live;
      if sid !in live && |live| >= MAX_BACKUP_SNAPSHOT_SESSIONS {
        Shrink(live, db.tables.backups.Keys);
        return Failure(InvalidInput);
      }
      var cancelled := false;
      if mayCancel {
        cancelled := *;
      }
      if cancelled {
        PinAndRelease(sid, expired, now);
        return Failure(Cancelled);
      }
      if BackupsOk(Now()) { NoStrayPins(Now(), sid); }
      hide TablesOk, Clean, ActiveRows, Pinned, BackupApply, StrayPins, BackupsOk;
      var copy := PinAndCopy(sid, expired, now);
      return Success(copy);
    }

    /** Strips a copy of pins, temporary references and sessions; its triggers keep its totals right. */
    method CleanCopy(copy: Database)
      requires copy.Ledger()
      modifies copy
      ensures copy.Ledger() && copy.tables == SnapshotOf(old(copy.tables)) && Clean(copy.tables)
      ensures ActiveRows(copy.tables) == ActiveRows(old(copy.tables))
    {
      var c := copy.tables;
      var _ := copy.DeleteRefs(set r | r in c.refs && Operational(c, r));
      copy.SetUncounted(c.intents, map[], map[]);
      assert copy.tables.refs == SnapshotOf(c).refs;
      SnapshotIsClean(c);
    }

    /**
     `renew_backup_snapshot`: `None` once the session is gone; otherwise the pin count, which is the number
     of active rows in the session's snapshot, so the exporter's lease check holds.
    */
    method RenewBackupSnapshot(sid: SessionId, now: int) returns (r: Option<nat>)
      requires Idle()
      modifies this, db
      ensures Idle()
      ensures r.None? <==> sid !in old(db.tables).backups
      ensures r.None? ==> Now() == old(Now())
      ensures r.Some? ==> Now() == BackupApply(old(Now()), RenewBackup(sid, now)) && r.value == |Pinned(db.tables, sid)|
      ensures r.Some? && old(BackupsOk(Now())) && sid in snapshots ==> r.value == |ActiveRows(snapshots[sid])|
    {
      hide Legal, Enabled, Apply, Recount, Rooted, TablesOk;
      if sid !in db.tables.backups {
        return None;
      }
      var lease := Max(db.tables.backups[sid], now);
      db.SetUncounted(db.tables.intents, db.tables.backups[sid := lease], db.tables.temporaries);
      RecordBackup(RenewBackup(sid, now));
      var pins := PinRefs(db.tables, {sid});
      PinCount(db.tables, sid);
      return Some(|pins|);
    }

    // -------------------------------------------------------------- reconciliation and opening

    /**
     The body of `reconcile_catalog_page` for one row: afterwards the object is active exactly when the right
     file is in its place, and a wrong file has been quarantined.
    */
    method ReconcileObject(h: Hash, quarantineName: Name, now: int) returns (r: Result<(), Fault>)
      requires Idle() && h in db.tables.objects
      requires quarantineName !in db.tables.quarantine && quarantineName !in disk.quarantine
      modifies this, db
      ensures Idle() && OnlyRowChanged(old(Now()), Now(), h) && db.tables.refs == old(db.tables).refs
      ensures r.Failure? ==> Now() == old(Now())
      ensures r.Success? ==>
        && (ActiveRow(db.tables, h) <==> GoodFile(old(disk), h, old(db.tables).objects[h].size))
        && (ActiveRow(db.tables, h) ==> disk == old(disk))
        && (!ActiveRow(db.tables, h) ==> Own(h) !in disk.objects)
        && Now() == Reconciled(old(Now()), h, quarantineName, now)
    {
      hide Legal, Enabled, Apply, TablesOk, Recount, Rooted, MoveOutcome;
      if Own(h) !in disk.objects {
        SetObjectState(h, Missing);
        return Success(());
      }
      var found := disk.objects[Own(h)].content;
      if |found| > limits.maxObjectBytes {
        return Failure(LimitExceeded);
      }
      if Sha256(found) != h || |found| != db.tables.objects[h].size {
        QuarantineOwn(h, quarantineName, MISMATCH, now);
      } else {
        SetObjectState(h, Active);
      }
      return Success(());
    }

    /** Records what the file of a catalogued object showed: missing, or there and right. */
    method SetObjectState(h: Hash, state: State)
      requires Idle() && h in db.tables.objects
      requires
        || (state.Missing? && Own(h) !in disk.objects)
        || (state.Active? && GoodFile(disk, h, db.tables.objects[h].size))
      modifies this, db
      ensures Idle() && OnlyRowChanged(old(Now()), Now(), h)
      ensures Now() == old(Now()).(
          catalog := old(db.tables).(objects := SetState(old(db.tables).objects, h, state)))
    {
      hide Legal, Enabled, Apply, TablesOk, Recount, Rooted;
      if state.Missing? && db.tables.objects[h].state.Missing? {
        assert db.tables.objects[h].(state := Missing) == db.tables.objects[h];
        return;
      }
      db.UpdateState(h, state);
      RecordUpkeep(if state.Missing? then MarkMissing(h) else MarkActive(h));
    }

    /**
     `AssetStore::open`: finishes what was pending, then drops expired backup sessions, then rolls back the dead
     temporary owners of every type in which a session has expired.
    */
    method Open(now: int)
      requires Valid()
      modifies this, db
      ensures Idle()
      ensures Reached(PendingOf(old(history)), old(Now()))
      ensures Now() == Opened(Finished(PendingOf(old(history)), old(Now())), now)
    {
      hide Legal, Enabled, Apply, TablesOk, Recount, Rooted, PendingOf, Reached, Finished, RolledBack, DeadOfTypes,
        ExpiredTypes, BackupApply;
      RecoverQuarantineIntents();
      var expired := db.tables.backups.Keys - Live(db.tables.backups, now);
      var _ := ReleaseBackupSessions(expired);
      var cutoff := now - TEMPORARY_OWNER_LEASE_TIMEOUT_MS;
      RecoverExpired(cutoff);
    }
  }
}
