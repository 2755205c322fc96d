/** Rolling back temporary owners: what is removed, and why stopping and retrying removes the same. */
module AssetRollback {
  import opened AssetModel

  /** Active objects referenced by the given owners and by nobody else. */
  ghost function Orphans(c: Catalog, dead: set<Owner>): set<Hash> {
    set h | h in c.objects && c.objects[h].state.Active? && OwnedOnlyBy(c, h, dead)
  }

  ghost predicate OwnedOnlyBy(c: Catalog, h: Hash, dead: set<Owner>) {
    Referenced(c, h) && forall r | r in c.refs && r.hash == h :: r.owner in dead
  }

  /** The whole effect of rolling back a set of owners: their references and sessions, their orphans, nothing else. */
  ghost function RolledBack(w: World, dead: set<Owner>): World {
    var orphans := Orphans(w.catalog, dead);
    w.(catalog := w.catalog.(
         refs := (set r | r in w.catalog.refs && r.owner !in dead),
         objects := w.catalog.objects - orphans,
         temporaries := w.catalog.temporaries - dead),
       disk := w.disk.(objects := w.disk.objects - (set h | h in orphans :: Own(h))))
  }

  /** The steps rollback and recovery take for one owner. */
  predicate RollbackStep(e: SessionStep) {
    e.RollbackUnlink? || e.RollbackRow? || e.EndSession? || e.ClaimSession?
  }

  lemma UnlinkTowards(w: World, dead: set<Owner>, o: Owner, h: Hash)
    requires SessionEnabled(w, RollbackUnlink(o, h)) && o in dead
    ensures RolledBack(SessionApply(w, RollbackUnlink(o, h)), dead) == RolledBack(w, dead)
  {
  }

  lemma RowOrphans(c: Catalog, dead: set<Owner>, o: Owner, h: Hash)
    requires Ref(o, h) in c.refs && o in dead
    ensures Orphans(RolledBackRow(c, o, h), dead)
      == if ActiveRow(c, h) && !ReferencedByOther(c, h, o) then Orphans(c, dead) - {h} else Orphans(c, dead)
  {
  }

  lemma RowRefs(c: Catalog, o: Owner, h: Hash)
    ensures RefsOf(RolledBackRow(c, o, h), o) == RefsOf(c, o) - {Ref(o, h)}
  {
  }

  lemma OrphanAlone(c: Catalog, o: Owner, h: Hash)
    requires Ref(o, h) in c.refs
    ensures h in Orphans(c, {o}) <==> ActiveRow(c, h) && !ReferencedByOther(c, h, o)
  {
  }

  lemma NoOrphans(c: Catalog, o: Owner)
    requires RefsOf(c, o) == {}
    ensures Orphans(c, {o}) == {}
  {
    assert forall r | r in c.refs :: r.owner != o by {
      assert forall r | r in c.refs && r.owner == o :: r in RefsOf(c, o);
    }
  }

  lemma RowTowards(w: World, dead: set<Owner>, o: Owner, h: Hash)
    requires SessionEnabled(w, RollbackRow(o, h)) && o in dead
    ensures RolledBack(SessionApply(w, RollbackRow(o, h)), dead) == RolledBack(w, dead)
  {
    var c := w.catalog;
    var c' := RolledBackRow(c, o, h);
    RowOrphans(c, dead, o, h);
    RowLeaves(c, dead, o, h);
    RowFiles(w.disk.objects, Orphans(c, dead), Orphans(c', dead), h);
    hide Orphans, ActiveRow, ReferencedByOther;
  }

  lemma RowLeaves(c: Catalog, dead: set<Owner>, o: Owner, h: Hash)
    requires Ref(o, h) in c.refs && o in dead
    ensures
      var c' := RolledBackRow(c, o, h);
      && (set r | r in c'.refs && r.owner !in dead) == (set r | r in c.refs && r.owner !in dead)
      && c'.objects - Orphans(c', dead) == c.objects - Orphans(c, dead)
      && (Orphans(c', dead) != Orphans(c, dead) ==> ActiveRow(c, h) && !ReferencedByOther(c, h, o))
  {
  }

  lemma RowFiles(files: map<Slot, File>, before: set<Hash>, after: set<Hash>, h: Hash)
    requires after == before || (after == before - {h} && Own(h) !in files)
    ensures files - (set g | g in after :: Own(g)) == files - (set g | g in before :: Own(g))
  {
  }

  /** Every step of rollback or recovery leaves the outcome still to be reached unchanged. */
  lemma StepTowards(w: World, dead: set<Owner>, e: SessionStep)
    requires SessionEnabled(w, e) && RollbackStep(e) && e.owner in dead
    ensures RolledBack(SessionApply(w, e), dead) == RolledBack(w, dead)
  {
    match e
    case RollbackUnlink(o, h) => UnlinkTowards(w, dead, o, h);
    case RollbackRow(o, h) => RowTowards(w, dead, o, h);
    case EndSession(o) => assert w.catalog.temporaries - {o} - dead == w.catalog.temporaries - dead;
    case ClaimSession(o, _) => assert w.catalog.temporaries - {o} - dead == w.catalog.temporaries - dead;
  }

  /** The owners have no reference and no session. */
  ghost predicate Gone(c: Catalog, dead: set<Owner>) {
    (forall r | r in c.refs :: r.owner !in dead) && c.temporaries.Keys !! dead
  }

  lemma GoneExactly(c: Catalog, dead: set<Owner>)
    ensures Gone(c, dead) <==> forall o | o in dead :: RefsOf(c, o) == {} && o !in c.temporaries
  {
    assert forall r | r in c.refs :: r in RefsOf(c, r.owner);
  }

  /** Nothing is left to do once the owners have no reference and no session. */
  lemma NothingLeft(w: World, dead: set<Owner>)
    requires Gone(w.catalog, dead)
    ensures RolledBack(w, dead) == w
  {
  }

  /** All events from `earlier` to `later` are rollback steps for the given owners. */
  ghost predicate OnlyRollsBack(dead: set<Owner>, earlier: History, later: History) {
    earlier == later ||
    (later.Then? && later.event.OfSession? && RollbackStep(later.event.session) && later.event.session.owner in dead
     && OnlyRollsBack(dead, earlier, later.past))
  }

  lemma {:induction false} RollsBackOn(dead: set<Owner>, more: set<Owner>, a: History, b: History, c: History)
    requires OnlyRollsBack(dead, a, b) && OnlyRollsBack(more, b, c)
    ensures OnlyRollsBack(dead + more, a, c)
  {
    if c != b {
      RollsBackOn(dead, more, a, b, c.past);
    } else if b != a {
      RollsBackOn(dead, more, a, b.past, b.past);
    }
  }

  /**
   A rollback stopped at any point, after an unlink as well as after a row, and taken up again any number
   of times, still ends in what the uninterrupted rollback would have left.
  */
  lemma {:induction false} RollbackSurvivesCrashes(dead: set<Owner>, earlier: History, later: History)
    requires Legal(later) && OnlyRollsBack(dead, earlier, later)
    ensures RolledBack(later.world, dead) == RolledBack(earlier.world, dead)
    ensures Gone(later.world.catalog, dead) ==> later.world == RolledBack(earlier.world, dead)
  {
    if earlier != later {
      RollbackSurvivesCrashes(dead, earlier, later.past);
      StepTowards(later.past.world, dead, later.event.session);
    }
    if Gone(later.world.catalog, dead) {
      NothingLeft(later.world, dead);
    }
  }

  /** Owners of one type whose session has expired, and those with references but no session. */
  function DeadOwners(c: Catalog, ownerType: string, cutoff: int): set<Owner> {
    (set o | o in c.temporaries && o.ownerType == ownerType && c.temporaries[o] < cutoff)
    + (set r | r in c.refs && r.owner.ownerType == ownerType && r.owner !in c.temporaries :: r.owner)
  }

  /** The owner types in which a session has expired. */
  function ExpiredTypes(c: Catalog, cutoff: int): set<string> {
    set o | o in c.temporaries && c.temporaries[o] < cutoff :: o.ownerType
  }

  /** The dead owners of several types. */
  ghost function DeadOfTypes(c: Catalog, types: set<string>, cutoff: int): set<Owner> {
    set t, o | t in types && o in DeadOwners(c, t, cutoff) :: o
  }

  /** Recovering one type leaves the dead of the others. */
  lemma OtherTypesStayDead(w: World, dead: set<Owner>, ownerType: string, other: string, cutoff: int)
    requires other != ownerType && forall o | o in dead :: o.ownerType == ownerType
    ensures DeadOwners(RolledBack(w, dead).catalog, other, cutoff) == DeadOwners(w.catalog, other, cutoff)
  {
  }

  /** What is gone stays gone. */
  lemma RolledBackAreGone(w: World, dead: set<Owner>, before: set<Owner>)
    requires Gone(w.catalog, before)
    ensures Gone(RolledBack(w, dead).catalog, before + dead)
  {
  }

  lemma {:induction false} FewTypes(owners: set<Owner>)
    ensures |set o | o in owners :: o.ownerType| <= |owners|
    decreases |owners|
  {
    var types := set o | o in owners :: o.ownerType;
    if owners != {} {
      var o :| o in owners;
      FewTypes(owners - {o});
      var fewer := set p | p in owners - {o} :: p.ownerType;
      assert types == fewer + {o.ownerType};
    }
  }

  /** Everyone else keeps their session, references, rows and files. */
  lemma OthersUntouched(w: World, dead: set<Owner>, o: Owner)
    requires o !in dead
    ensures var w' := RolledBack(w, dead);
      && RefsOf(w'.catalog, o) == RefsOf(w.catalog, o)
      && (o in w'.catalog.temporaries <==> o in w.catalog.temporaries)
      && (o in w.catalog.temporaries ==> w'.catalog.temporaries[o] == w.catalog.temporaries[o])
      && forall r | r in RefsOf(w.catalog, o) ::
        && (r.hash in w.catalog.objects ==>
             r.hash in w'.catalog.objects && w'.catalog.objects[r.hash] == w.catalog.objects[r.hash])
        && (Own(r.hash) in w.disk.objects ==>
             Own(r.hash) in w'.disk.objects && w'.disk.objects[Own(r.hash)] == w.disk.objects[Own(r.hash)])
  {
  }

  /** Rolling back one of the dead leaves exactly the others dead. */
  lemma OneLessDead(w: World, o: Owner, ownerType: string, cutoff: int)
    ensures DeadOwners(RolledBack(w, {o}).catalog, ownerType, cutoff) == DeadOwners(w.catalog, ownerType, cutoff) - {o}
  {
  }

  /** What one rollback removes of the orphans of a larger set of owners. */
  lemma OrphansSplit(w: World, o: Owner, dead: set<Owner>)
    requires o in dead
    ensures Orphans(w.catalog, {o}) <= Orphans(w.catalog, dead)
    ensures Orphans(RolledBack(w, {o}).catalog, dead) == Orphans(w.catalog, dead) - Orphans(w.catalog, {o})
  {
  }

  lemma SameOrphans(c: Catalog, c': Catalog, dead: set<Owner>)
    requires c'.refs == c.refs && c'.objects == c.objects
    ensures Orphans(c', dead) == Orphans(c, dead)
  {
  }

  lemma NoOrphansOf(c: Catalog, dead: set<Owner>)
    requires Gone(c, dead)
    ensures Orphans(c, dead) == {}
  {
  }

  /** The owner has nothing left, and every other owner has what it had. */
  lemma GoneAndKept(w: World, o: Owner)
    ensures var c := RolledBack(w, {o}).catalog;
      && RefsOf(c, o) == {} && o !in c.temporaries
      && forall p | p != o ::
           RefsOf(c, p) == RefsOf(w.catalog, p) && (p in c.temporaries <==> p in w.catalog.temporaries)
  {
  }
}
