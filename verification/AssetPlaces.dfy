/**
Files that lie outside their hash-derived place, and the one thing they can do to a healthy object: once
such a file is named after the object, quarantining it demotes the object's row.
*/
module AssetPlaces {
  import opened Wrappers
  import opened AssetModel
  import opened AssetInvariant
  import opened AssetQuarantine
  import opened AssetProtection

  predicate MovesStray(intent: Intent) { intent.operation.Move? && !intent.operation.source.Own? }

  /** The slots in the shards that are no hash-derived place, and those a pending move takes away. */
  ghost function OutOfPlace(w: World): set<Slot> {
    (set slot | slot in w.disk.objects && !slot.Own?)
    + (set n | n in w.catalog.intents && MovesStray(w.catalog.intents[n]) :: w.catalog.intents[n].operation.source)
  }

  /** No such slot is named after the object. */
  ghost predicate InPlace(w: World, h: Hash) {
    forall slot | slot in OutOfPlace(w) :: OriginalHash(slot) != Some(h)
  }

  lemma SamePlaces(w: World, w': World)
    requires w'.disk.objects.Keys <= w.disk.objects.Keys && w'.catalog.intents == w.catalog.intents
    ensures OutOfPlace(w') <= OutOfPlace(w)
  {
  }

  lemma IngestPlaces(w: World, e: IngestStep)
    requires IngestEnabled(w, e)
    ensures OutOfPlace(IngestApply(w, e)) <= OutOfPlace(w)
  {
  }

  lemma StartPlaces(w: World, e: StartStep)
    requires w.catalog.intents == map[] && StartEnabled(w, e)
    ensures OutOfPlace(StartApply(w, e)) <= OutOfPlace(w)
  {
  }

  lemma IntentPlaces(w: World, e: IntentStep)
    requires IntentEnabled(w, e)
    ensures OutOfPlace(IntentApply(w, e)) <= OutOfPlace(w)
  {
    var w' := IntentApply(w, e);
    assert forall n | n in w'.catalog.intents ::
        n in w.catalog.intents && w'.catalog.intents[n].operation == w.catalog.intents[n].operation;
    assert w'.disk.objects.Keys <= w.disk.objects.Keys;
  }

  /** No event of the store puts a file out of place. */
  lemma EventPlaces(w: World, e: Event)
    requires Enabled(w, e)
    ensures OutOfPlace(Apply(w, e)) <= OutOfPlace(w)
  {
    hide IngestEnabled, IngestApply, UpkeepEnabled, UpkeepApply, SessionEnabled, SessionApply, StartEnabled, StartApply,
      IntentEnabled, IntentApply, BackupEnabled, BackupApply, OutOfPlace;
    match e
    case OfIngest(i) => IngestPlaces(w, i);
    case OfUpkeep(u) =>
      UpkeepOnlyUnlinks(w, u);
      SamePlaces(w, Apply(w, e));
    case OfSession(s) =>
      SessionOnlyUnlinks(w, s);
      SamePlaces(w, Apply(w, e));
    case OfStart(s) => StartPlaces(w, s);
    case OfIntent(i) => IntentPlaces(w, i);
    case OfBackup(b) =>
      BackupKeepsFiles(w, b);
      SamePlaces(w, Apply(w, e));
  }

  /** So over every run nothing is out of place that was not so at the start. */
  lemma {:induction false} StoreKeepsInPlace(h: History)
    requires Legal(h)
    ensures OutOfPlace(h.world) <= OutOfPlace(Origin(h))
  {
    if h.Then? {
      StoreKeepsInPlace(h.past);
      EventPlaces(h.past.world, h.event);
    }
  }

  /** With no stray file of its name, no finished move is one of its own. */
  lemma NoMisfiledMove(w: World, e: Event, r: Ref)
    requires Enabled(w, e) && Corresponds(w) && InPlace(w, r.hash) && Kept(w, r)
    ensures !MisfiledMove(w, e, r.hash)
  {
    assert forall n | n in w.catalog.intents && MovesStray(w.catalog.intents[n]) ::
        w.catalog.intents[n].operation.source in OutOfPlace(w);
  }

  /** A referenced object stays active in every run from a state without a stray file of its name. */
  lemma {:induction false} ReferencedObjectStaysActive(earlier: History, later: History, r: Ref)
    requires Legal(later) && TablesOk(Origin(later)) && HeldSince(r, earlier, later)
    requires Kept(earlier.world, r) && ActiveRow(earlier.world.catalog, r.hash) && InPlace(earlier.world, r.hash)
    ensures Kept(later.world, r) && ActiveRow(later.world.catalog, r.hash) && InPlace(later.world, r.hash)
  {
    if earlier != later {
      ReferencedObjectStaysActive(earlier, later.past, r);
      HistoryKeepsTables(later.past);
      hide Enabled, Apply, Kept, ActiveRow, Corresponds, OutOfPlace, MisfiledMove, RollsBack;
      NoMisfiledMove(later.past.world, later.event, r);
      EventKeeps(later.past.world, later.event, r);
      EventPlaces(later.past.world, later.event);
    }
  }

  // ------------------------------------------------------------- the other half

  lemma {:induction false} HeldOn(r: Ref, a: History, b: History, c: History)
    requires HeldSince(r, a, b) && HeldSince(r, b, c)
    ensures HeldSince(r, a, c)
  {
    if b != c { HeldOn(r, a, b, c.past); }
  }

  lemma {:induction false} IntentsHold(r: Ref, a: History, b: History)
    requires Legal(b) && OnlyIntents(a, b) && r in a.world.catalog.refs
    ensures HeldSince(r, a, b)
  {
    if a != b {
      IntentsHold(r, a, b.past);
      IntentKeepsOwners(b.past.world, b.event.intent);
    }
  }

  /** The next step of a pending intent. */
  function NextStep(w: World, n: Name): IntentStep
    requires n in w.catalog.intents
  {
    var intent := w.catalog.intents[n];
    match (intent.operation, intent.phase)
    case (Move(source), Prepared) =>
      if source !in w.disk.objects then RecordMoved(n)
      else if n in w.disk.quarantine then UnlinkSource(n)
      else LinkQuarantine(n)
    case (Move(_), Moved) => FinalizeMove(n)
    case (Purge, Prepared) => if n in w.disk.quarantine then UnlinkQuarantined(n) else RecordMoved(n)
    case (Purge, Moved) => FinalizePurge(n)
  }

  function StepsLeft(w: World, n: Name): nat {
    if n !in w.catalog.intents then 0
    else match NextStep(w, n)
      case LinkQuarantine(_) => 4
      case UnlinkSource(_) => 3
      case UnlinkQuarantined(_) => 3
      case RecordMoved(_) => 2
      case FinalizeMove(_) => 1
      case FinalizePurge(_) => 1
  }

  /** What the next step of an intent does: it can be taken, brings the end nearer and leaves other files alone. */
  ghost predicate StepRuns(w: World, n: Name, e: IntentStep)
    requires n in w.catalog.intents
  {
    && IntentEnabled(w, e)
    && var w' := IntentApply(w, e);
    && StepsLeft(w', n) < StepsLeft(w, n)
    && (n in w'.catalog.intents ==>
          && w'.catalog.intents[n].operation == w.catalog.intents[n].operation
          && w'.catalog.intents[n].row == w.catalog.intents[n].row)
    && (n !in w'.catalog.intents ==> w'.catalog.intents == map[] && (e.FinalizeMove? || e.FinalizePurge?))
    && forall slot | slot in w.disk.objects && w.catalog.intents[n].operation != Move(slot) :: slot in w'.disk.objects
  }

  lemma MoveStepRuns(w: World, n: Name)
    requires Corresponds(w) && n in w.catalog.intents && w.catalog.intents[n].operation.Move?
    ensures StepRuns(w, n, NextStep(w, n))
  {
    assert IntentCorresponds(w, n, w.catalog.intents[n]);
  }

  lemma PurgeStepRuns(w: World, n: Name)
    requires Corresponds(w) && n in w.catalog.intents && w.catalog.intents[n].operation.Purge?
    ensures StepRuns(w, n, NextStep(w, n))
  {
    assert IntentCorresponds(w, n, w.catalog.intents[n]);
  }

  ghost predicate DemotedBy(intent: Intent, h: Hash) { intent.operation.Move? && intent.row.original == Some(h) }

  /** Reopening finishes the pending intent; the object is demoted exactly when that moves a file of its name. */
  lemma {:induction false} FinishPending(start: History, n: Name, r: Ref) returns (later: History)
    requires Legal(start) && TablesOk(start.world) && n in start.world.catalog.intents
    requires Kept(start.world, r) && ActiveRow(start.world.catalog, r.hash)
    ensures Legal(later) && OnlyIntents(start, later) && later.world.catalog.intents == map[]
    ensures TablesOk(later.world) && Kept(later.world, r)
    ensures ActiveRow(later.world.catalog, r.hash) <==> !DemotedBy(start.world.catalog.intents[n], r.hash)
    ensures forall slot | slot in start.world.disk.objects && start.world.catalog.intents[n].operation != Move(slot) ::
      slot in later.world.disk.objects
    decreases StepsLeft(start.world, n)
  {
    var w := start.world;
    var e := NextStep(w, n);
    if w.catalog.intents[n].operation.Move? { MoveStepRuns(w, n); } else { PurgeStepRuns(w, n); }
    IntentKeepsOwners(w, e);
    EventKeepsTables(w, OfIntent(e));
    EventKeeps(w, OfIntent(e), r);
    later := Then(start, OfIntent(e), IntentApply(w, e));
    if n in later.world.catalog.intents {
      var next := later;
      hide TablesOk, Kept, ActiveRow, IntentEnabled, IntentApply, NextStep, StepsLeft;
      later := FinishPending(next, n, r);
      OnlyIntentsOn(start, next, later);
    }
  }

  /** There is always a name not yet used. */
  lemma {:induction false} UnusedName(used: set<Name>) returns (name: Name)
    ensures name !in used && forall u | u in used :: |u| < |name|
    decreases |used|
  {
    name := "n";
    if used != {} {
      var u :| u in used;
      var shorter := UnusedName(used - {u});
      name := if |u| < |shorter| then shorter else u + "n";
    }
  }

  /** With a misfiled copy present, reconciling its shard demotes the healthy object itself. */
  lemma MisfiledCopyDemotes(start: History, r: Ref, shard: string, name: Name, reason: string, now: int)
    returns (later: History)
    requires Legal(start) && start.world.catalog.intents == map[]
    requires Kept(start.world, r) && ActiveRow(start.world.catalog, r.hash)
    requires Misfiled(r.hash, shard) in start.world.disk.objects
    requires name !in start.world.catalog.quarantine && name !in start.world.disk.quarantine
    ensures Legal(later) && HeldSince(r, start, later)
    ensures Kept(later.world, r) && later.world.catalog.objects[r.hash].state == Quarantined(name)
  {
    var p := MovePlan(name, Misfiled(r.hash, shard), reason, now);
    MoveBegins(start.world, p);
    var begun := Then(start, MoveStart(p), MoveAt(start.world, p, 0));
    later := MoveRuns(begun, start.world, p, 0);
    assert HeldSince(r, start, begun);
    IntentsHold(r, begun, later);
    HeldOn(r, start, begun, later);
  }

  /** From a state with a stray file of the object's name there is a run that demotes it. */
  lemma StrayCanDemote(earlier: History, r: Ref) returns (later: History)
    requires Legal(earlier) && TablesOk(Origin(earlier))
    requires Kept(earlier.world, r) && ActiveRow(earlier.world.catalog, r.hash) && !InPlace(earlier.world, r.hash)
    ensures Legal(later) && HeldSince(r, earlier, later) && !ActiveRow(later.world.catalog, r.hash)
  {
    HistoryKeepsTables(earlier);
    var stray :| stray in OutOfPlace(earlier.world) && OriginalHash(stray) == Some(r.hash);
    later := earlier;
    if n :| n in earlier.world.catalog.intents {
      assert IntentCorresponds(earlier.world, n, earlier.world.catalog.intents[n]);
      later := FinishPending(earlier, n, r);
      IntentsHold(r, earlier, later);
    }
    if ActiveRow(later.world.catalog, r.hash) {
      var idle := later;
      var name := UnusedName(idle.world.catalog.quarantine.Keys + idle.world.disk.quarantine.Keys);
      later := MisfiledCopyDemotes(idle, r, stray.shard, name, "misfiled object", 0);
      HeldOn(r, earlier, idle, later);
    }
  }

  /**
   A healthy referenced object stays active in every run that holds the reference, wherever it is stopped and
   reopened, exactly when no file of its name lies in another shard or is being moved out of one.
  */
  lemma StaysActiveExactly(earlier: History, r: Ref)
    requires Legal(earlier) && TablesOk(Origin(earlier))
    requires Kept(earlier.world, r) && ActiveRow(earlier.world.catalog, r.hash)
    ensures
      (forall later | Legal(later) && HeldSince(r, earlier, later) :: ActiveRow(later.world.catalog, r.hash)) <==>
      InPlace(earlier.world, r.hash)
  {
    if InPlace(earlier.world, r.hash) {
      forall later | Legal(later) && HeldSince(r, earlier, later) ensures ActiveRow(later.world.catalog, r.hash) {
        HeldOrigin(r, earlier, later);
        ReferencedObjectStaysActive(earlier, later, r);
      }
    } else {
      var later := StrayCanDemote(earlier, r);
    }
  }

  lemma {:induction false} HeldOrigin(r: Ref, earlier: History, later: History)
    requires HeldSince(r, earlier, later)
    ensures Origin(later) == Origin(earlier)
  {
    if earlier != later { HeldOrigin(r, earlier, later.past); }
  }
}
