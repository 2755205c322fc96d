/**
Quarantine moves and purges: stopped anywhere and resumed any number of times, each can only run along
one path of states, and that path ends where the uninterrupted operation ends.
*/
module AssetQuarantine {
  import opened AssetModel
  import opened AssetInvariant

  datatype MovePlan = MovePlan(name: Name, source: Slot, reason: string, now: int)

  /** A quarantine move may start: no intent is pending and the name is unused. */
  predicate MoveStarts(w: World, p: MovePlan) {
    && w.catalog.intents == map[] && p.name !in w.catalog.quarantine && p.name !in w.disk.quarantine
    && Quarantinable(w, p.source)
  }

  function MoveStart(p: MovePlan): Event {
    OfStart(PrepareMove(p.name, p.source, p.reason, p.now))
  }

  function MoveRow(p: MovePlan): QuarantineRow {
    QuarantineRow(OriginalHash(p.source), p.reason, p.now)
  }

  /** The whole effect of a quarantine move: the file changes directory and the catalog says so. */
  function MoveOutcome(w: World, p: MovePlan): World
    requires p.source in w.disk.objects
  {
    var row := MoveRow(p);
    w.(catalog := w.catalog.(
         quarantine := w.catalog.quarantine[p.name := row],
         objects := if row.original.Some? then SetState(w.catalog.objects, row.original.value, Quarantined(p.name))
                    else w.catalog.objects),
       disk := w.disk.(
         objects := w.disk.objects - {p.source},
         quarantine := w.disk.quarantine[p.name := w.disk.objects[p.source]]))
  }

  /** The states of a move begun in `w`: intent recorded, linked, unlinked, recorded as moved, finished. */
  function MoveAt(w: World, p: MovePlan, k: nat): World
    requires p.source in w.disk.objects
  {
    var prepared := Intent(Move(p.source), Prepared, MoveRow(p));
    if k >= 4 then MoveOutcome(w, p)
    else
      w.(catalog := w.catalog.(intents := map[p.name := if k == 3 then prepared.(phase := Moved) else prepared]),
         disk := w.disk.(
           objects := if k >= 2 then w.disk.objects - {p.source} else w.disk.objects,
           quarantine := if k >= 1 then w.disk.quarantine[p.name := w.disk.objects[p.source]] else w.disk.quarantine))
  }

  function MoveStep(p: MovePlan, k: nat): IntentStep {
    if k == 0 then LinkQuarantine(p.name)
    else if k == 1 then UnlinkSource(p.name)
    else if k == 2 then RecordMoved(p.name)
    else FinalizeMove(p.name)
  }

  lemma MoveBegins(w: World, p: MovePlan)
    ensures MoveStarts(w, p) <==> Enabled(w, MoveStart(p))
    ensures MoveStarts(w, p) ==> Apply(w, MoveStart(p)) == MoveAt(w, p, 0)
  {
  }

  lemma MoveAdvances(w: World, p: MovePlan, k: nat)
    requires MoveStarts(w, p) && k < 4
    ensures Enabled(MoveAt(w, p, k), OfIntent(MoveStep(p, k)))
    ensures Apply(MoveAt(w, p, k), OfIntent(MoveStep(p, k))) == MoveAt(w, p, k + 1)
  {
  }

  lemma MovePending(w: World, p: MovePlan, k: nat)
    requires MoveStarts(w, p)
    ensures MoveAt(w, p, k).catalog.intents == map[] <==> k >= 4
    ensures k >= 4 ==> MoveAt(w, p, k) == MoveOutcome(w, p)
  {
    if k < 4 { assert p.name in MoveAt(w, p, k).catalog.intents; }
  }

  /** Nothing but the next step of the move can happen. */
  lemma MoveForced(w: World, p: MovePlan, k: nat, e: Event)
    requires MoveStarts(w, p) && k < 4 && Enabled(MoveAt(w, p, k), e)
    ensures e == OfIntent(MoveStep(p, k))
  {
    assert p.name in MoveAt(w, p, k).catalog.intents;
  }

  /** Purging a quarantined file: its row and file go, and a row that pointed at it becomes missing. */
  function PurgeOutcome(w: World, name: Name): World {
    w.(catalog := PurgeFinalized(w.catalog, name).(intents := w.catalog.intents),
       disk := w.disk.(quarantine := w.disk.quarantine - {name}))
  }

  predicate PurgeStarts(w: World, name: Name) {
    w.catalog.intents == map[] && name in w.catalog.quarantine && name in w.disk.quarantine
  }

  function PurgeAt(w: World, name: Name, k: nat): World
    requires name in w.catalog.quarantine
  {
    var prepared := Intent(Purge, Prepared, w.catalog.quarantine[name]);
    if k >= 3 then PurgeOutcome(w, name)
    else
      w.(catalog := w.catalog.(intents := map[name := if k == 2 then prepared.(phase := Moved) else prepared]),
         disk := w.disk.(quarantine := if k >= 1 then w.disk.quarantine - {name} else w.disk.quarantine))
  }

  function PurgeStep(name: Name, k: nat): IntentStep {
    if k == 0 then UnlinkQuarantined(name) else if k == 1 then RecordMoved(name) else FinalizePurge(name)
  }

  lemma PurgeAdvances(w: World, name: Name, k: nat)
    requires PurgeStarts(w, name) && k < 3
    ensures Enabled(PurgeAt(w, name, k), OfIntent(PurgeStep(name, k)))
    ensures Apply(PurgeAt(w, name, k), OfIntent(PurgeStep(name, k))) == PurgeAt(w, name, k + 1)
  {
  }

  lemma PurgeForced(w: World, name: Name, k: nat, e: Event)
    requires PurgeStarts(w, name) && k < 3 && Enabled(PurgeAt(w, name, k), e)
    ensures e == OfIntent(PurgeStep(name, k))
  {
    assert name in PurgeAt(w, name, k).catalog.intents;
  }

  /** Only steps of pending intents happen from `earlier` to `later`. */
  ghost predicate OnlyIntents(earlier: History, later: History) {
    earlier == later || (later.Then? && later.event.OfIntent? && OnlyIntents(earlier, later.past))
  }

  lemma {:induction false} OnlyIntentsOn(a: History, b: History, c: History)
    requires OnlyIntents(a, b) && OnlyIntents(b, c)
    ensures OnlyIntents(a, c)
  {
    if b != c { OnlyIntentsOn(a, b, c.past); }
  }

  /** From any point of the path the rest of the move is a legal continuation. */
  lemma MoveRuns(h: History, w: World, p: MovePlan, k: nat) returns (later: History)
    requires Legal(h) && MoveStarts(w, p) && k <= 4 && h.world == MoveAt(w, p, k)
    ensures Legal(later) && OnlyIntents(h, later) && later.world == MoveOutcome(w, p)
    decreases 4 - k
  {
    MovePending(w, p, k);
    later := h;
    if k < 4 {
      MoveAdvances(w, p, k);
      var next := Then(h, OfIntent(MoveStep(p, k)), MoveAt(w, p, k + 1));
      later := MoveRuns(next, w, p, k + 1);
      OnlyIntentsOn(h, next, later);
    }
  }

  // ------------------------------------------------ every crash point of every run

  /** The quarantine operation a run has left unfinished: where it started and how far it came. */
  datatype Pending = Settled | Moving(w: World, plan: MovePlan, k: nat) | Purging(w: World, name: Name, k: nat)

  ghost function PendingOf(h: History): Pending {
    if h.Begun? then Settled
    else match h.event
      case OfStart(PrepareMove(name, source, reason, now)) =>
        Moving(h.past.world, MovePlan(name, source, reason, now), 0)
      case OfStart(PreparePurge(name)) => Purging(h.past.world, name, 0)
      case OfIntent(_) =>
        (match PendingOf(h.past)
         case Settled => Settled
         case Moving(w, p, k) => if k >= 3 then Settled else Moving(w, p, k + 1)
         case Purging(w, name, k) => if k >= 2 then Settled else Purging(w, name, k + 1))
      case _ => Settled
  }

  /** `w` is the state that operation has reached. */
  ghost predicate Reached(start: Pending, w: World) {
    match start
    case Settled => w.catalog.intents == map[]
    case Moving(w0, p, k) => k < 4 && MoveStarts(w0, p) && w == MoveAt(w0, p, k)
    case Purging(w0, name, k) => k < 3 && PurgeStarts(w0, name) && w == PurgeAt(w0, name, k)
  }

  /** Where the operation ends when nothing stops it. */
  ghost function Finished(start: Pending, w: World): World
    requires Reached(start, w)
  {
    match start
    case Settled => w
    case Moving(w0, p, _) => MoveOutcome(w0, p)
    case Purging(w0, name, _) => PurgeOutcome(w0, name)
  }

  lemma PurgePending(w: World, name: Name, k: nat)
    requires PurgeStarts(w, name)
    ensures PurgeAt(w, name, k).catalog.intents == map[] <==> k >= 3
  {
    if k < 3 { assert name in PurgeAt(w, name, k).catalog.intents; }
  }

  lemma IntentReached(h: History, e: IntentStep)
    requires IntentEnabled(h.world, e) && Reached(PendingOf(h), h.world)
    ensures var h' := Then(h, OfIntent(e), IntentApply(h.world, e));
      Reached(PendingOf(h'), h'.world) && Finished(PendingOf(h'), h'.world) == Finished(PendingOf(h), h.world)
  {
    match PendingOf(h)
    case Settled =>
    case Moving(w, p, k) =>
      MoveForced(w, p, k, OfIntent(e));
      MoveAdvances(w, p, k);
      MovePending(w, p, k + 1);
    case Purging(w, name, k) =>
      PurgeForced(w, name, k, OfIntent(e));
      PurgeAdvances(w, name, k);
      PurgePending(w, name, k + 1);
  }

  lemma StartReached(h: History, e: StartStep)
    requires h.world.catalog.intents == map[] && StartEnabled(h.world, e) && Corresponds(h.world)
    ensures Reached(PendingOf(Then(h, OfStart(e), StartApply(h.world, e))), StartApply(h.world, e))
  {
  }

  /** Whatever state a run is stopped in, it is on the path of the operation it left unfinished. */
  lemma {:induction false} EveryStopIsOnPath(h: History)
    requires Legal(h) && TablesOk(Origin(h)) && Origin(h).catalog.intents == map[]
    ensures Reached(PendingOf(h), h.world)
  {
    if h.Then? {
      EveryStopIsOnPath(h.past);
      HistoryKeepsTables(h.past);
      if h.event.OfIntent? {
        IntentReached(h.past, h.event.intent);
      } else if h.event.OfStart? {
        StartReached(h.past, h.event.start);
      } else {
        PlainKeepsIdle(h.past.world, h.event);
      }
    }
  }

  /**
   Reopening carries out the pending intent and nothing else. However often that is itself stopped, the
   outcome in store never changes, and once no intent is left the catalog and the files are in the state
   the uninterrupted move or purge would have left.
  */
  lemma {:induction false} RecoveryEndsAtOutcome(earlier: History, later: History)
    requires Legal(later) && OnlyIntents(earlier, later) && Reached(PendingOf(earlier), earlier.world)
    ensures Reached(PendingOf(later), later.world)
    ensures Finished(PendingOf(later), later.world) == Finished(PendingOf(earlier), earlier.world)
    ensures later.world.catalog.intents == map[] ==> later.world == Finished(PendingOf(earlier), earlier.world)
  {
    if earlier != later {
      RecoveryEndsAtOutcome(earlier, later.past);
      IntentReached(later.past, later.event.intent);
    }
    match PendingOf(later)
    case Settled =>
    case Moving(w, p, k) => MovePending(w, p, k);
    case Purging(w, name, k) => PurgePending(w, name, k);
  }

  /** With no intent pending, quarantine rows and quarantined files correspond one to one. */
  lemma RowsMatchFiles(h: History)
    requires Legal(h) && TablesOk(Origin(h)) && h.world.catalog.intents == map[]
    ensures h.world.catalog.quarantine.Keys == h.world.disk.quarantine.Keys
    ensures NamesRows(h.world.catalog)
  {
    HistoryKeepsTables(h);
  }

  lemma StartsPlain(w: World, p: MovePlan)
    requires MoveStarts(w, p)
    ensures StartEnabled(w, PrepareMove(p.name, p.source, p.reason, p.now))
  {
  }

  lemma OutcomeOfMove(h: History, w: World, p: MovePlan)
    requires PendingOf(h) == Moving(w, p, 0) && Reached(PendingOf(h), h.world)
    ensures Finished(PendingOf(h), h.world) == MoveOutcome(w, p)
  {
  }

  lemma OutcomeOfPurge(h: History, w: World, name: Name)
    requires PendingOf(h) == Purging(w, name, 0) && Reached(PendingOf(h), h.world)
    ensures Finished(PendingOf(h), h.world) == PurgeOutcome(w, name)
  {
  }
}
