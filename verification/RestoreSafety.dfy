/** Safety of restores over every run, whatever the number of calls and wherever they were stopped. */
module RestoreSafety {
  import opened Wrappers
  import opened RestoreProtocol
  import opened RestoreInvariant

  /** The base after a run that began with `base`. */
  ghost function BaseOf(base: Option<Tree>, h: History): Option<Tree> {
    if h.Begun? then base else NextBase(BaseOf(base, h.past), h.past.site, h.step)
  }

  lemma {:induction false} HistoryKeepsInv(pkg: Package, base: Option<Tree>, h: History)
    requires Intact(pkg) && Legal(pkg, h) && Inv(pkg, base, Origin(h))
    ensures Inv(pkg, BaseOf(base, h), h.site)
  {
    if h.Then? {
      HistoryKeepsInv(pkg, base, h.past);
      StepKeepsInv(pkg, BaseOf(base, h.past), h.past.site, h.step);
    }
  }

  /** A destination with data and nothing left beside it by another restore. */
  ghost predicate Fresh(s: Site, original: Tree) {
    s == Site(Some(original), None, None, None)
  }

  /** A copy of the old data or of the new data is whole somewhere. */
  ghost predicate NothingLost(pkg: Package, original: Tree, s: Site)
    requires Intact(pkg)
  {
    || s.dest == Some(original) || s.prior == Some(original)
    || s.dest == Some(Data(pkg)) || s.staging == Some(Data(pkg))
  }

  /** Every journal was created over the original tree or over the restored data. */
  ghost predicate FromOriginal(pkg: Package, original: Tree, base: Option<Tree>, s: Site)
    requires Intact(pkg)
  {
    && Inv(pkg, base, s)
    && (s.journal.Some? ==> base == Some(original) || base == Some(Data(pkg)))
    && (s.journal.None? ==> s.dest == Some(original) || s.dest == Some(Data(pkg)))
  }

  lemma {:induction false} HistoryFromOriginal(pkg: Package, original: Tree, h: History)
    requires Intact(pkg) && Legal(pkg, h) && Fresh(Origin(h), original)
    ensures FromOriginal(pkg, original, BaseOf(None, h), h.site)
  {
    if h.Then? {
      HistoryFromOriginal(pkg, original, h.past);
      StepKeepsInv(pkg, BaseOf(None, h.past), h.past.site, h.step);
      if h.past.site.dest.Some? { MatchesExactly(pkg, h.past.site.dest.value); }
    }
  }

  /**
   Over any number of restore calls for one package onto an existing destination, stopped between any
   two durable steps: the old tree or a complete copy of the package data is always whole, and while a
   journal lives the destination is absent, the package data, or files of the tree it replaces.
  */
  lemma EveryCrashPointIsSafe(pkg: Package, original: Tree, h: History)
    requires Intact(pkg) && Legal(pkg, h) && Fresh(Origin(h), original)
    ensures NothingLost(pkg, original, h.site)
    ensures var base := BaseOf(None, h);
      h.site.journal.Some? ==>
        && (base == Some(original) || base == Some(Data(pkg)))
        && (h.site.dest == Some(Data(pkg)) || PartOf(h.site.dest, base))
    ensures h.site.journal.None? ==> h.site.dest == Some(original) || h.site.dest == Some(Data(pkg))
  {
    HistoryFromOriginal(pkg, original, h);
  }

  /** The run has started a rollback whose closing journal write has not happened. */
  ghost predicate RollbackOpen(h: History) {
    && h.Then?
    && (h.step.UnpublishToStaging? ||
        (RollbackOpen(h.past) && !(h.step.WriteJournal? && h.step.progress.phase.Prepared?)))
  }

  lemma StepInterrupted(pkg: Package, base: Option<Tree>, s: Site, step: Step)
    requires Intact(pkg) && Inv(pkg, base, s) && Enabled(pkg, s, step)
    ensures InterruptedRollback(Apply(pkg, s, step)) <==>
      step.UnpublishToStaging? ||
      (InterruptedRollback(s) && !(step.WriteJournal? && step.progress.phase.Prepared?))
  {
  }

  /** The states a retry cannot complete from are exactly those left by a stop inside a rollback. */
  lemma {:induction false} InterruptedExactlyInRollback(pkg: Package, original: Tree, h: History)
    requires Intact(pkg) && Legal(pkg, h) && Fresh(Origin(h), original)
    ensures InterruptedRollback(h.site) <==> RollbackOpen(h)
  {
    if h.Then? {
      InterruptedExactlyInRollback(pkg, original, h.past);
      HistoryKeepsInv(pkg, None, h.past);
      StepInterrupted(pkg, BaseOf(None, h.past), h.past.site, h.step);
    }
  }

  // ------------------------------------------------ when the destination loses files

  ghost predicate IsWhole(pkg: Package, base: Option<Tree>, t: Option<Tree>)
    requires Intact(pkg)
  {
    t.None? || t == base || t == Some(Data(pkg))
  }

  /** At every point of the run the destination was absent, the tree it started from, or the package data. */
  ghost predicate AlwaysWhole(pkg: Package, h: History)
    requires Intact(pkg)
  {
    && (h.site.journal.Some? ==> IsWhole(pkg, BaseOf(None, h), h.site.dest))
    && (h.Then? ==> AlwaysWhole(pkg, h.past))
  }

  /** What a run without such a rollback keeps besides the destination. */
  ghost predicate WholeSoFar(pkg: Package, base: Option<Tree>, s: Site)
    requires Intact(pkg)
  {
    && Inv(pkg, base, s)
    && (s.journal.Some? ==> IsWhole(pkg, base, s.dest))
    && (s.journal.Some? && Rank(s.journal.value.phase) < 4 ==> IsWhole(pkg, base, s.prior))
  }

  lemma StepKeepsWhole(pkg: Package, base: Option<Tree>, s: Site, step: Step)
    requires Intact(pkg) && Enabled(pkg, s, step) && WholeSoFar(pkg, base, s)
    requires step.RestoreOld? ==> IsWhole(pkg, base, s.prior)
    ensures WholeSoFar(pkg, NextBase(base, s, step), Apply(pkg, s, step))
  {
    StepKeepsInv(pkg, base, s, step);
  }

  /** Nothing has been lost at the destination or, unless a rollback was cut short there, beside it. */
  ghost predicate EntersWhole(pkg: Package, base: Option<Tree>, s: Site)
    requires Intact(pkg)
  {
    s.journal.Some? ==> IsWhole(pkg, base, s.dest) && (IsWhole(pkg, base, s.prior) || Undone(s))
  }

  /** A call that finds a rollback half done keeps the destination absent and the old tree set aside. */
  lemma {:induction false} UndoneStays(pkg: Package, original: Tree, mark: History, h: History)
    requires Intact(pkg) && Legal(pkg, h) && Fresh(Origin(h), original) && OneCall(mark, h) && Undone(mark.site)
    ensures Undone(h.site) && WholeSince(pkg, mark, h)
  {
    if h != mark {
      UndoneStays(pkg, original, mark, h.past);
      HistoryKeepsInv(pkg, None, h.past);
    }
  }

  /** At every point of the run from `mark` on the destination was absent, the tree it started from, or the data. */
  ghost predicate WholeSince(pkg: Package, mark: History, h: History)
    requires Intact(pkg)
  {
    && (h.site.journal.Some? ==> IsWhole(pkg, BaseOf(None, h), h.site.dest))
    && (h != mark && h.Then? ==> WholeSince(pkg, mark, h.past))
  }

  lemma {:induction false} CallStaysWhole(pkg: Package, original: Tree, mark: History, h: History)
    requires Intact(pkg) && Legal(pkg, h) && Fresh(Origin(h), original) && OneCall(mark, h)
    requires EntersWhole(pkg, BaseOf(None, mark), mark.site)
    ensures WholeSoFar(pkg, BaseOf(None, h), h.site) && WholeSince(pkg, mark, h)
    ensures MayPutBack(mark, h) && h.site.journal.Some? ==> IsWhole(pkg, BaseOf(None, h), h.site.prior)
  {
    if h == mark || Undone(mark.site) {
      HistoryKeepsInv(pkg, None, h);
      if Undone(mark.site) { UndoneStays(pkg, original, mark, h); }
    } else {
      CallStaysWhole(pkg, original, mark, h.past);
      StepKeepsWhole(pkg, BaseOf(None, h.past), h.past.site, h.step);
    }
  }

  /** `h` one step later, in the call begun at `mark`. */
  function Extend(pkg: Package, mark: History, h: History, step: Step): (h': History)
    requires Legal(pkg, h) && Enabled(pkg, h.site, step)
    requires OneCall(mark, h) && (step.RestoreOld? ==> MayPutBack(mark, h))
    ensures Legal(pkg, h') && Origin(h') == Origin(h) && h'.site == Apply(pkg, h.site, step)
    ensures BaseOf(None, h') == NextBase(BaseOf(None, h), h.site, step)
    ensures OneCall(mark, h') && (RemovalBegun(mark, h') ==> RemovalBegun(mark, h) || step.DeleteOldFile?)
    ensures RollbackOpen(h') <==>
      (step.UnpublishToStaging? || (RollbackOpen(h) && !(step.WriteJournal? && step.progress.phase.Prepared?)))
  {
    Then(h, step, Apply(pkg, h.site, step))
  }

  /** A cancelled call that finds an incomplete old tree beside the published data puts it back. */
  lemma RollBackFrom(pkg: Package, mark: History, start: History) returns (h: History)
    requires Intact(pkg) && Legal(pkg, start) && OneCall(mark, start) && MayPutBack(mark, start)
    requires start.site.journal.Some? && Rank(start.site.journal.value.phase) >= 4
    requires start.site.prior.Some? && start.site.dest.Some? && start.site.staging.None?
    ensures Legal(pkg, h) && OneCall(mark, h) && h.site.journal.Some? && h.site.dest == start.site.prior
    ensures BaseOf(None, h) == BaseOf(None, start)
  {
    hide Legal, OneCall, RemovalBegun, BaseOf, RollbackOpen;
    h := Extend(pkg, mark, start, UnpublishToStaging);
    h := Extend(pkg, mark, h, RestoreOld);
  }

  /** A call that finds an incomplete tree at the destination or beside it can be made to leave it there. */
  lemma CallCanRestoreRemains(pkg: Package, original: Tree, mark: History) returns (h: History)
    requires Intact(pkg) && Legal(pkg, mark) && Fresh(Origin(mark), original)
    requires !EntersWhole(pkg, BaseOf(None, mark), mark.site)
    ensures Legal(pkg, h) && OneCall(mark, h)
    ensures h.site.journal.Some? && !IsWhole(pkg, BaseOf(None, h), h.site.dest)
  {
    HistoryKeepsInv(pkg, None, mark);
    h := mark;
    if IsWhole(pkg, BaseOf(None, mark), h.site.dest) {
      hide Legal, BaseOf, RollbackOpen;
      var j := h.site.journal.value;
      if h.site.dest.None? && Rank(j.phase) < 4 {
        h := Extend(pkg, mark, h, UndoMoveOld);
      } else {
        h := Extend(pkg, mark, h, WriteJournal(j));
        if j.phase.OldMoved? {
          h := Extend(pkg, mark, h, WriteJournal(j.(phase := NewPublished)));
        }
        h := RollBackFrom(pkg, mark, h);
      }
    }
  }

  /**
   Whatever a call does and wherever it is stopped, the destination stays absent, the tree it started from
   or the package data, exactly when the call found the destination whole, and the tree beside it whole too
   unless a rollback had been cut short between withdrawing the new tree and putting the old one back.
  */
  lemma DestinationWholeExactly(pkg: Package, original: Tree, mark: History)
    requires Intact(pkg) && Legal(pkg, mark) && Fresh(Origin(mark), original)
    ensures (forall h | Legal(pkg, h) && OneCall(mark, h) :: WholeSince(pkg, mark, h)) <==>
      EntersWhole(pkg, BaseOf(None, mark), mark.site)
  {
    if EntersWhole(pkg, BaseOf(None, mark), mark.site) {
      forall h | Legal(pkg, h) && OneCall(mark, h) ensures WholeSince(pkg, mark, h) {
        OneCallOrigin(mark, h);
        CallStaysWhole(pkg, original, mark, h);
      }
    } else {
      var h := CallCanRestoreRemains(pkg, original, mark);
      assert !WholeSince(pkg, mark, h);
    }
  }

  lemma {:induction false} OneCallOrigin(mark: History, h: History)
    requires OneCall(mark, h)
    ensures Origin(h) == Origin(mark)
  {
    if h != mark { OneCallOrigin(mark, h.past); }
  }

  lemma {:induction false} WholeJoins(pkg: Package, mark: History, h: History)
    requires Intact(pkg) && OneCall(mark, h) && AlwaysWhole(pkg, mark) && WholeSince(pkg, mark, h)
    ensures AlwaysWhole(pkg, h)
  {
    if h != mark { WholeJoins(pkg, mark, h.past); }
  }

  /** A run of calls, `calls[i]` the run up to the start of call `i`. */
  ghost predicate Calls(calls: seq<History>) {
    |calls| > 0 && calls[0].Begun? && forall i | 0 < i < |calls| :: OneCall(calls[i - 1], calls[i])
  }

  /** Over a run of any number of calls, each entered with both trees whole, the destination is always whole. */
  lemma {:induction false} CallsStayWhole(pkg: Package, original: Tree, calls: seq<History>)
    requires Intact(pkg) && Calls(calls)
    requires forall i | 0 <= i < |calls| :: Legal(pkg, calls[i]) && Fresh(Origin(calls[i]), original)
    requires forall i | 0 <= i < |calls| - 1 :: EntersWhole(pkg, BaseOf(None, calls[i]), calls[i].site)
    ensures AlwaysWhole(pkg, calls[|calls| - 1])
  {
    var last := |calls| - 1;
    if last > 0 {
      CallsStayWhole(pkg, original, calls[..last]);
      CallStaysWhole(pkg, original, calls[last - 1], calls[last]);
      WholeJoins(pkg, calls[last - 1], calls[last]);
    }
  }

  // An uncancelled restore of any intact package over any tree, step by step.

  function ExampleProgress(pkg: Package, phase: Phase): Progress {
    Progress(pkg.sessionId, pkg.manifestSha256, phase, 0, 0, TotalBytes(pkg), true)
  }

  function Start(original: Tree): History {
    Begun(Site(Some(original), None, None, None))
  }

  ghost predicate ExampleAt(pkg: Package, original: Tree, h: History, site: Site) {
    && Legal(pkg, h) && Fresh(Origin(h), original) && BaseOf(None, h) == Some(original) && h.site == site
    && OneCall(Start(original), h) && !RemovalBegun(Start(original), h)
  }

  /** The data of the first `k` entries. */
  function DataTo(pkg: Package, k: nat): Tree
    requires Intact(pkg) && k <= |pkg.entries|
  {
    map p | p in (set i | 0 <= i < k :: pkg.entries[i].path) :: pkg.files[p]
  }

  lemma DataToNext(pkg: Package, k: nat)
    requires Intact(pkg) && k < |pkg.entries|
    ensures
      var path := pkg.entries[k].path;
      && path !in DataTo(pkg, k) && TempOf(path) !in DataTo(pkg, k)
      && (DataTo(pkg, k)[TempOf(path) := pkg.files[path]] - {TempOf(path)})[path := pkg.files[path]] ==
           DataTo(pkg, k + 1)
  {
  }

  /** Up to the copy of the first `k` entries. */
  lemma {:induction false} ExampleCopied(pkg: Package, original: Tree, k: nat) returns (h: History)
    requires Intact(pkg) && k <= |pkg.entries|
    ensures ExampleAt(pkg, original, h,
      Site(Some(original), Some(DataTo(pkg, k)), None, Some(ExampleProgress(pkg, Prepared))))
  {
    if k == 0 {
      h := Extend(pkg, Start(original), Start(original), CreateStaging);
      h := Extend(pkg, Start(original), h, WriteJournal(ExampleProgress(pkg, Prepared)));
    } else {
      hide ExampleAt, DataTo;
      var before := ExampleCopied(pkg, original, k - 1);
      DataToNext(pkg, k - 1);
      h := ExampleCopyOne(pkg, original, before, k - 1, DataTo(pkg, k - 1));
    }
  }

  lemma ExampleCopyOne(pkg: Package, original: Tree, before: History, i: nat, t: Tree) returns (h: History)
    requires Intact(pkg) && i < |pkg.entries| && pkg.entries[i].path !in t
    requires ExampleAt(pkg, original, before, Site(Some(original), Some(t), None, Some(ExampleProgress(pkg, Prepared))))
    ensures
      var path, temporary := pkg.entries[i].path, TempOf(pkg.entries[i].path);
      && path in pkg.files
      && var after := (t[temporary := pkg.files[path]] - {temporary})[path := pkg.files[path]];
      ExampleAt(pkg, original, h, Site(Some(original), Some(after), None, Some(ExampleProgress(pkg, Prepared))))
  {
    var e := pkg.entries[i];
    assert Holds(pkg.files, e);
    hide Intact, Legal, TempOf, OneCall, RemovalBegun, BaseOf, RollbackOpen;
    h := Extend(pkg, Start(original), before, WriteTemporary(i, pkg.files[e.path]));
    h := Extend(pkg, Start(original), h, PublishTemporary(i));
  }

  /** Up to the verified staging tree. */
  lemma ExampleVerified(pkg: Package, original: Tree) returns (h: History)
    requires Intact(pkg)
    ensures ExampleAt(pkg, original, h,
      Site(Some(original), Some(Data(pkg)), None, Some(ExampleProgress(pkg, Verified))))
  {
    h := ExampleCopied(pkg, original, |pkg.entries|);
    assert DataTo(pkg, |pkg.entries|) == Data(pkg);
    MatchesExactly(pkg, Data(pkg));
    hide DataTo, Data, Intact, Legal, OneCall, RemovalBegun, BaseOf, RollbackOpen;
    h := Extend(pkg, Start(original), h, WriteJournal(ExampleProgress(pkg, Copied)));
    h := Extend(pkg, Start(original), h, WriteJournal(ExampleProgress(pkg, Verified)));
  }

  /** The example published, with the old files still beside it. */
  lemma ExamplePublished(pkg: Package, original: Tree) returns (h: History)
    requires Intact(pkg)
    ensures ExampleAt(pkg, original, h,
      Site(Some(Data(pkg)), None, Some(original), Some(ExampleProgress(pkg, NewPublished))))
  {
    h := ExampleVerified(pkg, original);
    hide Data, Intact, Legal, OneCall, RemovalBegun, BaseOf, RollbackOpen;
    h := Extend(pkg, Start(original), h, MoveOld);
    h := Extend(pkg, Start(original), h, WriteJournal(ExampleProgress(pkg, OldMoved)));
    h := Extend(pkg, Start(original), h, PublishStaging);
    h := Extend(pkg, Start(original), h, WriteJournal(ExampleProgress(pkg, NewPublished)));
  }

  /** Stopped after deleting one file of the old tree; the destination was whole all along. */
  lemma ExampleStopped(pkg: Package, original: Tree, lost: Path) returns (h: History)
    requires Intact(pkg) && lost in original
    ensures Legal(pkg, h) && Fresh(Origin(h), original) && BaseOf(None, h) == Some(original) && AlwaysWhole(pkg, h)
    ensures
      h.site == Site(Some(Data(pkg)), None, Some(original - {lost}), Some(ExampleProgress(pkg, NewPublished)))
  {
    h := ExamplePublished(pkg, original);
    MatchesExactly(pkg, Data(pkg));
    hide Data, Intact, Legal, OneCall, RemovalBegun, BaseOf, RollbackOpen;
    h := Extend(pkg, Start(original), h, DeleteOldFile(lost));
    CallStaysWhole(pkg, original, Start(original), h);
    WholeJoins(pkg, Start(original), h);
  }

  /** A run whose every state was whole, and whose next call finds an incomplete old tree. */
  ghost predicate StopsInRemoval(pkg: Package, original: Tree, h: History)
    requires Intact(pkg)
  {
    && Legal(pkg, h) && Fresh(Origin(h), original)
    && AlwaysWhole(pkg, h) && !EntersWhole(pkg, BaseOf(None, h), h.site)
  }

  /** The run ends with the closing journal write of a rollback, and no retry completes from the state before it. */
  ghost predicate ClosesRollback(h: History) {
    && h.Then? && h.step.WriteJournal? && !InterruptedRollback(h.site)
    && InterruptedRollback(h.past.site) && RollbackOpen(h.past)
  }

  /**
   For every package and every file of every old tree that case exists. `stopped` is left by a stop after
   that file alone was deleted; `h` is the next call, cancelled and run to its end. A stop before the last
   journal write of `h` leaves a state no retry completes from.
  */
  lemma RollbackCanRestoreRemains(pkg: Package, original: Tree, lost: Path) returns (stopped: History, h: History)
    requires Intact(pkg) && lost in original && original - {lost} != Data(pkg)
    ensures StopsInRemoval(pkg, original, stopped)
    ensures Legal(pkg, h) && OneCall(stopped, h) && ClosesRollback(h) && !WholeSince(pkg, stopped, h)
    ensures h.site.dest == Some(original - {lost}) && h.site.prior.None?
  {
    stopped := ExampleStopped(pkg, original, lost);
    hide Data, Intact, Legal, OneCall, RemovalBegun, BaseOf, RollbackOpen, AlwaysWhole;
    var open := Extend(pkg, stopped, stopped, WriteJournal(ExampleProgress(pkg, NewPublished)));
    open := Extend(pkg, stopped, open, UnpublishToStaging);
    open := Extend(pkg, stopped, open, RestoreOld);
    assert lost !in open.site.dest.value;
    h := Extend(pkg, stopped, open, WriteJournal(ExampleProgress(pkg, Prepared)));
    assert h == Then(open, WriteJournal(ExampleProgress(pkg, Prepared)), h.site);
  }
}
