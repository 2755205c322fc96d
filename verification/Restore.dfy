/**
`restore_backup` as it runs: a site is changed only by the steps of `RestoreProtocol`, and every state
it passes through is kept in `history`, so a crash point of a call is any state of its history.
*/
module Restore {
  import opened Wrappers
  import opened Digests
  import opened RestoreProtocol
  import opened RestoreInvariant

  datatype Policy = FailIfPresent | Replace

  datatype Fault =
    | JournalConflict
    | InvalidManifest
    | ExistingData
    | InsufficientSpace
    | FreeSpaceUnknown
    | Cancelled
    | EntryMismatch
    | Missing
    | RollbackFailed

  datatype Report = Report(restoredBytes: nat, replacedExisting: bool, resumed: bool)

  /** `enforce_restore_space`: unknown space passes only under the policy that says so. */
  function SpaceFault(required: nat, available: Option<nat>, unknownAllowed: bool): Option<Fault> {
    match available
    case Some(a) => if a >= required then None else Some(InsufficientSpace)
    case None => if unknownAllowed then None else Some(FreeSpaceUnknown)
  }

  /** Enough space for the whole package, or unknown space with leave to go on. */
  predicate SpaceSuffices(pkg: Package, available: Option<nat>, unknownAllowed: bool) {
    SpaceFault(TotalBytes(pkg) + SPACE_RESERVE_BYTES, available, unknownAllowed).None?
  }

  /** `Complete` is journalled only after the old tree is gone. */
  predicate Plausible(s: Site) {
    s.journal.Some? && s.journal.value.phase.Complete? ==> s.prior.None?
  }

  lemma {:induction false} PrefixSums(entries: seq<Entry>, k: nat)
    requires k <= |entries|
    ensures SizeSum(entries[..k]) <= SizeSum(entries)
    ensures ObjectCount(entries[..k]) <= ObjectCount(entries)
  {
    if k < |entries| {
      var front := entries[..|entries| - 1];
      PrefixSums(front, k);
      assert front[..k] == entries[..k];
    } else {
      assert entries[..k] == entries;
    }
  }

  lemma KeepsWithoutBad(pkg: Package, t: Tree, i: nat)
    requires ManifestAccepted(pkg) && i < |pkg.entries| && !Holds(t, pkg.entries[i])
    ensures forall k | 0 <= k < |pkg.entries| && Holds(t, pkg.entries[k]) ::
      Holds(t - {pkg.entries[i].path}, pkg.entries[k])
  {
  }

  class RestoreSite {
    const pkg: Package
    var site: Site
    ghost var base: Option<Tree>
    ghost var history: History
    ghost var mark: History

    constructor (pkg: Package, site: Site, ghost base: Option<Tree>)
      ensures this.pkg == pkg && this.site == site && this.base == base && Valid()
      ensures history == Begun(site)
    {
      this.pkg, this.site, this.base := pkg, site, base;
      history, mark := Begun(site), Begun(site);
    }

    /** The site was reached by durable steps only, the latest call adding those after `mark`. */
    ghost predicate Valid()
      reads this
    {
      Legal(pkg, history) && history.site == site && OneCall(mark, history)
    }

    /** The latest call has begun to delete the replaced tree. */
    ghost predicate Removing()
      reads this
    {
      RemovalBegun(mark, history)
    }

    /** Left by earlier calls for this package, if by any. */
    ghost predicate Sound()
      reads this
    {
      Intact(pkg) && Inv(pkg, base, site)
    }

    /** One durable step. */
    method Do(step: Step)
      requires Valid() && Enabled(pkg, site, step)
      requires step.RestoreOld? ==> !Removing() && !Undone(mark.site)
      modifies this
      ensures Valid() && site == Apply(pkg, old(site), step)
      ensures history == Then(old(history), step, site) && mark == old(mark)
      ensures Removing() ==> old(Removing()) || step.DeleteOldFile?
      ensures base == NextBase(old(base), old(site), step)
      ensures old(Sound()) ==> Sound()
    {
      if Intact(pkg) && Inv(pkg, base, site) {
        StepKeepsInv(pkg, base, site, step);
      }
      base := NextBase(base, site, step);
      site := Apply(pkg, site, step);
      history := Then(history, step, site);
    }

    /** Reads the journal and undoes a half-made exchange of the trees. */
    method Resume() returns (r: Result<Option<Progress>, Fault>)
      requires Valid()
      modifies this
      ensures Valid() && mark == old(mark) && base == old(base)
      ensures Removing() ==> old(Removing())
      ensures old(Sound()) ==> Sound()
      ensures old(Plausible(site)) ==> Plausible(site)
      ensures old(site).journal.None? <==> site.journal.None?
      ensures r.Success? ==>
        && r.value == site.journal
        && (site.journal.None? ==> site.staging.None? && site.prior.None? && site.dest == old(site).dest)
        && (site.journal.Some? ==> ProgressOk(site.journal.value))
        && (site.prior.Some? ==> site.dest.Some?)
      ensures
        r.Success? && old(Sound()) && site.journal.Some? && site.journal.value.phase.OldMoved? && site.staging.Some?
        ==> site.dest.None?
      ensures r.Success? ==> !Undone(old(site))
      ensures r.Failure? ==> site == old(site) && r.error.JournalConflict?
      ensures old(Sound()) && !InterruptedRollback(old(site)) ==> r.Success? && !InterruptedRollback(site)
      ensures old(Sound()) && InterruptedRollback(old(site)) && r.Success? ==> site == old(site)
    {
      hide Legal, OneCall, RemovalBegun;
      if site.journal.None? {
        if site.staging.Some? {
          if site.prior.Some? || site.staging.value != map[] {
            return Failure(JournalConflict);
          }
          Do(RemoveEmptyStaging);
        }
        if site.prior.Some? {
          return Failure(JournalConflict);
        }
        return Success(None);
      }
      var j := site.journal.value;
      if !ProgressOk(j) {
        return Failure(JournalConflict);
      }
      if site.prior.Some? && site.dest.None? {
        if site.staging.None? || !(j.phase.Verified? || j.phase.OldMoved?) {
          return Failure(JournalConflict);
        }
        Do(UndoMoveOld);
        j := j.(phase := Verified, replacedExisting := true);
        Do(WriteJournal(j));
      } else if j.phase.OldMoved? && j.replacedExisting && site.dest.Some? && site.staging.Some? && site.prior.None? {
        j := j.(phase := Verified);
        Do(WriteJournal(j));
      }
      return Success(Some(j));
    }

    /** Checks the request against the journal and the free space, and journals the start. */
    method Begin(saved: Option<Progress>, policy: Policy, available: Option<nat>, unknownAllowed: bool)
      returns (r: Result<Progress, Fault>)
      requires Valid() && ManifestAccepted(pkg) && saved == site.journal
      requires saved.None? ==> site.staging.None? && site.prior.None?
      requires saved.Some? ==> ProgressOk(saved.value)
      modifies this
      ensures Valid() && mark == old(mark)
      ensures Removing() ==> old(Removing())
      ensures old(Sound()) ==> Sound()
      ensures r.Failure? ==> site == old(site) && base == old(base)
      ensures r.Success? ==>
        && site.journal == Some(r.value) && BelongsTo(pkg, r.value) && r.value.requiredBytes == TotalBytes(pkg)
        && ProgressOk(r.value) && site.dest == old(site).dest && site.prior == old(site).prior
        && (saved.Some? ==> base == old(base) && site.staging == old(site).staging
                            && r.value == saved.value.(requiredBytes := TotalBytes(pkg)))
        && (saved.None? ==> base == site.dest && site.staging == Some(map[]) && r.value.phase.Prepared?
                            && r.value.replacedExisting == site.dest.Some?)
      ensures old(Sound()) && policy.Replace? && SpaceSuffices(pkg, available, unknownAllowed) ==> r.Success?
    {
      hide Legal, OneCall, RemovalBegun;
      var progress: Progress;
      if saved.Some? {
        if !BelongsTo(pkg, saved.value) || saved.value.verifiedBytes > TotalBytes(pkg) {
          return Failure(JournalConflict);
        }
        progress := saved.value;
      } else {
        if site.dest.Some? && policy.FailIfPresent? {
          return Failure(ExistingData);
        }
        progress := Progress(pkg.sessionId, pkg.manifestSha256, Prepared, 0, 0, TotalBytes(pkg), site.dest.Some?);
      }
      progress := progress.(requiredBytes := TotalBytes(pkg));
      var remaining := if progress.phase.Prepared? then TotalBytes(pkg) - progress.verifiedBytes else 0;
      var fault := SpaceFault(remaining + SPACE_RESERVE_BYTES, available, unknownAllowed);
      if fault.Some? {
        return Failure(fault.value);
      }
      if saved.None? {
        Do(CreateStaging);
      }
      Do(WriteJournal(progress));
      return Success(progress);
    }

    /** The source, chunk by chunk, into the entry's temporary; `false` when cancelled in between. */
    method CopyChunks(i: nat, source: Content, mayCancel: bool) returns (done: bool)
      requires Valid() && Filling(pkg, site, i) && pkg.entries[i].path !in site.staging.value
      requires TempOf(pkg.entries[i].path) != pkg.entries[i].path
      modifies this
      ensures Valid() && mark == old(mark) && base == old(base)
      ensures Removing() ==> old(Removing())
      ensures old(Sound()) ==> Sound()
      ensures site.staging.Some? && site == old(site).(staging := site.staging)
      ensures var temporary, before, after := TempOf(pkg.entries[i].path), old(site).staging.value, site.staging.value;
        && temporary in after && after == before[temporary := after[temporary]]
        && (done ==> after[temporary] == source)
      ensures !done ==> mayCancel
    {
      hide Inv, Legal, OneCall, RemovalBegun, Intact, TempOf;
      var e := pkg.entries[i];
      ghost var before := site.staging.value;
      Do(WriteTemporary(i, []));
      var written := 0;
      while written < |source|
        invariant written <= |source|
        invariant Valid() && mark == old(mark) && base == old(base)
        invariant Removing() ==> old(Removing())
        invariant old(Sound()) ==> Sound()
        invariant site == old(site).(staging := Some(before[TempOf(e.path) := source[..written]]))
      {
        if mayCancel {
          if * { return false; }
        }
        written := if |source| - written <= COPY_BUFFER_BYTES then |source| else written + COPY_BUFFER_BYTES;
        Do(WriteTemporary(i, source[..written]));
        assert site.staging.value == before[TempOf(e.path) := source[..written]];
      }
      assert source[..written] == source;
      return true;
    }

    /** `copy_verified`: chunk by chunk to a temporary, then renamed once its hash is right. */
    method CopyVerified(i: nat, mayCancel: bool) returns (r: Result<(), Fault>)
      requires Valid() && ManifestAccepted(pkg) && Filling(pkg, site, i)
      requires pkg.entries[i].path !in site.staging.value
      modifies this
      ensures Valid() && mark == old(mark) && base == old(base)
      ensures Removing() ==> old(Removing())
      ensures old(Sound()) ==> Sound()
      ensures site.staging.Some? && site == old(site).(staging := site.staging)
      ensures forall k | 0 <= k < |pkg.entries| && Holds(old(site).staging.value, pkg.entries[k]) ::
                Holds(site.staging.value, pkg.entries[k])
      ensures r.Success? ==> Holds(site.staging.value, pkg.entries[i])
      ensures r.Failure? ==> mayCancel || !Holds(pkg.files, pkg.entries[i])
    {
      hide Inv, Legal, OneCall, RemovalBegun, Intact;
      var e := pkg.entries[i];
      TempIsNoPath(pkg, e.path);
      if TempOf(e.path) in site.staging.value {
        Do(RemoveTemporary(i));
      }
      if e.path !in pkg.files {
        return Failure(Missing);
      }
      var source := pkg.files[e.path];
      var copied := CopyChunks(i, source, mayCancel);
      if !copied { return Failure(Cancelled); }
      if !Good(e, source) {
        Do(RemoveTemporary(i));
        return Failure(EntryMismatch);
      }
      Do(PublishTemporary(i));
      return Success(());
    }

    /** Makes the target of one entry right, keeping it if it already is. */
    method CopyEntry(i: nat, mayCancel: bool) returns (r: Result<(), Fault>)
      requires Valid() && ManifestAccepted(pkg) && Filling(pkg, site, i)
      modifies this
      ensures Valid() && mark == old(mark) && base == old(base)
      ensures Removing() ==> old(Removing())
      ensures old(Sound()) ==> Sound()
      ensures site.staging.Some? && site == old(site).(staging := site.staging)
      ensures r.Success? ==> Holds(site.staging.value, pkg.entries[i])
      ensures r.Success? ==> forall k | 0 <= k < |pkg.entries| && Holds(old(site).staging.value, pkg.entries[k]) ::
                Holds(site.staging.value, pkg.entries[k])
      ensures r.Failure? ==> mayCancel || !Holds(pkg.files, pkg.entries[i])
    {
      var e := pkg.entries[i];
      if mayCancel {
        if * { return Failure(Cancelled); }
      }
      if Holds(site.staging.value, e) {
        return Success(());
      }
      if e.path in site.staging.value {
        KeepsWithoutBad(pkg, site.staging.value, i);
        Do(RemoveTarget(i));
      }
      r := CopyVerified(i, mayCancel);
    }

    /** The counters after the first `i` entries. */
    ghost function Counted(start: Progress, i: nat): Progress
      requires i <= |pkg.entries|
    {
      start.(verifiedObjects := ObjectCount(pkg.entries[..i]), verifiedBytes := SizeSum(pkg.entries[..i]))
    }

    lemma CountedNext(start: Progress, i: nat)
      requires i < |pkg.entries| && ManifestAccepted(pkg) && start.requiredBytes == TotalBytes(pkg)
      ensures ProgressOk(Counted(start, i)) && ProgressOk(Counted(start, i + 1))
      ensures Counted(start, i + 1) == Counted(start, i).(
          verifiedBytes := Counted(start, i).verifiedBytes + pkg.entries[i].size,
          verifiedObjects := Counted(start, i).verifiedObjects + (if pkg.entries[i].isObject then 1 else 0))
    {
      assert pkg.entries[..i + 1][..i] == pkg.entries[..i];
      PrefixSums(pkg.entries, i + 1);
      PrefixSums(pkg.entries, i);
    }

    /** One entry, and the journal after it. */
    method CopyAndCount(ghost start: Progress, i: nat, progress: Progress, mayCancel: bool)
      returns (r: Result<Progress, Fault>)
      requires Valid() && ManifestAccepted(pkg) && Filling(pkg, site, i)
      requires BelongsTo(pkg, start) && start.phase.Prepared? && start.requiredBytes == TotalBytes(pkg)
      requires progress == Counted(start, i) && (site.journal == Some(start) || site.journal == Some(progress))
      modifies this
      ensures Valid() && mark == old(mark) && base == old(base)
      ensures Removing() ==> old(Removing())
      ensures old(Sound()) ==> Sound()
      ensures r.Success? ==>
        && r.value == Counted(start, i + 1) && ProgressOk(r.value)
        && site.staging.Some? && site == old(site).(staging := site.staging, journal := Some(r.value))
        && Holds(site.staging.value, pkg.entries[i])
        && forall k | 0 <= k < |pkg.entries| && Holds(old(site).staging.value, pkg.entries[k]) ::
             Holds(site.staging.value, pkg.entries[k])
      ensures r.Failure? ==> mayCancel || !Holds(pkg.files, pkg.entries[i])
    {
      hide Inv, Intact, Legal, OneCall, RemovalBegun;
      var copied := CopyEntry(i, mayCancel);
      if copied.Failure? {
        return Failure(copied.error);
      }
      CountedNext(start, i);
      var next := progress.(
        verifiedBytes := progress.verifiedBytes + pkg.entries[i].size,
        verifiedObjects := progress.verifiedObjects + (if pkg.entries[i].isObject then 1 else 0));
      Do(WriteJournal(next));
      return Success(next);
    }

    /** `copy_data_entries`: every data entry in manifest order, journalled after each. */
    method CopyDataEntries(start: Progress, mayCancel: bool) returns (r: Result<Progress, Fault>)
      requires Valid() && ManifestAccepted(pkg) && site.journal == Some(start) && start.phase.Prepared?
      requires BelongsTo(pkg, start) && start.requiredBytes == TotalBytes(pkg)
      modifies this
      ensures Valid() && mark == old(mark) && base == old(base)
      ensures Removing() ==> old(Removing())
      ensures old(Sound()) ==> Sound()
      ensures r.Success? ==>
        && site == old(site).(staging := site.staging, journal := site.journal)
        && site.staging.Some? && AllCopied(pkg, site.staging.value)
        && r.value == Counted(start, |pkg.entries|) && ProgressOk(r.value)
        && (site.journal == Some(start) || site.journal == Some(r.value))
      ensures r.Failure? ==> mayCancel || !AllCopied(pkg, pkg.files) || old(site).staging.None?
    {
      hide Inv, Intact, Legal, OneCall, RemovalBegun;
      if site.staging.None? {
        return Failure(Missing);
      }
      var progress := start.(verifiedObjects := 0, verifiedBytes := 0);
      var i := 0;
      while i < |pkg.entries|
        invariant i <= |pkg.entries|
        invariant Valid() && mark == old(mark) && base == old(base)
        invariant Removing() ==> old(Removing())
        invariant old(Sound()) ==> Sound()
        invariant site.staging.Some? && site == old(site).(staging := site.staging, journal := site.journal)
        invariant progress == Counted(start, i) && (site.journal == Some(start) || site.journal == Some(progress))
        invariant forall k | 0 <= k < i :: Holds(site.staging.value, pkg.entries[k])
      {
        r := CopyAndCount(start, i, progress, mayCancel);
        if r.Failure? {
          return;
        }
        progress := r.value;
        i := i + 1;
      }
      PrefixSums(pkg.entries, i);
      return Success(progress);
    }

    /** Checks the copied tree against the manifest and journals that it is right. */
    method Verify(start: Progress, mayCancel: bool) returns (r: Result<Progress, Fault>)
      requires Valid() && Intact(pkg) && site.journal == Some(start) && start.phase.Copied?
      requires BelongsTo(pkg, start) && start.requiredBytes == TotalBytes(pkg) && ProgressOk(start)
      modifies this
      ensures Valid() && mark == old(mark) && base == old(base)
      ensures Removing() ==> old(Removing())
      ensures old(Sound()) ==> Sound()
      ensures r.Success? ==> r.value == start.(phase := Verified) && site == old(site).(journal := Some(r.value))
      ensures r.Failure? ==> mayCancel || !old(Sound())
    {
      hide Legal, OneCall, RemovalBegun;
      if site.staging.None? {
        return Failure(Missing);
      }
      if mayCancel {
        if * { return Failure(Cancelled); }
      }
      MatchesExactly(pkg, site.staging.value);
      if !Matches(pkg, site.staging.value) {
        return Failure(EntryMismatch);
      }
      hide Inv, Matches;
      var progress := start.(phase := Verified);
      Do(WriteJournal(progress));
      if mayCancel {
        if * { return Failure(Cancelled); }
      }
      return Success(progress);
    }

    /** Copies and verifies the staging tree. */
    method Stage(start: Progress, mayCancel: bool) returns (r: Result<Progress, Fault>)
      requires Valid() && Intact(pkg) && site.journal == Some(start)
      requires BelongsTo(pkg, start) && start.requiredBytes == TotalBytes(pkg) && ProgressOk(start)
      modifies this
      ensures Valid() && mark == old(mark) && base == old(base)
      ensures Removing() ==> old(Removing())
      ensures old(Sound()) ==> Sound()
      ensures r.Success? ==>
        && site == old(site).(staging := site.staging, journal := Some(r.value))
        && Rank(r.value.phase) >= 2 && BelongsTo(pkg, r.value) && ProgressOk(r.value)
        && r.value.requiredBytes == TotalBytes(pkg) && r.value.replacedExisting == start.replacedExisting
        && (Rank(start.phase) < 2 ==> r.value.phase.Verified?)
        && (Rank(start.phase) >= 2 ==> site == old(site) && r.value == start)
      ensures r.Failure? ==> mayCancel || !old(Sound())
    {
      hide Legal, OneCall, RemovalBegun;
      var progress := start;
      if Rank(progress.phase) < 1 {
        var copied := CopyDataEntries(progress, mayCancel);
        if copied.Failure? {
          return copied;
        }
        hide Inv, AllCopied;
        progress := copied.value.(phase := Copied);
        Do(WriteJournal(progress));
        if mayCancel {
          if * { return Failure(Cancelled); }
        }
      }
      if Rank(progress.phase) < 2 {
        r := Verify(progress, mayCancel);
      } else {
        r := Success(progress);
      }
    }

    /** Exchanges the trees with two renames, each journalled after it is visible. */
    method Publish(start: Progress, policy: Policy, mayCancel: bool) returns (r: Result<Progress, Fault>)
      requires Valid() && site.journal == Some(start)
      requires BelongsTo(pkg, start) && start.requiredBytes == TotalBytes(pkg) && ProgressOk(start)
      requires Rank(start.phase) >= 2 && (site.prior.Some? ==> site.dest.Some?)
      modifies this
      ensures Valid() && mark == old(mark) && base == old(base)
      ensures Removing() ==> old(Removing())
      ensures old(Sound()) ==> Sound()
      ensures r.Success? ==>
        && site.journal == Some(r.value) && Rank(r.value.phase) >= 4 && BelongsTo(pkg, r.value) && ProgressOk(r.value)
        && r.value.requiredBytes == TotalBytes(pkg) && r.value.replacedExisting == start.replacedExisting
        && (site.dest.None? ==> site.prior.None?)
        && (Rank(start.phase) >= 4 ==> site == old(site) && r.value == start)
        && (Rank(start.phase) < 4 ==> site.staging.None? && site.dest.Some? && r.value.phase.NewPublished?)
      ensures old(Sound()) && !mayCancel && policy.Replace? && !(start.phase.OldMoved? && old(site).dest.Some?) ==>
        r.Success?
    {
      hide Legal, OneCall, RemovalBegun, Intact;
      var progress := start;
      if Rank(progress.phase) < 3 {
        r := SetOldAside(progress, policy, mayCancel);
        if r.Failure? {
          return;
        }
        progress := r.value;
      }
      hide Inv;
      if Rank(progress.phase) < 4 {
        if site.dest.Some? || site.staging.None? {
          return Failure(JournalConflict);
        }
        Do(PublishStaging);
        progress := progress.(phase := NewPublished);
        Do(WriteJournal(progress));
        if mayCancel {
          if * { return Failure(Cancelled); }
        }
      }
      return Success(progress);
    }

    /** Moves a tree at the destination out of the way, and journals that the place is free. */
    method SetOldAside(start: Progress, policy: Policy, mayCancel: bool) returns (r: Result<Progress, Fault>)
      requires Valid() && site.journal == Some(start)
      requires BelongsTo(pkg, start) && start.requiredBytes == TotalBytes(pkg) && ProgressOk(start)
      requires Rank(start.phase) == 2 && (site.prior.Some? ==> site.dest.Some?)
      modifies this
      ensures Valid() && mark == old(mark) && base == old(base)
      ensures Removing() ==> old(Removing())
      ensures old(Sound()) ==> Sound()
      ensures r.Success? ==>
        && r.value == start.(phase := OldMoved) && site.journal == Some(r.value)
        && site.dest.None? && site.staging == old(site).staging
        && (site.prior.None? <==> old(site).dest.None?)
      ensures old(Sound()) && !mayCancel && policy.Replace? ==> r.Success? && site.staging.Some?
    {
      hide Legal, OneCall, RemovalBegun, Intact;
      if site.dest.Some? {
        if policy.FailIfPresent? {
          return Failure(ExistingData);
        }
        if site.prior.Some? {
          return Failure(JournalConflict);
        }
        Do(MoveOld);
      }
      hide Inv;
      var progress := start.(phase := OldMoved);
      Do(WriteJournal(progress));
      if mayCancel {
        if * { return Failure(Cancelled); }
      }
      return Success(progress);
    }

    /** `rollback_publish`: `false` when both trees are in the way. */
    method RollbackPublish() returns (ok: bool)
      requires Valid() && !Removing() && !Undone(mark.site)
      requires site.journal.Some? && Rank(site.journal.value.phase) >= 4
      modifies this
      ensures Valid() && mark == old(mark) && base == old(base)
      ensures Removing() ==> old(Removing())
      ensures old(Sound()) ==> Sound()
      ensures ok <==> !(old(site).dest.Some? && old(site).staging.Some?)
      ensures !ok ==> site == old(site)
      ensures ok ==> site == old(site).(
          dest := old(site).prior,
          staging := if old(site).dest.Some? then old(site).dest else old(site).staging,
          prior := None)
    {
      if site.dest.Some? {
        if site.staging.Some? {
          return false;
        }
        Do(UnpublishToStaging);
      }
      if site.prior.Some? {
        Do(RestoreOld);
      }
      return true;
    }

    /** `remove_dir_all` of the replaced tree: file by file, in any order. */
    method RemoveOld()
      requires Valid() && site.journal.Some? && Rank(site.journal.value.phase) >= 4
      requires site.dest.Some? && Matches(pkg, site.dest.value)
      modifies this
      ensures Valid() && mark == old(mark) && base == old(base)
      ensures old(Sound()) ==> Sound()
      ensures site == old(site).(prior := None)
    {
      hide Inv, Intact, Legal, OneCall, RemovalBegun;
      if site.prior.Some? {
        while site.prior.value != map[]
          invariant Valid() && mark == old(mark) && base == old(base)
          invariant old(Sound()) ==> Sound()
          invariant site.prior.Some? && site == old(site).(prior := site.prior)
          decreases |site.prior.value|
        {
          var path :| path in site.prior.value;
          Do(DeleteOldFile(path));
        }
        Do(DeleteOldDirectory);
      }
    }

    /** Validates the published tree once more; rolls it back if that fails, else removes what is left. */
    method Finish(start: Progress, mayCancel: bool) returns (r: Result<(), Fault>)
      requires Valid() && !Removing() && !Undone(mark.site) && site.journal == Some(start) && Plausible(site)
      requires BelongsTo(pkg, start) && start.requiredBytes == TotalBytes(pkg) && ProgressOk(start)
      requires Rank(start.phase) >= 4 && (site.dest.None? ==> site.prior.None?)
      modifies this
      ensures Valid() && mark == old(mark) && base == old(base)
      ensures old(Sound()) ==> Sound()
      ensures r.Success? ==>
        && old(site).dest.Some? && Matches(pkg, old(site).dest.value)
        && site == Site(old(site).dest, old(site).staging, None, None)
      ensures r.Failure? ==> site.journal.Some?
      ensures !mayCancel ==> (r.Success? <==> old(site).dest.Some? && Matches(pkg, old(site).dest.value))
    {
      hide Legal, OneCall, RemovalBegun;
      var fault := None;
      if site.dest.None? {
        fault := Some(Missing);
      } else if !Matches(pkg, site.dest.value) {
        fault := Some(EntryMismatch);
      } else if mayCancel {
        if * { fault := Some(Cancelled); }
      }
      var progress := start;
      if fault.Some? {
        var rolledBack := RollbackPublish();
        if !rolledBack {
          return Failure(RollbackFailed);
        }
        progress := progress.(phase := Prepared, verifiedObjects := 0, verifiedBytes := 0);
        Do(WriteJournal(progress));
        return Failure(fault.value);
      }
      RemoveOld();
      progress := progress.(phase := Complete);
      Do(WriteJournal(progress));
      if mayCancel {
        if * { return Failure(Cancelled); }
      }
      Do(RemoveJournal);
      return Success(());
    }

    /** Journals a publication that became visible before the stop. */
    method ReconcilePublish(start: Progress, mayCancel: bool) returns (r: Result<Progress, Fault>)
      requires Valid() && site.journal == Some(start)
      requires BelongsTo(pkg, start) && start.requiredBytes == TotalBytes(pkg) && ProgressOk(start)
      modifies this
      ensures Valid() && mark == old(mark) && base == old(base)
      ensures Removing() ==> old(Removing())
      ensures old(Sound()) ==> Sound()
      ensures r.Success? ==>
        && site == old(site).(journal := Some(r.value))
        && r.value == start.(phase := r.value.phase)
        && r.value.phase ==
           (if start.phase.OldMoved? && site.dest.Some? && site.staging.None? then NewPublished else start.phase)
      ensures old(Sound()) && !mayCancel ==> r.Success?
    {
      hide Legal, OneCall, RemovalBegun;
      var progress := start;
      if progress.phase.OldMoved? && site.dest.Some? && site.staging.None? {
        if Intact(pkg) { MatchesExactly(pkg, site.dest.value); }
        if !Matches(pkg, site.dest.value) {
          return Failure(EntryMismatch);
        }
        if mayCancel {
          if * { return Failure(Cancelled); }
        }
        progress := progress.(phase := NewPublished);
        Do(WriteJournal(progress));
        if mayCancel {
          if * { return Failure(Cancelled); }
        }
      }
      return Success(progress);
    }

    /** The part of a call after the package was found intact. */
    method Advance(start: Progress, policy: Policy, mayCancel: bool) returns (r: Result<(), Fault>)
      requires Valid() && !Removing() && !Undone(mark.site)
      requires Intact(pkg) && site.journal == Some(start) && Plausible(site)
      requires BelongsTo(pkg, start) && start.requiredBytes == TotalBytes(pkg) && ProgressOk(start)
      requires site.prior.Some? ==> site.dest.Some?
      modifies this
      ensures Valid() && mark == old(mark) && base == old(base)
      ensures old(Sound()) ==> Sound()
      ensures r.Success? ==> site.dest == Some(Data(pkg)) && site.prior.None? && site.journal.None?
      ensures r.Success? && Rank(start.phase) >= 4 ==> site.staging == old(site).staging
      ensures r.Success? && old(Sound()) && Rank(start.phase) < 4 ==> site.staging.None?
      ensures old(Sound()) && !mayCancel && policy.Replace?
        && !InterruptedRollback(old(site))
        && !(start.phase.OldMoved? && old(site).dest.Some? && old(site).staging.Some?)
        ==> r.Success?
    {
      hide Legal, OneCall, RemovalBegun;
      var progress := start;
      var reconciled := ReconcilePublish(progress, mayCancel);
      if reconciled.Failure? { return Failure(reconciled.error); }
      var staged := Stage(reconciled.value, mayCancel);
      if staged.Failure? { return Failure(staged.error); }
      var published := Publish(staged.value, policy, mayCancel);
      if published.Failure? { return Failure(published.error); }
      if site.dest.Some? { MatchesExactly(pkg, site.dest.value); }
      r := Finish(published.value, mayCancel);
    }

    /**
     One call. Every durable state it passes through continues the history; from a state left by earlier
     calls for an intact package, an uncancelled `Replace` call with enough space completes exactly when
     no rollback was cut short, and then only the restored data is left.
    */
    method Restore(policy: Policy, available: Option<nat>, unknownAllowed: bool, mayCancel: bool)
      returns (r: Result<Report, Fault>)
      requires Valid() && Plausible(site)
      modifies this
      ensures Valid() && OneCall(old(history), history)
      ensures old(Sound()) ==> Sound()
      ensures old(Sound()) && r.Success? ==> site.dest == Some(Data(pkg)) && site.prior.None? && site.journal.None?
      ensures old(Sound()) && !mayCancel && policy.Replace? && SpaceSuffices(pkg, available, unknownAllowed) ==>
        (r.Success? && site == Site(Some(Data(pkg)), None, None, None) <==> !InterruptedRollback(old(site)))
    {
      mark := history;
      var resumed := site.journal.Some?;
      var saved := Resume();
      if saved.Failure? { return Failure(saved.error); }
      if !ManifestAccepted(pkg) { return Failure(InvalidManifest); }
      var begun := Begin(saved.value, policy, available, unknownAllowed);
      if begun.Failure? { return Failure(begun.error); }
      if mayCancel {
        if * { return Failure(Cancelled); }
      }
      if !AllCopied(pkg, pkg.files) { return Failure(EntryMismatch); }
      var advanced := Advance(begun.value, policy, mayCancel);
      if advanced.Failure? { return Failure(advanced.error); }
      return Success(Report(TotalBytes(pkg), begun.value.replacedExisting, resumed));
    }
  }
}
