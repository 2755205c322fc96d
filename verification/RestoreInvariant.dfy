/** What every durable step of a restore keeps, and what that says about every crash point. */
module RestoreInvariant {
  import opened Wrappers
  import opened Digests
  import opened RestoreProtocol

  /** `t` is absent or holds some of the files of `base`, unchanged. */
  ghost predicate PartOf(t: Option<Tree>, base: Option<Tree>) {
    t.None? || (base.Some? && forall p | p in t.value :: p in base.value && t.value[p] == base.value[p])
  }

  /** A staging tree during the copy: published files are right, and a temporary stands for an unpublished file. */
  ghost predicate Partial(pkg: Package, t: Tree) {
    && (forall i | 0 <= i < |pkg.entries| :: pkg.entries[i].path in t ==> Holds(t, pkg.entries[i]))
    && forall p | p in t && p !in Paths(pkg) ::
        exists i :: 0 <= i < |pkg.entries| && p == TempOf(pkg.entries[i].path) && pkg.entries[i].path !in t
  }

  /** `base` is the tree that was at the destination when the journal was created. */
  ghost predicate Inv(pkg: Package, base: Option<Tree>, s: Site)
    requires Intact(pkg)
  {
    match s.journal
    case None =>
      s.prior.None? && (s.staging.None? || s.staging == Some(map[]) || Leftover(pkg, s))
    case Some(j) =>
      && BelongsTo(pkg, j) && ProgressOk(j) && j.requiredBytes == TotalBytes(pkg)
      && j.replacedExisting == base.Some?
      && PhaseInv(pkg, base, s, j.phase)
  }

  /** A second copy of the published data left in staging (see `InterruptedRollback`). */
  ghost predicate Leftover(pkg: Package, s: Site)
    requires Intact(pkg)
  {
    s.dest == Some(Data(pkg)) && s.staging == Some(Data(pkg))
  }

  ghost predicate PhaseInv(pkg: Package, base: Option<Tree>, s: Site, phase: Phase)
    requires Intact(pkg)
  {
    var full := Some(Data(pkg));
    match phase
    case Prepared =>
      && s.prior.None? && PartOf(s.dest, base)
      && s.staging.Some? && Partial(pkg, s.staging.value)
      && (s.dest == base || s.staging == full)
    case Copied => s.prior.None? && PartOf(s.dest, base) && s.staging == full
    case Verified =>
      && s.staging == full
      && ((s.prior.None? && PartOf(s.dest, base)) || (s.dest.None? && PartOf(s.prior, base)))
    case OldMoved =>
      || (s.staging == full && s.prior.None? && PartOf(s.dest, base))
      || (s.staging == full && s.dest.None? && PartOf(s.prior, base))
      || (s.staging.None? && s.dest == full && PartOf(s.prior, base))
    case NewPublished =>
      || (s.staging.None? && s.dest == full && PartOf(s.prior, base))
      || (s.staging == full && s.dest.None? && PartOf(s.prior, base))
      || (s.staging == full && s.prior.None? && PartOf(s.dest, base))
    case Complete =>
      && s.prior.None?
      && ((s.staging.None? && s.dest == full) || (s.staging == full && (s.dest.None? || s.dest == full)))
  }

  /** The journal still says the new tree is published although staging is filled again. */
  predicate InterruptedRollback(s: Site) {
    match s.journal
    case None => s.staging.Some? && s.staging.value != map[]
    case Some(j) => Rank(j.phase) >= 4 && s.staging.Some?
  }

  /** The base after a step: creating a journal takes the destination as the new base. */
  ghost function NextBase(base: Option<Tree>, s: Site, step: Step): Option<Tree> {
    if s.journal.None? && step.WriteJournal? then s.dest else base
  }

  lemma TempIsNoPath(pkg: Package, path: Path)
    requires ManifestAccepted(pkg)
    ensures TempOf(path) !in Paths(pkg)
  {
  }

  /** The published tree passes validation exactly when it is the package's data, file for file. */
  lemma MatchesExactly(pkg: Package, t: Tree)
    requires Intact(pkg)
    ensures Matches(pkg, t) <==> t == Data(pkg)
  {
  }

  /** When every entry is copied no temporary is left, so the staging tree is exactly the data. */
  lemma CopiedIsData(pkg: Package, t: Tree)
    requires Intact(pkg) && Partial(pkg, t) && AllCopied(pkg, t)
    ensures t == Data(pkg)
  {
  }

  lemma DataIsPartial(pkg: Package)
    requires Intact(pkg)
    ensures Partial(pkg, Data(pkg)) && AllCopied(pkg, Data(pkg))
  {
  }

  lemma SamePathSameEntry(pkg: Package, i: nat, j: nat)
    requires ManifestAccepted(pkg) && i < |pkg.entries| && j < |pkg.entries|
    requires pkg.entries[i].path == pkg.entries[j].path
    ensures i == j
  {
  }

  lemma PartialWithoutTemporary(pkg: Package, t: Tree, path: Path)
    requires ManifestAccepted(pkg) && Partial(pkg, t)
    ensures Partial(pkg, t - {TempOf(path)})
  {
  }

  lemma PartialWithTemporary(pkg: Package, t: Tree, k: nat, content: Content)
    requires ManifestAccepted(pkg) && Partial(pkg, t) && k < |pkg.entries| && pkg.entries[k].path !in t
    ensures Partial(pkg, t[TempOf(pkg.entries[k].path) := content])
  {
  }

  lemma PartialWithPublished(pkg: Package, t: Tree, k: nat)
    requires ManifestAccepted(pkg) && Partial(pkg, t) && k < |pkg.entries|
    requires TempOf(pkg.entries[k].path) in t && Good(pkg.entries[k], t[TempOf(pkg.entries[k].path)])
    ensures Partial(pkg, (t - {TempOf(pkg.entries[k].path)})[pkg.entries[k].path := t[TempOf(pkg.entries[k].path)]])
  {
    var e := pkg.entries[k];
    var temporary := TempOf(e.path);
    var t' := (t - {temporary})[e.path := t[temporary]];
    TempIsNoPath(pkg, e.path);
    assert e.path in Paths(pkg);
    forall i | 0 <= i < |pkg.entries| && pkg.entries[i].path in t' ensures Holds(t', pkg.entries[i]) {
      assert pkg.entries[i].path in Paths(pkg);
      if pkg.entries[i].path == e.path {
        SamePathSameEntry(pkg, i, k);
      } else {
        assert Holds(t, pkg.entries[i]);
      }
    }
    forall p | p in t' && p !in Paths(pkg)
      ensures exists i :: 0 <= i < |pkg.entries| && p == TempOf(pkg.entries[i].path) && pkg.entries[i].path !in t'
    {
      var i :| 0 <= i < |pkg.entries| && p == TempOf(pkg.entries[i].path) && pkg.entries[i].path !in t;
      assert pkg.entries[i].path !in t' by {
        assert pkg.entries[i].path != e.path;
      }
    }
  }

  /** Filling steps keep a partial tree partial, and cannot touch a complete one. */
  lemma StagingStepKeepsPartial(pkg: Package, s: Site, step: Step)
    requires Intact(pkg) && StagingStep(step) && Enabled(pkg, s, step)
    requires Partial(pkg, s.staging.value)
    ensures Partial(pkg, Apply(pkg, s, step).staging.value)
    ensures s.staging.value != Data(pkg)
  {
    var t := s.staging.value;
    var e := pkg.entries[step.index];
    DataIsPartial(pkg);
    TempIsNoPath(pkg, e.path);
    assert Holds(Data(pkg), e) && TempOf(e.path) !in Data(pkg);
    match step
    case RemoveTarget(_) => assert t - {e.path} == t;
    case RemoveTemporary(_) => PartialWithoutTemporary(pkg, t, e.path);
    case WriteTemporary(k, content) => PartialWithTemporary(pkg, t, k, content);
    case PublishTemporary(k) => PartialWithPublished(pkg, t, k);
  }

  /** Journal writes keep the invariant. */
  lemma WriteJournalKeepsInv(pkg: Package, base: Option<Tree>, s: Site, p: Progress)
    requires Intact(pkg) && Inv(pkg, base, s) && Enabled(pkg, s, WriteJournal(p))
    ensures Inv(pkg, NextBase(base, s, WriteJournal(p)), Apply(pkg, s, WriteJournal(p)))
  {
    if s.staging.Some? { MatchesExactly(pkg, s.staging.value); }
    if s.dest.Some? { MatchesExactly(pkg, s.dest.value); }
    DataIsPartial(pkg);
    if s.journal.Some? && s.journal.value.phase.Prepared? && p.phase.Copied? {
      CopiedIsData(pkg, s.staging.value);
    }
  }

  /** Every durable step keeps the invariant. */
  lemma StepKeepsInv(pkg: Package, base: Option<Tree>, s: Site, step: Step)
    requires Intact(pkg) && Inv(pkg, base, s) && Enabled(pkg, s, step)
    ensures Inv(pkg, NextBase(base, s, step), Apply(pkg, s, step))
  {
    if step.WriteJournal? {
      WriteJournalKeepsInv(pkg, base, s, step.progress);
    } else if StagingStep(step) {
      StagingStepKeepsPartial(pkg, s, step);
    } else {
      if s.dest.Some? { MatchesExactly(pkg, s.dest.value); }
    }
  }
}
