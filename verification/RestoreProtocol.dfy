/**
The durable state of one restore destination, and every durable step `restore_backup` may take on it.

A tree is the set of files below a directory; an absent directory is `None`. Journal writes and
renames are single steps because the program makes them atomic; copying a file and deleting the
replaced tree are several. A process may stop between any two steps, so a state left by a crash is
a state of some run of these steps.
*/
module RestoreProtocol {
  import opened Wrappers
  import opened Digests

  type Path = string
  type Tree = map<Path, Content>

  const MAX_BACKUP_ASSET_OBJECTS := 100_000
  const SPACE_RESERVE_BYTES := 1024 * 1024
  const COPY_BUFFER_BYTES := 64 * 1024
  const TEMPORARY_SUFFIX := ".copying"

  /** A `data/` entry of the manifest, its path already relative to the restored root. */
  datatype Entry = Entry(path: Path, size: nat, sha256: Digest, isObject: bool)

  /** A package: its data entries in manifest order, the bytes of its two receipts, and its data files. */
  datatype Package = Package(
    sessionId: string,
    manifestSha256: string,
    entries: seq<Entry>,
    receiptBytes: nat,
    files: Tree)

  datatype Phase = Prepared | Copied | Verified | OldMoved | NewPublished | Complete

  datatype Progress = Progress(
    sessionId: string,
    manifestSha256: string,
    phase: Phase,
    verifiedObjects: nat,
    verifiedBytes: nat,
    requiredBytes: nat,
    replacedExisting: bool)

  /** The destination, its three siblings and the journal. */
  datatype Site = Site(
    dest: Option<Tree>,
    staging: Option<Tree>,
    prior: Option<Tree>,
    journal: Option<Progress>)

  function Rank(phase: Phase): nat {
    match phase
    case Prepared => 0
    case Copied => 1
    case Verified => 2
    case OldMoved => 3
    case NewPublished => 4
    case Complete => 5
  }

  // ---------------------------------------------------------------- packages

  function SizeSum(entries: seq<Entry>): nat {
    if entries == [] then 0 else SizeSum(entries[..|entries| - 1]) + entries[|entries| - 1].size
  }

  function ObjectCount(entries: seq<Entry>): nat {
    if entries == [] then 0
    else ObjectCount(entries[..|entries| - 1]) + (if entries[|entries| - 1].isObject then 1 else 0)
  }

  function TotalBytes(pkg: Package): nat {
    SizeSum(pkg.entries) + pkg.receiptBytes
  }

  /** Where the last extension of the last component starts, if it has one. */
  function ExtensionStart(path: Path, end: nat): Option<nat>
    requires end <= |path|
  {
    if end == 0 || path[end - 1] == '/' then None
    else if path[end - 1] == '.' then
      if end == 1 || path[end - 2] == '/' then None else Some(end - 1)
    else ExtensionStart(path, end - 1)
  }

  /** The sibling a file is copied to before it is renamed into place. */
  function TempOf(path: Path): Path {
    match ExtensionStart(path, |path|)
    case None => path + TEMPORARY_SUFFIX
    case Some(k) => (if k <= |path| then path[..k] else path) + TEMPORARY_SUFFIX
  }

  predicate IsTemporaryName(path: Path) {
    |path| >= |TEMPORARY_SUFFIX| && path[|path| - |TEMPORARY_SUFFIX|..] == TEMPORARY_SUFFIX
  }

  /**
   The part of manifest validation the restore relies on: both databases are listed, paths are in strict
   order and so distinct, the object limit holds, and no path (a database name or a hexadecimal object
   name) ends like a temporary.
  */
  predicate ManifestAccepted(pkg: Package) {
    && |pkg.entries| >= 2
    && (forall i, j | 0 <= i < j < |pkg.entries| :: pkg.entries[i].path != pkg.entries[j].path)
    && (forall i | 0 <= i < |pkg.entries| :: !IsTemporaryName(pkg.entries[i].path))
    && ObjectCount(pkg.entries) <= MAX_BACKUP_ASSET_OBJECTS
  }

  predicate Good(e: Entry, content: Content) {
    Sha256(content) == e.sha256 && |content| == e.size
  }

  predicate Holds(t: Tree, e: Entry) {
    e.path in t && Good(e, t[e.path])
  }

  predicate AllCopied(pkg: Package, t: Tree) {
    forall i | 0 <= i < |pkg.entries| :: Holds(t, pkg.entries[i])
  }

  function Paths(pkg: Package): set<Path> {
    set i | 0 <= i < |pkg.entries| :: pkg.entries[i].path
  }

  /** `validate_restored_data`: exactly the manifested files, each with its hash and size. */
  predicate Matches(pkg: Package, t: Tree) {
    t.Keys == Paths(pkg) && AllCopied(pkg, t)
  }

  /** Every manifested file of the package is present with its hash and size. */
  predicate Intact(pkg: Package) {
    ManifestAccepted(pkg) && AllCopied(pkg, pkg.files)
  }

  /** What a completed restore puts at the destination. */
  function Data(pkg: Package): (t: Tree)
    requires Intact(pkg)
  {
    map p | p in Paths(pkg) :: pkg.files[p]
  }

  predicate BelongsTo(pkg: Package, p: Progress) {
    p.sessionId == pkg.sessionId && p.manifestSha256 == pkg.manifestSha256
  }

  /** `validate_progress`: the bounds a journal must meet to be read or written. */
  predicate ProgressOk(p: Progress) {
    p.verifiedObjects <= MAX_BACKUP_ASSET_OBJECTS && p.verifiedBytes <= p.requiredBytes
  }

  // ---------------------------------------------------------------- steps

  datatype Step =
    | RemoveEmptyStaging
    | CreateStaging
    | WriteJournal(progress: Progress)
    | RemoveTarget(index: nat)
    | RemoveTemporary(index: nat)
    | WriteTemporary(index: nat, content: Content)
    | PublishTemporary(index: nat)
    | MoveOld
    | UndoMoveOld
    | PublishStaging
    | UnpublishToStaging
    | RestoreOld
    | DeleteOldFile(path: Path)
    | DeleteOldDirectory
    | RemoveJournal

  /** Steps that fill the staging tree; the journal says `Prepared` throughout. */
  predicate StagingStep(step: Step) {
    step.RemoveTarget? || step.RemoveTemporary? || step.WriteTemporary? || step.PublishTemporary?
  }

  predicate Filling(pkg: Package, s: Site, index: nat) {
    s.journal.Some? && s.journal.value.phase.Prepared? && s.staging.Some? && index < |pkg.entries|
  }

  /** When the journal may move from `j` to `p` in the directories of `s`. */
  predicate JournalMove(pkg: Package, s: Site, j: Progress, p: Progress) {
    match (j.phase, p.phase)
    case (Prepared, Copied) => s.staging.Some? && AllCopied(pkg, s.staging.value)
    case (Copied, Verified) => s.staging.Some? && Matches(pkg, s.staging.value)
    case (Verified, OldMoved) => s.dest.None?
    case (OldMoved, Verified) => s.staging.Some? && s.dest.Some? && s.prior.None?
    case (OldMoved, NewPublished) => s.staging.None? && s.dest.Some?
    case (NewPublished, Complete) => s.prior.None? && s.dest.Some? && Matches(pkg, s.dest.value)
    case (NewPublished, Prepared) => s.prior.None? && (s.staging.Some? || s.dest.None?)
    case (Complete, Prepared) => s.prior.None? && s.dest.None?
    case (a, b) => a == b
  }

  predicate Enabled(pkg: Package, s: Site, step: Step) {
    match step
    case RemoveEmptyStaging => s.journal.None? && s.staging == Some(map[]) && s.prior.None?
    case CreateStaging => s.journal.None? && s.staging.None? && s.prior.None?
    case WriteJournal(p) =>
      ProgressOk(p) &&
      (match s.journal
       case None =>
         && s.staging == Some(map[]) && s.prior.None?
         && p.phase.Prepared? && BelongsTo(pkg, p)
         && p.requiredBytes == TotalBytes(pkg)
         && p.replacedExisting == s.dest.Some?
       case Some(j) =>
         && p.sessionId == j.sessionId && p.manifestSha256 == j.manifestSha256
         && (p.requiredBytes == j.requiredBytes || (BelongsTo(pkg, p) && p.requiredBytes == TotalBytes(pkg)))
         && (p.replacedExisting == j.replacedExisting || (p.replacedExisting && s.dest.Some? && p.phase.Verified?))
         && JournalMove(pkg, s, j, p))
    case RemoveTarget(i) => Filling(pkg, s, i) && !Holds(s.staging.value, pkg.entries[i])
    case RemoveTemporary(i) => Filling(pkg, s, i) && !Holds(s.staging.value, pkg.entries[i])
    case WriteTemporary(i, content) => Filling(pkg, s, i) && pkg.entries[i].path !in s.staging.value
    case PublishTemporary(i) =>
      && Filling(pkg, s, i)
      && TempOf(pkg.entries[i].path) in s.staging.value
      && Good(pkg.entries[i], s.staging.value[TempOf(pkg.entries[i].path)])
    case MoveOld =>
      s.journal.Some? && s.journal.value.phase.Verified? && s.dest.Some? && s.prior.None?
    case UndoMoveOld =>
      && s.journal.Some? && (s.journal.value.phase.Verified? || s.journal.value.phase.OldMoved?)
      && s.prior.Some? && s.dest.None? && s.staging.Some?
    case PublishStaging =>
      s.journal.Some? && s.journal.value.phase.OldMoved? && s.dest.None? && s.staging.Some?
    case UnpublishToStaging =>
      s.journal.Some? && Rank(s.journal.value.phase) >= 4 && s.dest.Some? && s.staging.None?
    case RestoreOld =>
      s.journal.Some? && Rank(s.journal.value.phase) >= 4 && s.prior.Some? && s.dest.None?
    case DeleteOldFile(path) =>
      && s.journal.Some? && Rank(s.journal.value.phase) >= 4
      && s.dest.Some? && Matches(pkg, s.dest.value) && s.prior.Some? && path in s.prior.value
    case DeleteOldDirectory =>
      && s.journal.Some? && Rank(s.journal.value.phase) >= 4
      && s.dest.Some? && Matches(pkg, s.dest.value) && s.prior == Some(map[])
    case RemoveJournal =>
      s.journal.Some? && s.journal.value.phase.Complete? && s.dest.Some? && Matches(pkg, s.dest.value)
  }

  /** The effect of a step on the durable state. */
  function Apply(pkg: Package, s: Site, step: Step): Site
    requires Enabled(pkg, s, step)
  {
    match step
    case RemoveEmptyStaging => s.(staging := None)
    case CreateStaging => s.(staging := Some(map[]))
    case WriteJournal(p) => s.(journal := Some(p))
    case RemoveTarget(i) => s.(staging := Some(s.staging.value - {pkg.entries[i].path}))
    case RemoveTemporary(i) => s.(staging := Some(s.staging.value - {TempOf(pkg.entries[i].path)}))
    case WriteTemporary(i, content) =>
      s.(staging := Some(s.staging.value[TempOf(pkg.entries[i].path) := content]))
    case PublishTemporary(i) =>
      var temporary := TempOf(pkg.entries[i].path);
      var content := s.staging.value[temporary];
      s.(staging := Some((s.staging.value - {temporary})[pkg.entries[i].path := content]))
    case MoveOld => s.(dest := None, prior := s.dest)
    case UndoMoveOld => s.(dest := s.prior, prior := None)
    case PublishStaging => s.(dest := s.staging, staging := None)
    case UnpublishToStaging => s.(dest := None, staging := s.dest)
    case RestoreOld => s.(dest := s.prior, prior := None)
    case DeleteOldFile(path) => s.(prior := Some(s.prior.value - {path}))
    case DeleteOldDirectory => s.(prior := None)
    case RemoveJournal => s.(journal := None)
  }

  /**
   A run, newest state last. A stop of the process leaves no mark of its own, so the histories of a
   site are the runs of all its calls, and a crash point is the last state of one of them.
  */
  datatype History = Begun(site: Site) | Then(past: History, step: Step, site: Site)

  predicate Legal(pkg: Package, h: History) {
    h.Then? ==>
      && Legal(pkg, h.past)
      && Enabled(pkg, h.past.site, h.step)
      && h.site == Apply(pkg, h.past.site, h.step)
  }

  function Origin(h: History): Site {
    if h.Begun? then h.site else Origin(h.past)
  }

  /** Files of the replaced tree were deleted after `mark`. */
  predicate RemovalBegun(mark: History, h: History) {
    h != mark && h.Then? && (h.step.DeleteOldFile? || RemovalBegun(mark, h.past))
  }

  /** The publication was withdrawn and the old tree not yet put back. */
  predicate Undone(s: Site) {
    s.journal.Some? && Rank(s.journal.value.phase) >= 4 && s.dest.None? && s.prior.Some?
  }

  /** The old tree may still go back: this call has not begun to delete it and did not find the rollback half done. */
  predicate MayPutBack(mark: History, h: History) {
    !RemovalBegun(mark, h) && !Undone(mark.site)
  }

  /** `h` continues `mark` as one call may. */
  predicate OneCall(mark: History, h: History) {
    || h == mark
    || (h.Then? && OneCall(mark, h.past) && (h.step.RestoreOld? ==> MayPutBack(mark, h.past)))
  }
}
