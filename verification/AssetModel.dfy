/**
The asset store between two durable steps: the catalog tables, the files, and the identifiers handed out.

Each SQLite transaction is one event, and so is each link, unlink and file write. A process may stop
between any two events; reopening finishes a pending quarantine intent before anything else happens,
so every other event needs the intents table to be empty.
*/
module AssetModel {
  import opened Wrappers
  import opened Digests

  type Hash = Digest
  type Name = string
  type SessionId = string

  const BACKUP_OWNER_TYPE := "lorepia-backup"
  const IMPORT_OWNER_TYPE := "lorepia-import-session"
  const MAX_BACKUP_SNAPSHOT_SESSIONS := 128
  const MAX_TEMPORARY_OWNER_SESSIONS := 128

  datatype Owner = Owner(ownerType: string, ownerId: string)
  datatype Ref = Ref(owner: Owner, hash: Hash)

  /** A row's quarantine name is present exactly in the quarantined state, as the table's CHECK demands. */
  datatype State = Active | Missing | Quarantined(name: Name)
  datatype Row = Row(size: nat, state: State, created: int)

  datatype QuarantineRow = QuarantineRow(original: Option<Hash>, reason: string, created: int)

  /**
   A file name in the object shards: a hash in the shard derived from it, a hash in another shard, or
   a name that is no hash.
  */
  datatype Slot = Own(hash: Hash) | Misfiled(hash: Hash, shard: string) | Junk(shard: string, name: string)

  datatype Operation = Move(source: Slot) | Purge
  datatype IntentPhase = Prepared | Moved
  datatype Intent = Intent(operation: Operation, phase: IntentPhase, row: QuarantineRow)

  datatype Catalog = Catalog(
    objects: map<Hash, Row>,
    refs: set<Ref>,
    staging: map<Name, int>,
    quarantine: map<Name, QuarantineRow>,
    intents: map<Name, Intent>,
    backups: map<SessionId, int>,
    temporaries: map<Owner, int>)

  /** A directory entry: which file it is, and its content. Hard links share the inode. */
  datatype File = File(inode: nat, content: Content)

  datatype Disk = Disk(objects: map<Slot, File>, staging: map<Name, File>, quarantine: map<Name, File>)

  /**
   `issued` are the temporary owners that began a session so far, `closed` those whose importer committed
   or finished, `snapshots` the catalog copies written for live backup sessions.
  */
  datatype World = World(
    catalog: Catalog,
    disk: Disk,
    issued: set<Owner>,
    closed: set<Owner>,
    snapshots: map<SessionId, Catalog>)

  // ---------------------------------------------------------------- queries

  function BackupOwner(sid: SessionId): Owner { Owner(BACKUP_OWNER_TYPE, sid) }

  function RefsOf(c: Catalog, o: Owner): set<Ref> { set r | r in c.refs && r.owner == o }

  predicate Referenced(c: Catalog, h: Hash) { exists r | r in c.refs :: r.hash == h }

  predicate ReferencedByOther(c: Catalog, h: Hash, o: Owner) {
    exists r | r in c.refs :: r.hash == h && r.owner != o
  }

  predicate ActiveRow(c: Catalog, h: Hash) { h in c.objects && c.objects[h].state.Active? }

  function ActiveRows(c: Catalog): set<Hash> { set h | h in c.objects && c.objects[h].state.Active? }

  function Pinned(c: Catalog, sid: SessionId): set<Hash> {
    set r | r in c.refs && r.owner == BackupOwner(sid) :: r.hash
  }

  /** The file at the hash-derived place has that hash and this size. */
  predicate GoodFile(d: Disk, h: Hash, size: nat) {
    Own(h) in d.objects && Sha256(d.objects[Own(h)].content) == h && |d.objects[Own(h)].content| == size
  }

  function OriginalHash(slot: Slot): Option<Hash> {
    match slot
    case Own(h) => Some(h)
    case Misfiled(h, _) => Some(h)
    case Junk(_, _) => None
  }

  /** What reconciliation and ingest move away: content that is wrong or has no row, and names out of place. */
  predicate Quarantinable(w: World, source: Slot) {
    source in w.disk.objects &&
    (source.Own? ==>
       source.hash !in w.catalog.objects || !GoodFile(w.disk, source.hash, w.catalog.objects[source.hash].size))
  }

  /** References that a catalog copy drops: backup pins, those of importers, and those of live sessions. */
  predicate Operational(c: Catalog, r: Ref) {
    r.owner.ownerType == BACKUP_OWNER_TYPE || r.owner.ownerType == IMPORT_OWNER_TYPE || r.owner in c.temporaries
  }

  /** The catalog copy a backup session writes: no operational metadata survives in it. */
  function SnapshotOf(c: Catalog): Catalog {
    c.(refs := (set r | r in c.refs && !Operational(c, r)),
       backups := map[],
       temporaries := map[])
  }

  // ---------------------------------------------------------------- events

  /** Ingest: the staged file, its link into the shards, and the transaction that admits it. */
  datatype IngestStep =
    | AddStagingRow(name: Name, now: int)
    | WriteStagingFile(name: Name, file: File)
    | LinkObject(name: Name, hash: Hash)
    | CommitIngest(hash: Hash, size: nat, owner: Option<Owner>, now: int)
    | RemoveStagingFile(name: Name)
    | RemoveStagingRow(name: Name)

  /** References, mark and sweep, and reconciliation of a row with its file. */
  datatype UpkeepStep =
    | AddReferences(refs: set<Ref>)
    | RemoveReferences(refs: set<Ref>)
    | SweepUnlink(hash: Hash)
    | SweepRow(hash: Hash)
    | MarkMissing(hash: Hash)
    | MarkActive(hash: Hash)

  /** Temporary owners: the importer's transactions, and those of rollback and recovery. */
  datatype SessionStep =
    | BeginSession(owner: Owner, now: int)
    | RenewSession(owner: Owner, now: int)
    | FinishSession(owner: Owner)
    | PromoteSession(owner: Owner, final: Owner)
    | ClaimSession(owner: Owner, cutoff: int)
    | RollbackUnlink(owner: Owner, hash: Hash)
    | RollbackRow(owner: Owner, hash: Hash)
    | EndSession(owner: Owner)

  /** Recording a quarantine intent. */
  datatype StartStep =
    | PrepareMove(name: Name, source: Slot, reason: string, now: int)
    | PreparePurge(name: Name)

  /** Carrying out a recorded intent. */
  datatype IntentStep =
    | LinkQuarantine(name: Name)
    | UnlinkSource(name: Name)
    | RecordMoved(name: Name)
    | FinalizeMove(name: Name)
    | UnlinkQuarantined(name: Name)
    | FinalizePurge(name: Name)

  datatype BackupStep =
    | PinSnapshot(sid: SessionId, expired: set<SessionId>, now: int, written: bool)
    | RenewBackup(sid: SessionId, now: int)
    | ReleaseBackups(sids: set<SessionId>)

  datatype Event =
    | OfIngest(ingest: IngestStep)
    | OfUpkeep(upkeep: UpkeepStep)
    | OfSession(session: SessionStep)
    | OfStart(start: StartStep)
    | OfIntent(intent: IntentStep)
    | OfBackup(backup: BackupStep)

  predicate PendingMove(w: World, name: Name, phase: IntentPhase) {
    && name in w.catalog.intents && w.catalog.intents[name].operation.Move?
    && w.catalog.intents[name].phase == phase
  }

  predicate PendingPurge(w: World, name: Name, phase: IntentPhase) {
    && name in w.catalog.intents && w.catalog.intents[name].operation.Purge?
    && w.catalog.intents[name].phase == phase
  }

  predicate IngestEnabled(w: World, e: IngestStep) {
    match e
    case AddStagingRow(name, _) => name !in w.catalog.staging
    case WriteStagingFile(name, _) => name in w.catalog.staging
    case LinkObject(name, h) =>
      name in w.disk.staging && Sha256(w.disk.staging[name].content) == h && Own(h) !in w.disk.objects
    case CommitIngest(h, size, _, _) => GoodFile(w.disk, h, size)
    case RemoveStagingFile(name) => name in w.disk.staging
    case RemoveStagingRow(name) => name !in w.disk.staging
  }

  predicate UpkeepEnabled(w: World, e: UpkeepStep) {
    var c := w.catalog;
    match e
    case AddReferences(refs) => forall r | r in refs :: ActiveRow(c, r.hash)
    case RemoveReferences(refs) => true
    case SweepUnlink(h) => h in c.objects && !Referenced(c, h) && Own(h) in w.disk.objects
    case SweepRow(h) => h in c.objects && !Referenced(c, h) && Own(h) !in w.disk.objects
    case MarkMissing(h) => h in c.objects && Own(h) !in w.disk.objects
    case MarkActive(h) => h in c.objects && GoodFile(w.disk, h, c.objects[h].size)
  }

  predicate SessionEnabled(w: World, e: SessionStep) {
    var c := w.catalog;
    match e
    case BeginSession(o, _) => o !in c.temporaries && |c.temporaries| < MAX_TEMPORARY_OWNER_SESSIONS
    case RenewSession(o, _) => o in c.temporaries
    case FinishSession(o) => o in c.temporaries && RefsOf(c, o) == {}
    case PromoteSession(o, f) =>
      && f.ownerType != o.ownerType && o in c.temporaries && RefsOf(c, o) != {}
      && forall r | r in RefsOf(c, o) :: ActiveRow(c, r.hash)
    case ClaimSession(o, cutoff) => o in c.temporaries && c.temporaries[o] < cutoff
    case RollbackUnlink(o, h) =>
      && Ref(o, h) in c.refs && ActiveRow(c, h) && !ReferencedByOther(c, h, o)
      && Own(h) in w.disk.objects
    case RollbackRow(o, h) =>
      && Ref(o, h) in c.refs
      && (ActiveRow(c, h) && !ReferencedByOther(c, h, o) ==> Own(h) !in w.disk.objects)
    case EndSession(o) => true
  }

  predicate StartEnabled(w: World, e: StartStep) {
    match e
    case PrepareMove(name, source, _, _) =>
      name !in w.catalog.quarantine && name !in w.disk.quarantine && Quarantinable(w, source)
    case PreparePurge(name) => name in w.catalog.quarantine
  }

  predicate IntentEnabled(w: World, e: IntentStep) {
    var name := e.name;
    match e
    case LinkQuarantine(_) =>
      && PendingMove(w, name, Prepared)
      && w.catalog.intents[name].operation.source in w.disk.objects && name !in w.disk.quarantine
    case UnlinkSource(_) =>
      && PendingMove(w, name, Prepared)
      && w.catalog.intents[name].operation.source in w.disk.objects && name in w.disk.quarantine
      && w.disk.objects[w.catalog.intents[name].operation.source].inode == w.disk.quarantine[name].inode
    case RecordMoved(_) =>
      || (PendingMove(w, name, Prepared)
          && w.catalog.intents[name].operation.source !in w.disk.objects && name in w.disk.quarantine)
      || (PendingPurge(w, name, Prepared) && name !in w.disk.quarantine)
    case FinalizeMove(_) => PendingMove(w, name, Moved)
    case UnlinkQuarantined(_) => PendingPurge(w, name, Prepared) && name in w.disk.quarantine
    case FinalizePurge(_) => PendingPurge(w, name, Moved)
  }

  predicate BackupEnabled(w: World, e: BackupStep) {
    var c := w.catalog;
    match e
    case PinSnapshot(sid, expired, _, _) =>
      && expired <= c.backups.Keys
      && (sid in c.backups.Keys - expired || |c.backups.Keys - expired| < MAX_BACKUP_SNAPSHOT_SESSIONS)
    case RenewBackup(sid, _) => sid in c.backups
    case ReleaseBackups(_) => true
  }

  /** Only the steps of a pending intent may run before it is finished. */
  predicate Enabled(w: World, e: Event) {
    match e
    case OfIntent(i) => IntentEnabled(w, i)
    case OfIngest(i) => w.catalog.intents == map[] && IngestEnabled(w, i)
    case OfUpkeep(u) => w.catalog.intents == map[] && UpkeepEnabled(w, u)
    case OfSession(s) => w.catalog.intents == map[] && SessionEnabled(w, s)
    case OfStart(s) => w.catalog.intents == map[] && StartEnabled(w, s)
    case OfBackup(b) => w.catalog.intents == map[] && BackupEnabled(w, b)
  }

  // ---------------------------------------------------------------- effects on the catalog

  function Max(a: int, b: int): int { if a >= b then a else b }

  /** `UPDATE asset_objects SET state` for one hash, where that row exists. */
  function SetState(objects: map<Hash, Row>, h: Hash, state: State): map<Hash, Row> {
    if h in objects then objects[h := objects[h].(state := state)] else objects
  }

  function Ingested(c: Catalog, h: Hash, size: nat, owner: Option<Owner>, now: int): Catalog {
    c.(objects := c.objects[h := Row(size, Active, if h in c.objects then c.objects[h].created else now)],
       refs := c.refs + (if owner.Some? then {Ref(owner.value, h)} else {}))
  }

  function Promoted(c: Catalog, o: Owner, f: Owner): Catalog {
    c.(refs := (c.refs - RefsOf(c, o)) + (set r | r in RefsOf(c, o) :: Ref(f, r.hash)),
       temporaries := c.temporaries - {o})
  }

  /** The transaction of one rollback round: the reference, and the row when nobody else refers to it. */
  function RolledBackRow(c: Catalog, o: Owner, h: Hash): Catalog {
    c.(refs := c.refs - {Ref(o, h)},
       objects := if ActiveRow(c, h) && !ReferencedByOther(c, h, o) then c.objects - {h} else c.objects)
  }

  function MoveFinalized(c: Catalog, name: Name): Catalog
    requires name in c.intents
  {
    var row := c.intents[name].row;
    c.(quarantine := c.quarantine[name := row],
       objects := if row.original.Some? then SetState(c.objects, row.original.value, Quarantined(name)) else c.objects,
       intents := c.intents - {name})
  }

  function PurgeFinalized(c: Catalog, name: Name): Catalog {
    c.(objects := (map h | h in c.objects ::
         if c.objects[h].state == Quarantined(name) then c.objects[h].(state := Missing) else c.objects[h]),
       quarantine := c.quarantine - {name},
       intents := c.intents - {name})
  }

  function Released(c: Catalog, sids: set<SessionId>): Catalog {
    c.(refs := (set r | r in c.refs && !(r.owner.ownerType == BACKUP_OWNER_TYPE && r.owner.ownerId in sids)),
       backups := c.backups - sids)
  }

  /** Stale sessions go, then the pins of the session, if it exists; then the active rows are pinned for it. */
  function PinnedCatalog(c: Catalog, sid: SessionId, expired: set<SessionId>, now: int): Catalog {
    var d := Released(c, expired);
    var cleared := if sid in d.backups then Released(d, {sid}) else d;
    cleared.(
      refs := cleared.refs + (set h | h in ActiveRows(c) :: Ref(BackupOwner(sid), h)),
      backups := d.backups[sid := if sid in d.backups then Max(d.backups[sid], now) else now])
  }

  function IngestApply(w: World, e: IngestStep): World
    requires IngestEnabled(w, e)
  {
    var c, d := w.catalog, w.disk;
    match e
    case AddStagingRow(name, now) => w.(catalog := c.(staging := c.staging[name := now]))
    case WriteStagingFile(name, file) => w.(disk := d.(staging := d.staging[name := file]))
    case LinkObject(name, h) => w.(disk := d.(objects := d.objects[Own(h) := d.staging[name]]))
    case CommitIngest(h, size, owner, now) => w.(catalog := Ingested(c, h, size, owner, now))
    case RemoveStagingFile(name) => w.(disk := d.(staging := d.staging - {name}))
    case RemoveStagingRow(name) => w.(catalog := c.(staging := c.staging - {name}))
  }

  function UpkeepApply(w: World, e: UpkeepStep): World
    requires UpkeepEnabled(w, e)
  {
    var c, d := w.catalog, w.disk;
    match e
    case AddReferences(refs) => w.(catalog := c.(refs := c.refs + refs))
    case RemoveReferences(refs) => w.(catalog := c.(refs := c.refs - refs))
    case SweepUnlink(h) => w.(disk := d.(objects := d.objects - {Own(h)}))
    case SweepRow(h) => w.(catalog := c.(objects := c.objects - {h}))
    case MarkMissing(h) => w.(catalog := c.(objects := SetState(c.objects, h, Missing)))
    case MarkActive(h) => w.(catalog := c.(objects := SetState(c.objects, h, Active)))
  }

  function SessionApply(w: World, e: SessionStep): World
    requires SessionEnabled(w, e)
  {
    var c, d := w.catalog, w.disk;
    match e
    case BeginSession(o, now) =>
      w.(catalog := c.(temporaries := c.temporaries[o := now]), issued := w.issued + {o})
    case RenewSession(o, now) =>
      w.(catalog := c.(temporaries := c.temporaries[o := Max(c.temporaries[o], now)]))
    case FinishSession(o) =>
      w.(catalog := c.(temporaries := c.temporaries - {o}), closed := w.closed + {o})
    case PromoteSession(o, f) => w.(catalog := Promoted(c, o, f), closed := w.closed + {o})
    case ClaimSession(o, _) => w.(catalog := c.(temporaries := c.temporaries - {o}))
    case RollbackUnlink(_, h) => w.(disk := d.(objects := d.objects - {Own(h)}))
    case RollbackRow(o, h) => w.(catalog := RolledBackRow(c, o, h))
    case EndSession(o) => w.(catalog := c.(temporaries := c.temporaries - {o}))
  }

  function StartApply(w: World, e: StartStep): World
    requires StartEnabled(w, e)
  {
    var c := w.catalog;
    match e
    case PrepareMove(name, source, reason, now) =>
      var row := QuarantineRow(OriginalHash(source), reason, now);
      w.(catalog := c.(intents := c.intents[name := Intent(Move(source), Prepared, row)]))
    case PreparePurge(name) =>
      w.(catalog := c.(intents := c.intents[name := Intent(Purge, Prepared, c.quarantine[name])]))
  }

  function IntentApply(w: World, e: IntentStep): World
    requires IntentEnabled(w, e)
  {
    var c, d := w.catalog, w.disk;
    match e
    case LinkQuarantine(name) =>
      w.(disk := d.(quarantine := d.quarantine[name := d.objects[c.intents[name].operation.source]]))
    case UnlinkSource(name) =>
      w.(disk := d.(objects := d.objects - {c.intents[name].operation.source}))
    case RecordMoved(name) =>
      w.(catalog := c.(intents := c.intents[name := c.intents[name].(phase := Moved)]))
    case FinalizeMove(name) => w.(catalog := MoveFinalized(c, name))
    case UnlinkQuarantined(name) => w.(disk := d.(quarantine := d.quarantine - {name}))
    case FinalizePurge(name) => w.(catalog := PurgeFinalized(c, name))
  }

  function BackupApply(w: World, e: BackupStep): World
    requires BackupEnabled(w, e)
  {
    var c := w.catalog;
    match e
    case PinSnapshot(sid, expired, now, written) =>
      var c' := PinnedCatalog(c, sid, expired, now);
      w.(catalog := c',
         snapshots := if written then (w.snapshots - expired)[sid := SnapshotOf(c')] else w.snapshots - expired - {sid})
    case RenewBackup(sid, now) =>
      w.(catalog := c.(backups := c.backups[sid := Max(c.backups[sid], now)]))
    case ReleaseBackups(sids) => w.(catalog := Released(c, sids), snapshots := w.snapshots - sids)
  }

  function Apply(w: World, e: Event): World
    requires Enabled(w, e)
  {
    match e
    case OfIngest(i) => IngestApply(w, i)
    case OfUpkeep(u) => UpkeepApply(w, u)
    case OfSession(s) => SessionApply(w, s)
    case OfStart(s) => StartApply(w, s)
    case OfIntent(i) => IntentApply(w, i)
    case OfBackup(b) => BackupApply(w, b)
  }

  /** The runs of a store, newest state last; a crash point is the last state of one. */
  datatype History = Begun(world: World) | Then(past: History, event: Event, world: World)

  predicate Legal(h: History) {
    h.Then? ==> Legal(h.past) && Enabled(h.past.world, h.event) && h.world == Apply(h.past.world, h.event)
  }

  function Origin(h: History): World {
    if h.Begun? then h.world else Origin(h.past)
  }

  // ---------------------------------------------------------------- what callers are asked to keep

  /**
   The store takes any owner. Its documentation asks callers to reserve some owner types for temporary
   owners, to give each session an id of its own, to admit for a temporary owner only during its session,
   and to commit to an owner of another kind; pins are the store's own.
  */
  predicate Permitted(reserved: set<string>, w: World, e: Event) {
    match e
    case OfIngest(CommitIngest(_, _, owner, _)) =>
      owner.Some? ==>
        && owner.value.ownerType != BACKUP_OWNER_TYPE
        && (owner.value.ownerType in reserved ==> owner.value in w.issued - w.closed)
    case OfUpkeep(AddReferences(refs)) =>
      forall r | r in refs :: r.owner.ownerType != BACKUP_OWNER_TYPE && r.owner.ownerType !in reserved
    case OfUpkeep(RemoveReferences(refs)) => forall r | r in refs :: r.owner.ownerType != BACKUP_OWNER_TYPE
    case OfSession(s) =>
      && s.owner.ownerType in reserved
      && (s.BeginSession? ==> s.owner !in w.issued)
      && (s.PromoteSession? ==> IsPermanent(reserved, s.final))
    case _ => true
  }

  /** Neither a backup pin's owner nor of a type reserved for temporary owners. */
  predicate IsPermanent(reserved: set<string>, o: Owner) {
    o.ownerType != BACKUP_OWNER_TYPE && o.ownerType !in reserved
  }

  /** Every event of the run was permitted. */
  predicate Disciplined(reserved: set<string>, h: History) {
    && BACKUP_OWNER_TYPE !in reserved
    && (h.Then? ==> Disciplined(reserved, h.past) && Permitted(reserved, h.past.world, h.event))
  }

  const EMPTY_WORLD := World(
    Catalog(map[], {}, map[], map[], map[], map[], map[]), Disk(map[], map[], map[]), {}, {}, map[])
}
