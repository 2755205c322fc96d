/**
  Copying a snapshot's objects into an export package: what one step does to the object files and to the
  journal's counters, and what every step keeps.
*/
module BackupExport {
  import opened Wrappers
  import opened Ordering
  import opened BackupCatalog

  type Content = string

  /** What the journal remembers of the copying. */
  datatype Tally = Tally(cursor: Option<string>, objects: nat, bytes: nat)

  const NOTHING := Tally(None, 0, 0)

  /** Objects by hash, half-written copies by hash, and the journal's counters. */
  datatype Copies = Copies(files: map<string, Content>, temps: map<string, Content>, tally: Tally)

  /** The snapshot to export, with the hash function its rows were computed by. */
  datatype Snapshot = Snapshot(rows: seq<Row>, hashOf: Content -> string)

  predicate Good(snap: Snapshot, content: Content, row: Row) {
    snap.hashOf(content) == row.hash && |content| == row.size
  }

  /** Each acts on the first row the journal has not counted. */
  datatype CopyStep = RemoveBadTarget | RemoveTemp | CreateTemp | WriteTemp(content: Content) | RenameTemp | Advance

  predicate CanCopy(snap: Snapshot, c: Copies, s: CopyStep) {
    && c.tally.objects < |snap.rows|
    && var row := snap.rows[c.tally.objects];
    match s
    case RemoveBadTarget => row.hash in c.files && !Good(snap, c.files[row.hash], row)
    case RemoveTemp => row.hash in c.temps
    case CreateTemp => row.hash !in c.temps && row.hash !in c.files
    case WriteTemp(_) => row.hash in c.temps
    case RenameTemp => row.hash in c.temps && Good(snap, c.temps[row.hash], row)
    case Advance => row.hash in c.files && Good(snap, c.files[row.hash], row)
  }

  function Copied(snap: Snapshot, c: Copies, s: CopyStep): Copies
    requires c.tally.objects < |snap.rows|
    requires s.RenameTemp? ==> snap.rows[c.tally.objects].hash in c.temps
  {
    var row := snap.rows[c.tally.objects];
    match s
    case RemoveBadTarget => c.(files := c.files - {row.hash})
    case RemoveTemp => c.(temps := c.temps - {row.hash})
    case CreateTemp => c.(temps := c.temps[row.hash := ""])
    case WriteTemp(content) => c.(temps := c.temps[row.hash := content])
    case RenameTemp => c.(files := c.files[row.hash := c.temps[row.hash]], temps := c.temps - {row.hash})
    case Advance =>
      c.(tally := Tally(Some(row.hash), c.tally.objects + 1, c.tally.bytes + row.size))
  }

  // --------------------------------------------------------------- invariant

  /** The journal counts exactly the rows up to its cursor, and each of them is in place. */
  ghost predicate Counted(snap: Snapshot, c: Copies) {
    && var k := c.tally.objects;
    && k <= |snap.rows|
    && c.tally.cursor == CursorAt(snap.rows, k)
    && c.tally.bytes == Bytes(snap.rows[..k])
    && forall i | 0 <= i < k :: snap.rows[i].hash in c.files && Good(snap, c.files[snap.rows[i].hash], snap.rows[i])
  }

  /** One of the first `k + 1` rows has the hash. */
  ghost predicate Listed(rows: seq<Row>, k: nat, h: string) {
    exists i | 0 <= i < |rows| && i <= k :: rows[i].hash == h
  }

  /** Nothing lies in the package but counted objects and work on the next row. */
  ghost predicate Tidy(snap: Snapshot, c: Copies) {
    && (forall h | h in c.files :: Listed(snap.rows, c.tally.objects, h))
    && (forall h | h in c.temps :: c.tally.objects < |snap.rows| && h == snap.rows[c.tally.objects].hash)
    && (c.tally.objects < |snap.rows| ==>
          var row := snap.rows[c.tally.objects];
          row.hash in c.files ==> Good(snap, c.files[row.hash], row) && row.hash !in c.temps)
  }

  lemma StepKeepsCounted(snap: Snapshot, c: Copies, s: CopyStep)
    requires RowsOk(snap.rows) && Counted(snap, c) && CanCopy(snap, c, s)
    ensures Counted(snap, Copied(snap, c, s))
  {
    var k := c.tally.objects;
    assert snap.rows[..k + 1][..k] == snap.rows[..k];
    forall i | 0 <= i < k ensures snap.rows[i].hash != snap.rows[k].hash {
      LessIrreflexive(snap.rows[k].hash);
      assert Less(snap.rows[i].hash, snap.rows[k].hash);
    }
  }

  lemma AdvanceKeepsTidy(snap: Snapshot, c: Copies)
    requires RowsOk(snap.rows) && Tidy(snap, c) && CanCopy(snap, c, Advance)
    ensures Tidy(snap, Copied(snap, c, Advance))
  {
    var k, q := c.tally.objects, Copied(snap, c, Advance);
    assert q.temps == map[] by {
      assert snap.rows[k].hash !in c.temps;
    }
    forall h | h in q.files ensures Listed(snap.rows, k + 1, h) {
      assert Listed(snap.rows, k, h);
    }
    if k + 1 < |snap.rows| {
      NotYetListed(snap.rows, k);
      assert snap.rows[k + 1].hash !in q.files;
    }
    hide Listed, RowsOk, Good;
  }

  lemma WorkKeepsTidy(snap: Snapshot, c: Copies, s: CopyStep)
    requires Tidy(snap, c) && CanCopy(snap, c, s) && !s.Advance?
    ensures Tidy(snap, Copied(snap, c, s))
  {
  }

  lemma StepKeepsTidy(snap: Snapshot, c: Copies, s: CopyStep)
    requires RowsOk(snap.rows) && Tidy(snap, c) && CanCopy(snap, c, s)
    ensures Tidy(snap, Copied(snap, c, s))
  {
    hide Tidy, RowsOk, Good;
    if s.Advance? { AdvanceKeepsTidy(snap, c); } else { WorkKeepsTidy(snap, c, s); }
  }

  lemma NotYetListed(rows: seq<Row>, k: nat)
    requires RowsOk(rows) && k + 1 < |rows|
    ensures !Listed(rows, k, rows[k + 1].hash)
  {
    forall i | 0 <= i <= k ensures rows[i].hash != rows[k + 1].hash {
      LessIrreflexive(rows[i].hash);
      assert Less(rows[i].hash, rows[k + 1].hash);
    }
  }

  lemma NothingCounted(snap: Snapshot)
    ensures Counted(snap, Copies(map[], map[], NOTHING)) && Tidy(snap, Copies(map[], map[], NOTHING))
  {
  }

  /** The counters say everything is copied exactly when the cursor is at the last row. */
  lemma CursorAtEnd(snap: Snapshot, c: Copies)
    requires RowsOk(snap.rows) && Counted(snap, c)
    ensures c.tally.objects == |snap.rows| <==> c.tally.cursor == CursorAt(snap.rows, |snap.rows|)
  {
    hide Good;
    var rows, k := snap.rows, c.tally.objects;
    if 0 < k < |rows| {
      LessIrreflexive(rows[k - 1].hash);
      assert Less(rows[k - 1].hash, rows[|rows| - 1].hash);
    }
  }

  /** Counters never pass the snapshot's totals. */
  lemma {:induction false} PrefixBytes(rows: seq<Row>, k: nat)
    requires k <= |rows|
    ensures Bytes(rows[..k]) <= Bytes(rows)
  {
    if k == |rows| {
      assert rows[..k] == rows;
    } else {
      PrefixBytes(rows[..|rows| - 1], k);
      assert rows[..|rows| - 1][..k] == rows[..k];
    }
  }

  /** The store can supply an object for every row; `BackupSupply` shows when it can. */
  ghost predicate Supplies(snap: Snapshot, assets: map<string, Content>) {
    forall row | row in snap.rows :: row.hash in assets && Good(snap, assets[row.hash], row)
  }

  ghost predicate PathsDerived(rows: seq<Row>) {
    forall row | row in rows :: |row.hash| >= 4 && row.relativePath == ObjectRelative(row.hash)
  }

  ghost function Hashes(rows: seq<Row>): set<string> {
    set row | row in rows :: row.hash
  }

  lemma NextPage(snap: Snapshot, c: Copies)
    requires RowsOk(snap.rows) && Counted(snap, c)
    ensures c.tally.objects <= |snap.rows|
    ensures Page(snap.rows, c.tally.cursor) <= snap.rows[c.tally.objects..]
    ensures Page(snap.rows, c.tally.cursor) == [] ==> c.tally.objects == |snap.rows|
  {
    PageResumes(snap.rows, c.tally.objects);
  }

  lemma Totals(snap: Snapshot, c: Copies)
    requires Counted(snap, c) && c.tally.objects == |snap.rows|
    ensures c.tally == Tally(CursorAt(snap.rows, |snap.rows|), |snap.rows|, Bytes(snap.rows))
  {
    assert snap.rows[..|snap.rows|] == snap.rows;
  }

  /** A complete tidy package holds the snapshot's objects and nothing else. */
  lemma CompleteIsExact(snap: Snapshot, c: Copies)
    requires Counted(snap, c) && c.tally.objects == |snap.rows|
    ensures Tidy(snap, c) ==> c.files.Keys == Hashes(snap.rows) && c.temps == map[]
  {
  }
}
