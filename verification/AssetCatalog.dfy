/**
The catalog database: its statements and the triggers that keep the single totals row.

Every statement changes a table row by row and each row change fires its trigger, so the totals are
maintained by increments only; `Ledger` says they equal what a recount of the tables would give.
*/
module AssetCatalog {
  import opened AssetModel

  datatype Totals = Totals(
    objectCount: int,
    activeBytes: int,
    referenceCount: int,
    missingCount: int,
    quarantineCount: int,
    stagingCount: int)

  // ---------------------------------------------------------------- the recount

  function ActiveSize(row: Row): nat { if row.state.Active? then row.size else 0 }

  function MissingOne(row: Row): nat { if row.state.Missing? then 1 else 0 }

  /** `sum(size)` over the active rows. */
  ghost function ActiveBytes(objects: map<Hash, Row>): nat {
    if objects == map[] then 0
    else var h :| h in objects; ActiveSize(objects[h]) + ActiveBytes(objects - {h})
  }

  /** `count(*)` over the missing rows. */
  ghost function MissingCount(objects: map<Hash, Row>): nat {
    if objects == map[] then 0
    else var h :| h in objects; MissingOne(objects[h]) + MissingCount(objects - {h})
  }

  /** Any row may be counted first. */
  lemma {:induction false} CountFirst(objects: map<Hash, Row>, h: Hash)
    requires h in objects
    ensures ActiveBytes(objects) == ActiveSize(objects[h]) + ActiveBytes(objects - {h})
    ensures MissingCount(objects) == MissingOne(objects[h]) + MissingCount(objects - {h})
    decreases |objects|
  {
    CountFirstActive(objects, h);
    CountFirstMissing(objects, h);
  }

  lemma {:induction false} CountFirstActive(objects: map<Hash, Row>, h: Hash)
    requires h in objects
    ensures ActiveBytes(objects) == ActiveSize(objects[h]) + ActiveBytes(objects - {h})
    decreases |objects|
  {
    var g :| g in objects && ActiveBytes(objects) == ActiveSize(objects[g]) + ActiveBytes(objects - {g});
    if g != h {
      CountFirstActive(objects - {g}, h);
      CountFirstActive(objects - {h}, g);
      assert objects - {g} - {h} == objects - {h} - {g};
    }
  }

  lemma {:induction false} CountFirstMissing(objects: map<Hash, Row>, h: Hash)
    requires h in objects
    ensures MissingCount(objects) == MissingOne(objects[h]) + MissingCount(objects - {h})
    decreases |objects|
  {
    var g :| g in objects && MissingCount(objects) == MissingOne(objects[g]) + MissingCount(objects - {g});
    if g != h {
      CountFirstMissing(objects - {g}, h);
      CountFirstMissing(objects - {h}, g);
      assert objects - {g} - {h} == objects - {h} - {g};
    }
  }

  /** Writing a row replaces its share of the sums. */
  lemma CountWritten(objects: map<Hash, Row>, h: Hash, row: Row)
    ensures var before := if h in objects then objects[h] else Row(0, Quarantined(""), 0);
      && ActiveBytes(objects[h := row]) == ActiveBytes(objects) - ActiveSize(before) + ActiveSize(row)
      && MissingCount(objects[h := row]) == MissingCount(objects) - MissingOne(before) + MissingOne(row)
  {
    CountFirst(objects[h := row], h);
    assert objects[h := row] - {h} == objects - {h};
    if h in objects {
      CountFirst(objects, h);
    } else {
      assert objects - {h} == objects;
    }
  }

  /** What `verify_derived_totals` recomputes. */
  ghost function Recount(c: Catalog): Totals {
    Totals(|c.objects|, ActiveBytes(c.objects), |c.refs|, MissingCount(c.objects), |c.quarantine|, |c.staging|)
  }

  lemma SizeWith<K, V>(m: map<K, V>, k: K, v: V)
    ensures |m[k := v]| == |m| + if k in m then 0 else 1
  {
  }

  lemma SizeWithout<K, V>(m: map<K, V>, k: K)
    ensures |m - {k}| == |m| - if k in m then 1 else 0
  {
  }

  // ---------------------------------------------------------------- the database

  class Database {
    var tables: Catalog
    var totals: Totals

    constructor (tables: Catalog)
      requires tables == EMPTY_WORLD.catalog
      ensures this.tables == tables && Ledger()
    {
      this.tables := tables;
      totals := Totals(0, 0, 0, 0, 0, 0);
    }

    /** A page-by-page copy of another database. */
    constructor CopyOf(source: Database)
      ensures tables == source.tables && totals == source.totals
    {
      tables, totals := source.tables, source.totals;
    }

    ghost predicate Ledger()
      reads this
    {
      totals == Recount(tables)
    }

    /** `INSERT … ON CONFLICT(hash) DO UPDATE`: the insert trigger or the update trigger fires. */
    method PutObject(h: Hash, row: Row)
      requires Ledger()
      modifies this
      ensures Ledger() && tables == old(tables).(objects := old(tables).objects[h := row])
    {
      CountWritten(tables.objects, h, row);
      SizeWith(tables.objects, h, row);
      hide ActiveBytes, MissingCount;
      if h in tables.objects {
        var was := tables.objects[h];
        totals := totals.(
          activeBytes := totals.activeBytes - ActiveSize(was) + ActiveSize(row),
          missingCount := totals.missingCount - MissingOne(was) + MissingOne(row));
      } else {
        totals := totals.(
          objectCount := totals.objectCount + 1,
          activeBytes := totals.activeBytes + ActiveSize(row),
          missingCount := totals.missingCount + MissingOne(row));
      }
      tables := tables.(objects := tables.objects[h := row]);
    }

    /** `UPDATE asset_objects SET state … WHERE hash`. */
    method UpdateState(h: Hash, state: State)
      requires Ledger()
      modifies this
      ensures Ledger() && tables == old(tables).(objects := SetState(old(tables).objects, h, state))
    {
      if h in tables.objects {
        PutObject(h, tables.objects[h].(state := state));
      }
    }

    /** `DELETE FROM asset_objects WHERE hash` of a row nothing refers to, so that no cascade follows. */
    method DeleteObject(h: Hash)
      requires Ledger() && h in tables.objects && !Referenced(tables, h)
      modifies this
      ensures Ledger() && tables == old(tables).(objects := old(tables).objects - {h})
    {
      CountFirst(tables.objects, h);
      SizeWithout(tables.objects, h);
      hide ActiveBytes, MissingCount;
      var was := tables.objects[h];
      totals := totals.(
        objectCount := totals.objectCount - 1,
        activeBytes := totals.activeBytes - ActiveSize(was),
        missingCount := totals.missingCount - MissingOne(was));
      tables := tables.(objects := tables.objects - {h});
    }

    /** `INSERT OR IGNORE INTO asset_refs`. */
    method InsertRef(r: Ref) returns (inserted: bool)
      requires Ledger()
      modifies this
      ensures Ledger() && tables == old(tables).(refs := old(tables).refs + {r})
      ensures inserted <==> r !in old(tables).refs
    {
      inserted := r !in tables.refs;
      if inserted {
        totals := totals.(referenceCount := totals.referenceCount + 1);
      } else {
        assert tables.refs + {r} == tables.refs;
      }
      tables := tables.(refs := tables.refs + {r});
    }

    /** `DELETE FROM asset_refs` for the given rows; the trigger fires once a row. */
    method DeleteRefs(doomed: set<Ref>) returns (removed: nat)
      requires Ledger()
      modifies this
      ensures Ledger() && tables == old(tables).(refs := old(tables).refs - doomed)
      ensures removed == |old(tables).refs * doomed|
    {
      removed := 0;
      var todo := tables.refs * doomed;
      while todo != {}
        invariant Ledger() && todo <= tables.refs
        invariant tables == old(tables).(refs := tables.refs)
        invariant tables.refs - todo == old(tables).refs - doomed && todo <= old(tables).refs * doomed
        invariant removed == |old(tables).refs * doomed| - |todo|
        decreases |todo|
      {
        var r :| r in todo;
        totals := totals.(referenceCount := totals.referenceCount - 1);
        tables := tables.(refs := tables.refs - {r});
        todo, removed := todo - {r}, removed + 1;
      }
      assert tables.refs == old(tables).refs - doomed;
    }

    /** `INSERT OR IGNORE … SELECT`: one row after the other. */
    method InsertRefs(rows: set<Ref>)
      requires Ledger()
      modifies this
      ensures Ledger() && tables == old(tables).(refs := old(tables).refs + rows)
    {
      var todo := rows;
      while todo != {}
        invariant Ledger() && tables == old(tables).(refs := tables.refs)
        invariant tables.refs + todo == old(tables).refs + rows
        decreases |todo|
      {
        var r :| r in todo;
        var _ := InsertRef(r);
        todo := todo - {r};
      }
      assert tables.refs == old(tables).refs + rows;
    }

    method InsertStaging(name: Name, now: int)
      requires Ledger() && name !in tables.staging
      modifies this
      ensures Ledger() && tables == old(tables).(staging := old(tables).staging[name := now])
    {
      SizeWith(tables.staging, name, now);
      hide ActiveBytes, MissingCount;
      totals := totals.(stagingCount := totals.stagingCount + 1);
      tables := tables.(staging := tables.staging[name := now]);
    }

    method DeleteStaging(name: Name)
      requires Ledger()
      modifies this
      ensures Ledger() && tables == old(tables).(staging := old(tables).staging - {name})
      ensures totals.activeBytes == old(totals.activeBytes)
    {
      if name in tables.staging {
        totals := totals.(stagingCount := totals.stagingCount - 1);
      }
      SizeWithout(tables.staging, name);
      hide ActiveBytes, MissingCount;
      tables := tables.(staging := tables.staging - {name});
    }

    /** `INSERT … ON CONFLICT(name) DO UPDATE`: only an insert counts. */
    method PutQuarantine(name: Name, row: QuarantineRow)
      requires Ledger()
      modifies this
      ensures Ledger() && tables == old(tables).(quarantine := old(tables).quarantine[name := row])
    {
      if name !in tables.quarantine {
        totals := totals.(quarantineCount := totals.quarantineCount + 1);
      }
      SizeWith(tables.quarantine, name, row);
      hide ActiveBytes, MissingCount;
      tables := tables.(quarantine := tables.quarantine[name := row]);
    }

    method DeleteQuarantine(name: Name)
      requires Ledger()
      modifies this
      ensures Ledger() && tables == old(tables).(quarantine := old(tables).quarantine - {name})
    {
      if name in tables.quarantine {
        totals := totals.(quarantineCount := totals.quarantineCount - 1);
      }
      SizeWithout(tables.quarantine, name);
      hide ActiveBytes, MissingCount;
      tables := tables.(quarantine := tables.quarantine - {name});
    }

    /** `UPDATE … SET state = 'missing' WHERE state = 'quarantined' AND quarantine_name`: one trigger a row. */
    method MissQuarantined(name: Name)
      requires Ledger()
      modifies this
      ensures Ledger()
      ensures tables == old(tables).(objects := PurgeFinalized(old(tables), name).objects)
    {
      var todo := set h | h in tables.objects && tables.objects[h].state == Quarantined(name);
      ghost var goal := PurgeFinalized(tables, name).objects;
      while todo != {}
        invariant Ledger() && tables == old(tables).(objects := tables.objects)
        invariant todo <= tables.objects.Keys && tables.objects.Keys == goal.Keys == old(tables).objects.Keys
        invariant forall h | h in todo :: old(tables).objects[h].state == Quarantined(name)
        invariant forall h | h in tables.objects ::
          tables.objects[h] == if h in todo then old(tables).objects[h] else goal[h]
        decreases |todo|
      {
        var h :| h in todo;
        UpdateState(h, Missing);
        todo := todo - {h};
      }
      assert tables.objects == goal;
    }

    /** Statements on the tables the totals do not count. */
    method SetUncounted(intents: map<Name, Intent>, backups: map<SessionId, int>, temporaries: map<Owner, int>)
      requires Ledger()
      modifies this
      ensures Ledger()
      ensures tables == old(tables).(intents := intents, backups := backups, temporaries := temporaries)
    {
      tables := tables.(intents := intents, backups := backups, temporaries := temporaries);
    }
  }
}
