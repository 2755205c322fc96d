/** The active rows of an asset catalog snapshot, read page by page in hash order. */
module BackupCatalog {
  import opened Wrappers
  import opened Ordering

  datatype Row = Row(hash: string, size: nat, relativePath: string)

  const OBJECT_PAGE_SIZE: nat := 512
  const MAX_BACKUP_ASSET_OBJECTS: nat := 100_000

  predicate IsHexDigit(c: char) { '0' <= c <= '9' || 'a' <= c <= 'f' }

  predicate IsHex(s: string) { forall i | 0 <= i < |s| :: IsHexDigit(s[i]) }

  predicate IsHash(s: string) { |s| == 64 && IsHex(s) }

  /** A snapshot's active rows: real hashes in strictly increasing order. */
  ghost predicate RowsOk(rows: seq<Row>) {
    && (forall i | 0 <= i < |rows| :: IsHash(rows[i].hash))
    && forall i, j | 0 <= i < j < |rows| :: Less(rows[i].hash, rows[j].hash)
  }

  function Bytes(rows: seq<Row>): nat {
    if rows == [] then 0 else Bytes(rows[..|rows| - 1]) + rows[|rows| - 1].size
  }

  // ---------------------------------------------------------------- paging

  /** The rows with a hash beyond the cursor, in order. */
  function Beyond(rows: seq<Row>, cursor: Option<string>): seq<Row> {
    if rows == [] then []
    else if cursor.None? || Less(cursor.value, rows[0].hash) then [rows[0]] + Beyond(rows[1..], cursor)
    else Beyond(rows[1..], cursor)
  }

  /** One page of a keyset query. */
  function Page(rows: seq<Row>, cursor: Option<string>): seq<Row> {
    var beyond := Beyond(rows, cursor);
    if |beyond| <= OBJECT_PAGE_SIZE then beyond else beyond[..OBJECT_PAGE_SIZE]
  }

  /** The cursor after the first `k` rows. */
  function CursorAt(rows: seq<Row>, k: nat): Option<string>
    requires k <= |rows|
  {
    if k == 0 then None else Some(rows[k - 1].hash)
  }

  lemma {:induction false} BeyondNone(rows: seq<Row>)
    ensures Beyond(rows, None) == rows
  {
    if rows != [] { BeyondNone(rows[1..]); }
  }

  lemma {:induction false} BeyondAll(rows: seq<Row>, cursor: string)
    requires forall i | 0 <= i < |rows| :: Less(cursor, rows[i].hash)
    ensures Beyond(rows, Some(cursor)) == rows
  {
    if rows != [] { BeyondAll(rows[1..], cursor); }
  }

  lemma {:induction false} BeyondRow(rows: seq<Row>, k: nat)
    requires 0 < k <= |rows| && forall i, j | 0 <= i < j < |rows| :: Less(rows[i].hash, rows[j].hash)
    ensures Beyond(rows, Some(rows[k - 1].hash)) == rows[k..]
  {
    var cursor := rows[k - 1].hash;
    assert !Less(cursor, rows[0].hash) by {
      LessIrreflexive(cursor);
      if k > 1 && Less(cursor, rows[0].hash) {
        LessTransitive(rows[0].hash, cursor, rows[0].hash);
        LessIrreflexive(rows[0].hash);
      }
    }
    var rest := rows[1..];
    if k == 1 {
      BeyondAll(rest, cursor);
    } else {
      assert rest[k - 2] == rows[k - 1];
      BeyondRow(rest, k - 1);
      assert rest[k - 1..] == rows[k..];
    }
  }

  /** Reading from a cursor resumes exactly after the row it names. */
  lemma PageResumes(rows: seq<Row>, k: nat)
    requires RowsOk(rows) && k <= |rows|
    ensures Page(rows, CursorAt(rows, k)) ==
      rows[k..if |rows| - k <= OBJECT_PAGE_SIZE then |rows| else k + OBJECT_PAGE_SIZE]
  {
    if k == 0 { BeyondNone(rows); } else { BeyondRow(rows, k); }
    assert Beyond(rows, CursorAt(rows, k)) == rows[k..];
  }

  // ------------------------------------------------------------------ paths

  /** Where a package stores an object. */
  function ObjectRelative(hash: string): string
    requires |hash| >= 4
  {
    "objects/" + hash[..2] + "/" + hash[2..4] + "/" + hash
  }

  function ObjectPath(hash: string): string
    requires |hash| >= 4
  {
    "data/assets/" + ObjectRelative(hash)
  }

  lemma {:induction false} LessAfter(x: string, s: string, y: string, t: string)
    requires |x| == |y|
    ensures Less(x + s, y + t) <==> Less(x, y) || (x == y && Less(s, t))
  {
    if x == [] {
      assert x + s == s && y + t == t;
    } else {
      LessAfter(x[1..], s, y[1..], t);
      assert (x + s)[1..] == x[1..] + s && (y + t)[1..] == y[1..] + t;
      assert x == [x[0]] + x[1..] && y == [y[0]] + y[1..];
    }
  }

  function Sharded(prefix: string, a: string, b: string, name: string): string {
    prefix + (a + ("/" + (b + ("/" + name))))
  }

  lemma LessSharded(prefix: string, a: string, b: string, name: string, c: string, d: string, other: string)
    requires |a| == |c| && |b| == |d|
    ensures Less(Sharded(prefix, a, b, name), Sharded(prefix, c, d, other)) <==>
      Less(a, c) || (a == c && (Less(b, d) || (b == d && Less(name, other))))
  {
    LessIrreflexive(prefix);
    LessIrreflexive("/");
    hide Less;
    var s, t := b + ("/" + name), d + ("/" + other);
    LessAfter(prefix, a + ("/" + s), prefix, c + ("/" + t));
    LessAfter(a, "/" + s, c, "/" + t);
    LessAfter("/", s, "/", t);
    LessAfter(b, "/" + name, d, "/" + other);
    LessAfter("/", name, "/", other);
  }

  /** Objects come in the same order by path as by hash. */
  lemma PathOrderIsHashOrder(a: string, b: string)
    requires IsHash(a) && IsHash(b)
    ensures Less(ObjectPath(a), ObjectPath(b)) <==> Less(a, b)
  {
    ObjectPathIsSharded(a);
    ObjectPathIsSharded(b);
    hide Less, ObjectPath, Sharded;
    assert a == a[..2] + (a[2..4] + a[4..]) && b == b[..2] + (b[2..4] + b[4..]);
    LessAfter(a[..2], a[2..4] + a[4..], b[..2], b[2..4] + b[4..]);
    LessAfter(a[2..4], a[4..], b[2..4], b[4..]);
    LessSharded("data/assets/objects/", a[..2], a[2..4], a, b[..2], b[2..4], b);
  }

  lemma ObjectPathIsSharded(hash: string)
    requires |hash| >= 4
    ensures ObjectPath(hash) == Sharded("data/assets/objects/", hash[..2], hash[2..4], hash)
  {
  }
}
