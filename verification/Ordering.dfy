/** The byte order of strings, and sorting by a strict total order. */
module Ordering {
  import opened Wrappers

  /** Lexicographic order, as Rust compares strings. */
  predicate Less(a: string, b: string) {
    if b == [] then false
    else if a == [] then true
    else a[0] < b[0] || (a[0] == b[0] && Less(a[1..], b[1..]))
  }

  lemma {:induction false} LessIrreflexive(a: string)
    ensures !Less(a, a)
  {
    if a != [] { LessIrreflexive(a[1..]); }
  }

  lemma {:induction false} LessTransitive(a: string, b: string, c: string)
    requires Less(a, b) && Less(b, c)
    ensures Less(a, c)
  {
    if a != [] && a[0] == b[0] == c[0] { LessTransitive(a[1..], b[1..], c[1..]); }
  }

  lemma {:induction false} LessTotal(a: string, b: string)
    ensures a == b || Less(a, b) || Less(b, a)
  {
    if a != [] && b != [] && a[0] == b[0] {
      LessTotal(a[1..], b[1..]);
      assert a == [a[0]] + a[1..] && b == [b[0]] + b[1..];
    }
  }

  // ---------------------------------------------------------------- sorting

  /** `less` orders the elements of `xs` strictly and totally. */
  ghost predicate Orders<T(!new)>(less: (T, T) -> bool, xs: set<T>) {
    && (forall x | x in xs :: !less(x, x))
    && (forall x, y | x in xs && y in xs :: x == y || less(x, y) || less(y, x))
    && (forall x, y, z | x in xs && y in xs && z in xs && less(x, y) && less(y, z) :: less(x, z))
  }

  ghost predicate StrictlySorted<T(!new)>(less: (T, T) -> bool, s: seq<T>) {
    forall i, j | 0 <= i < j < |s| :: less(s[i], s[j])
  }

  ghost function Elements<T>(s: seq<T>): set<T> { set x | x in s }

  function Insert<T(!new)>(less: (T, T) -> bool, x: T, s: seq<T>): seq<T> {
    if s == [] || !less(s[0], x) then [x] + s else [s[0]] + Insert(less, x, s[1..])
  }

  /** The library sort: any correct sort gives this result, by `SortedUnique`. */
  function Sort<T(!new)>(less: (T, T) -> bool, s: seq<T>): seq<T> {
    if s == [] then [] else Insert(less, s[0], Sort(less, s[1..]))
  }

  lemma {:induction false} InsertElements<T(!new)>(less: (T, T) -> bool, x: T, s: seq<T>)
    ensures multiset(Insert(less, x, s)) == multiset(s) + multiset{x}
    ensures Elements(Insert(less, x, s)) == Elements(s) + {x}
    ensures |Insert(less, x, s)| == |s| + 1
  {
    var r := Insert(less, x, s);
    if s != [] && less(s[0], x) {
      InsertElements(less, x, s[1..]);
      assert s == [s[0]] + s[1..];
      assert multiset(r) == multiset{s[0]} + multiset(Insert(less, x, s[1..]));
    } else {
      assert r == [x] + s;
    }
    assert |multiset(r)| == |s| + 1;
    forall y ensures y in Elements(r) <==> y in Elements(s) + {x} {
      assert y in r <==> y in multiset(r);
      assert y in s <==> y in multiset(s);
    }
  }

  lemma {:induction false} SortElements<T(!new)>(less: (T, T) -> bool, s: seq<T>)
    ensures multiset(Sort(less, s)) == multiset(s)
    ensures Elements(Sort(less, s)) == Elements(s) && |Sort(less, s)| == |s|
  {
    if s != [] {
      SortElements(less, s[1..]);
      InsertElements(less, s[0], Sort(less, s[1..]));
      assert s == [s[0]] + s[1..];
    }
  }

  lemma {:induction false} InsertSorts<T(!new)>(less: (T, T) -> bool, x: T, s: seq<T>)
    requires StrictlySorted(less, s) && Orders(less, Elements(s) + {x}) && x !in s
    ensures StrictlySorted(less, Insert(less, x, s))
  {
    var r := Insert(less, x, s);
    if s == [] {
    } else if !less(s[0], x) {
      assert s[0] in Elements(s);
      assert less(x, s[0]);
      forall j | 0 <= j < |s| ensures less(x, s[j]) {
        assert s[j] in Elements(s);
        if j > 0 { assert less(s[0], s[j]); }
      }
    } else {
      InsertElements(less, x, s[1..]);
      assert Elements(s[1..]) <= Elements(s);
      InsertSorts(less, x, s[1..]);
      var t := Insert(less, x, s[1..]);
      forall j | 0 <= j < |t| ensures less(s[0], t[j]) {
        assert t[j] in Elements(t);
        if t[j] != x {
          var k :| 0 <= k < |s[1..]| && s[1..][k] == t[j];
          assert less(s[0], s[k + 1]);
        }
      }
    }
  }

  predicate Distinct<T(==)>(s: seq<T>) {
    forall i, j | 0 <= i < j < |s| :: s[i] != s[j]
  }

  lemma {:induction false} SortSorts<T(!new)>(less: (T, T) -> bool, s: seq<T>)
    requires Distinct(s) && Orders(less, Elements(s))
    ensures StrictlySorted(less, Sort(less, s))
  {
    if s != [] {
      assert Elements(s[1..]) <= Elements(s);
      SortSorts(less, s[1..]);
      SortElements(less, s[1..]);
      var t := Sort(less, s[1..]);
      assert s[0] !in t by {
        assert forall x :: x in t <==> x in Elements(t);
        assert forall x :: x in s[1..] <==> x in Elements(s[1..]);
      }
      assert Elements(t) + {s[0]} == Elements(s);
      InsertSorts(less, s[0], t);
    }
  }

  lemma NonEmpty<T>(s: seq<T>)
    requires s != []
    ensures Elements(s) != {}
  {
    assert s[0] in Elements(s);
  }

  /** A strictly sorted sequence is determined by its elements. */
  lemma {:induction false} SortedUnique<T(!new)>(less: (T, T) -> bool, a: seq<T>, b: seq<T>)
    requires StrictlySorted(less, a) && StrictlySorted(less, b)
    requires Elements(a) == Elements(b) && Orders(less, Elements(a))
    ensures a == b
  {
    if a == [] {
      if b != [] { NonEmpty(b); }
    } else {
      NonEmpty(a);
      var x, y := a[0], b[0];
      assert x in Elements(a) && y in Elements(b);
      var i :| 0 <= i < |b| && b[i] == x;
      var j :| 0 <= j < |a| && a[j] == y;
      assert i == 0 || less(y, x);
      assert j == 0 || less(x, y);
      assert Elements(a[1..]) == Elements(a) - {a[0]} by { TailElements(less, a); }
      assert Elements(b[1..]) == Elements(b) - {b[0]} by { TailElements(less, b); }
      SortedUnique(less, a[1..], b[1..]);
      assert a == [a[0]] + a[1..] && b == [b[0]] + b[1..];
    }
  }

  lemma TailElements<T(!new)>(less: (T, T) -> bool, a: seq<T>)
    requires a != [] && StrictlySorted(less, a) && Orders(less, Elements(a))
    ensures Elements(a[1..]) == Elements(a) - {a[0]}
  {
  }

  /** Sorting forgets the order of its input. */
  lemma SortForgetsOrder<T(!new)>(less: (T, T) -> bool, a: seq<T>, b: seq<T>)
    requires Distinct(a) && Distinct(b) && Elements(a) == Elements(b) && Orders(less, Elements(a))
    ensures Sort(less, a) == Sort(less, b)
  {
    SortSorts(less, a);
    SortSorts(less, b);
    SortElements(less, a);
    SortElements(less, b);
    SortedUnique(less, Sort(less, a), Sort(less, b));
  }

  function Filter<T>(keep: T -> bool, s: seq<T>): seq<T> {
    if s == [] then [] else (if keep(s[0]) then [s[0]] else []) + Filter(keep, s[1..])
  }

  lemma {:induction false} FilterElements<T(!new)>(keep: T -> bool, s: seq<T>)
    ensures forall x :: x in Filter(keep, s) <==> x in s && keep(x)
    ensures Distinct(s) ==> Distinct(Filter(keep, s))
  {
    if s != [] {
      FilterElements(keep, s[1..]);
      assert s == [s[0]] + s[1..];
      var rest := Filter(keep, s[1..]);
      if Distinct(s) {
        assert Distinct(s[1..]) && s[0] !in s[1..];
        assert forall i | 0 <= i < |rest| :: rest[i] in rest;
      }
    }
  }

  // -------------------------------------------- sorted sets of strings

  lemma LessOrders(xs: set<string>)
    ensures Orders(Less, xs)
  {
    forall x | x in xs ensures !Less(x, x) { LessIrreflexive(x); }
    forall x, y | x in xs && y in xs ensures x == y || Less(x, y) || Less(y, x) { LessTotal(x, y); }
    forall x, y, z | x in xs && y in xs && z in xs && Less(x, y) && Less(y, z) ensures Less(x, z) {
      LessTransitive(x, y, z);
    }
  }

  /** Inserting into a sorted set of strings. */
  function Add(items: seq<string>, p: string): (r: seq<string>)
    requires StrictlySorted(Less, items)
    ensures StrictlySorted(Less, r)
    ensures forall q :: q in r <==> q in items || q == p
  {
    if p in items then items
    else
      InsertElements(Less, p, items);
      LessOrders(Elements(items) + {p});
      InsertSorts(Less, p, items);
      var r := Insert(Less, p, items);
      assert forall q :: q in r <==> q in Elements(r);
      assert forall q :: q in items <==> q in Elements(items);
      r
  }

  /** Binary search in a sorted list. */
  method Lookup(items: seq<string>, p: string) returns (r: Option<nat>)
    requires StrictlySorted(Less, items)
    ensures r.Some? <==> p in items
    ensures r.Some? ==> r.value < |items| && items[r.value] == p
  {
    var lo, hi := 0, |items|;
    while lo < hi
      invariant lo <= hi <= |items|
      invariant forall i | 0 <= i < lo :: Less(items[i], p)
      invariant forall i | hi <= i < |items| :: Less(p, items[i])
    {
      var mid := (lo + hi) / 2;
      if items[mid] == p { return Some(mid); }
      if Less(items[mid], p) {
        forall i | 0 <= i < mid + 1 ensures Less(items[i], p) {
          if i < mid { LessTransitive(items[i], items[mid], p); }
        }
        lo := mid + 1;
      } else {
        LessTotal(items[mid], p);
        forall i | mid <= i < |items| ensures Less(p, items[i]) {
          if mid < i { LessTransitive(p, items[mid], items[i]); }
        }
        hi := mid;
      }
    }
    LessIrreflexive(p);
    return None;
  }
}
