/** Selecting entries through the indexes, and the index-free scan it agrees with. */
module LoreSelect {
  import opened Wrappers
  import opened Digests
  import opened Ordering
  import opened LoreModel
  import opened LoreCompile

  datatype LimitKind = LiteralMatchEvents | RegexEvaluations | RegexScanBytes | RegexMatches

  /** The cache key. A receipt carries its hash, which stands for the key itself. */
  datatype CacheKey = CacheKey(
    catalogRevision: U64, generation: U64, chatRevision: U64, branchRevision: U64, searchDepth: nat, seed: U64,
    tokenizer: Digest, settings: Digest, slice: Digest)

  datatype Receipt = Receipt(
    catalogRevision: U64, chatRevision: U64, branchRevision: U64, fingerprint: CacheKey, cacheHit: bool,
    candidateCount: nat, matchedCount: nat, selectedIds: seq<string>, selectedTokens: nat, selectedBytes: nat,
    literalEvents: nat, work: Work)

  datatype Selection = Selection(promptText: string, receipt: Receipt)

  // ---------------------------------------------------------- literal events

  /** How many of the first `k` patterns end at `end`. */
  function EventsAt(patterns: seq<string>, text: string, end: nat, k: nat): nat
    requires k <= |patterns|
  {
    if k == 0 then 0
    else EventsAt(patterns, text, end, k - 1) + if EndsAt(patterns[k - 1], text, end) then 1 else 0
  }

  /** Occurrences, overlapping ones included, that end before `n`. */
  function EventsBefore(patterns: seq<string>, text: string, n: nat): nat {
    if n == 0 then 0 else EventsBefore(patterns, text, n - 1) + EventsAt(patterns, text, n - 1, |patterns|)
  }

  function Events(patterns: seq<string>, text: string): nat {
    EventsBefore(patterns, text, |text| + 1)
  }

  class LiteralWork {
    var events: nat
    const maxEvents: nat

    constructor (maxEvents: nat)
      ensures events == 0 && this.maxEvents == maxEvents
    {
      events := 0;
      this.maxEvents := maxEvents;
    }

    method Charge() returns (r: Result<(), LimitKind>)
      modifies this
      ensures events == old(events) + 1
      ensures r.Success? <==> events <= maxEvents
      ensures r.Failure? ==> r.error == LiteralMatchEvents
    {
      events := events + 1;
      if events > maxEvents { return Failure(LiteralMatchEvents); }
      return Success(());
    }
  }

  /** `hits` marks the patterns seen ending before `n`, and the first `k` of those ending at `n`. */
  ghost predicate Marks(patterns: seq<string>, text: string, n: nat, k: nat, hits: seq<bool>) {
    && |hits| == |patterns|
    && forall j | 0 <= j < |hits| :: hits[j] <==>
         (exists end | 0 <= end < n :: EndsAt(patterns[j], text, end)) || (j < k && EndsAt(patterns[j], text, n))
  }

  /** The patterns that end at one position, each charged once. */
  method MatchAt(patterns: seq<string>, text: string, end: nat, before: seq<bool>, work: LiteralWork)
    returns (r: Result<seq<bool>, LimitKind>)
    requires Marks(patterns, text, end, 0, before) && work.events <= work.maxEvents
    modifies work
    ensures r.Success? ==> work.events == old(work.events) + EventsAt(patterns, text, end, |patterns|) <= work.maxEvents
    ensures r.Success? ==> Marks(patterns, text, end + 1, 0, r.value)
    ensures r.Failure? ==> r.error == LiteralMatchEvents
    ensures r.Failure? ==> old(work.events) + EventsAt(patterns, text, end, |patterns|) > work.maxEvents
  {
    var hits := before;
    for k := 0 to |patterns|
      invariant work.events == old(work.events) + EventsAt(patterns, text, end, k) <= work.maxEvents
      invariant Marks(patterns, text, end, k, hits)
    {
      EventsAtGrows(patterns, text, end, k + 1);
      if EndsAt(patterns[k], text, end) {
        var charged := work.Charge();
        if charged.Failure? { return Failure(charged.error); }
        hits := hits[k := true];
      }
    }
    return Success(hits);
  }

  lemma {:induction false} EventsAtGrows(patterns: seq<string>, text: string, end: nat, k: nat)
    requires k <= |patterns|
    ensures EventsAt(patterns, text, end, k) <= EventsAt(patterns, text, end, |patterns|)
    decreases |patterns| - k
  {
    if k < |patterns| { EventsAtGrows(patterns, text, end, k + 1); }
  }

  lemma {:induction false} EventsGrow(patterns: seq<string>, text: string, n: nat, m: nat)
    requires n <= m
    ensures EventsBefore(patterns, text, n) <= EventsBefore(patterns, text, m)
    decreases m - n
  {
    if n < m { EventsGrow(patterns, text, n + 1, m); }
  }

  /** All overlapping occurrences: which patterns occur, charging each occurrence against the limit. */
  method MatchPatterns(patterns: seq<string>, text: string, work: LiteralWork) returns (r: Result<seq<bool>, LimitKind>)
    requires work.events <= work.maxEvents
    modifies work
    ensures r.Success? ==> work.events == old(work.events) + Events(patterns, text) <= work.maxEvents
    ensures r.Success? ==> |r.value| == |patterns|
    ensures r.Success? ==> forall k | 0 <= k < |patterns| :: r.value[k] <==> Occurs(patterns[k], text)
    ensures r.Failure? ==> r.error == LiteralMatchEvents
    ensures r.Failure? ==> old(work.events) + Events(patterns, text) > work.maxEvents
  {
    var hits := seq(|patterns|, i => false);
    for end := 0 to |text| + 1
      invariant work.events == old(work.events) + EventsBefore(patterns, text, end) <= work.maxEvents
      invariant Marks(patterns, text, end, 0, hits)
    {
      EventsGrow(patterns, text, end + 1, |text| + 1);
      var more := MatchAt(patterns, text, end, hits, work);
      if more.Failure? { return Failure(more.error); }
      hits := more.value;
    }
    return Success(hits);
  }

  // -------------------------------------------------------------- candidates

  /** `seen` flags exactly the listed candidates, each listed once. */
  ghost predicate Tracks(seen: seq<bool>, candidates: seq<nat>) {
    && Distinct(candidates)
    && (forall i | i in candidates :: i < |seen|)
    && forall i | 0 <= i < |seen| :: seen[i] <==> i in candidates
  }

  method AddCandidate(entry: nat, seen: array<bool>, candidates: seq<nat>) returns (r: seq<nat>)
    requires entry < seen.Length && Tracks(seen[..], candidates)
    modifies seen
    ensures Tracks(seen[..], r)
    ensures forall i :: i in r <==> i in candidates || i == entry
  {
    if seen[entry] { return candidates; }
    seen[entry] := true;
    r := candidates + [entry];
    assert forall i :: i in r <==> i in candidates || i == entry;
  }

  method AddCandidates(entries: seq<nat>, seen: array<bool>, candidates: seq<nat>) returns (r: seq<nat>)
    requires (forall e | e in entries :: e < seen.Length) && Tracks(seen[..], candidates)
    modifies seen
    ensures Tracks(seen[..], r)
    ensures forall i :: i in r <==> i in candidates || i in entries
  {
    r := candidates;
    for j := 0 to |entries|
      invariant Tracks(seen[..], r)
      invariant forall i :: i in r <==> i in candidates || i in entries[..j]
    {
      assert entries[j] in entries && entries[..j + 1] == entries[..j] + [entries[j]];
      r := AddCandidate(entries[j], seen, r);
    }
    assert entries[..|entries|] == entries;
  }

  ghost predicate HitBy(mentions: seq<seq<nat>>, hits: seq<bool>, upto: nat, i: nat)
    requires upto <= |hits| == |mentions|
  {
    exists k | 0 <= k < upto :: hits[k] && i in mentions[k]
  }

  method AddPatternCandidates(mentions: seq<seq<nat>>, hits: seq<bool>, seen: array<bool>, candidates: seq<nat>)
    returns (r: seq<nat>)
    requires |hits| == |mentions| && Tracks(seen[..], candidates)
    requires forall k, e | 0 <= k < |mentions| && e in mentions[k] :: e < seen.Length
    modifies seen
    ensures Tracks(seen[..], r)
    ensures forall i :: i in r <==> i in candidates || HitBy(mentions, hits, |hits|, i)
  {
    r := candidates;
    for k := 0 to |hits|
      invariant Tracks(seen[..], r)
      invariant forall i :: i in r <==> i in candidates || HitBy(mentions, hits, k, i)
    {
      ghost var was := r;
      if hits[k] { r := AddCandidates(mentions[k], seen, r); }
      forall i ensures i in r <==> i in candidates || HitBy(mentions, hits, k + 1, i) {
        assert HitBy(mentions, hits, k + 1, i) <==> HitBy(mentions, hits, k, i) || (hits[k] && i in mentions[k]);
      }
    }
  }

  /** Whether the index must look at an entry: no index could rule it out, or a key of it occurs. */
  predicate IsCandidate(lib: Library, e: Entry, raw: string) {
    Unconditional(e.activation) || exists c | c in Mentioned(e.activation) :: c.Literal? && Holds(lib, c, raw)
  }

  /** An entry that is no candidate is not active and costs nothing to evaluate. */
  lemma OthersAreInactive(lib: Library, e: Entry, raw: string, seed: nat)
    requires !IsCandidate(lib, e, raw)
    ensures !Active(lib, e, raw, seed) && EntryWork(lib, e, raw) == NO_WORK
  {
    var cs := ActivationConditions(e.activation).value;
    assert forall c | c in cs.primary :: c in ConditionList(cs);
    NoLiteralNoWork(lib, cs.primary, raw);
  }

  lemma {:induction false} NoLiteralNoWork(lib: Library, cs: seq<Condition>, raw: string)
    requires forall i | 0 <= i < |cs| :: cs[i].Literal? && !Holds(lib, cs[i], raw)
    ensures ChainWork(lib, cs, raw, true) == NO_WORK
  {
    if cs != [] {
      var rest := cs[1..];
      assert forall i | 0 <= i < |rest| :: rest[i] == cs[i + 1];
      hide Holds;
      NoLiteralNoWork(lib, rest, raw);
      assert OneWork(lib, cs[0], raw) == NO_WORK;
    }
  }

  ghost predicate HitsExact(patterns: seq<string>, text: string, hits: seq<bool>) {
    |hits| == |patterns| && forall k | 0 <= k < |patterns| :: hits[k] <==> Occurs(patterns[k], text)
  }

  /** The entries listed under the keys that occur are those with a literal condition that holds. */
  lemma HitMeansLiteral(lib: Library, es: seq<Entry>, ix: PatternIndex, fold: bool, raw: string, hits: seq<bool>,
      i: nat)
    requires i < |es| && RegisteredIn(lib, es, |es|, [], fold, ix) && ListsKeys(lib, Flat(es), fold, ix.patterns)
    requires HitsExact(ix.patterns, lib.normalize(raw, !fold), hits)
    ensures HitBy(ix.mentions, hits, |hits|, i) <==>
      exists c | c in Mentioned(es[i].activation) :: c.Literal? && c.caseSensitive != fold && Holds(lib, c, raw)
  {
    var cs := Mentioned(es[i].activation);
    if HitBy(ix.mentions, hits, |hits|, i) {
      var k :| 0 <= k < |hits| && hits[k] && i in ix.mentions[k];
      assert Lists(lib, es, |es|, [], fold, ix.patterns[k], ix.mentions[k]);
      assert KeyOf(lib, cs, fold, ix.patterns[k]);
    }
    if c :| c in cs && c.Literal? && c.caseSensitive != fold && Holds(lib, c, raw) {
      FlatContains(es, i, c);
      var key := lib.normalize(c.value, c.caseSensitive);
      assert KeyOf(lib, Flat(es), fold, key);
      var k :| 0 <= k < |ix.patterns| && ix.patterns[k] == key;
      assert Lists(lib, es, |es|, [], fold, ix.patterns[k], ix.mentions[k]);
      assert KeyOf(lib, cs, fold, key);
    }
  }
}
