/** Choosing which memory artifacts go into a prompt. */
module MemorySelection {
  import opened Wrappers
  import opened Ordering
  import opened MemoryArtifacts
  import opened MemoryBudget

  const MAX_QUERY_MESSAGES: nat := 128

  /** A similarity score, and everything it was computed for. */
  datatype Evidence = Evidence(artifactId: string, artifactRevision: nat, chatId: string, characterId: string,
                               generation: nat, presetId: string, presetRevision: nat, profile: string,
                               queryIds: seq<string>, queryDigest: string, score: int)

  datatype Candidate = Candidate(artifact: Artifact, tokens: nat, evidence: Option<Evidence>)

  /** The messages a hybrid session looks for, as they were planned and as they are now. */
  datatype Query = NoQuery | HybridQuery(scope: Scope, profile: string, planned: seq<Message>, current: seq<Message>)

  /** The hashes selection relies on: of a list of messages, and of an id within a chat, generation and query. */
  datatype Hashes = Hashes(snapshot: seq<Message> -> string, order: (string, nat, string, string) -> string)

  datatype Context = Context(queryIds: seq<string>, queryDigest: Option<string>)

  datatype Bucket = InConsolidated | InRecent | InSimilar | InRandom

  datatype Selected = Selected(id: string, revision: nat, first: nat, last: nat, bucket: Bucket, tokens: nat)

  /** What a selection depends on besides the candidates; the random order is that of a hash of each id. */
  datatype Session = Session(preserveCompacted: bool, hybrid: bool, budget: Budget, randomKey: string -> string)

  datatype Chosen = Chosen(selected: seq<Selected>, reserved: nat)

  datatype SelectionError =
    | WrongScope | WrongQuery | TooManyQueryMessages
    | TooManyCandidates | OutOfScope | DuplicateArtifact | MissingSimilarity | Overflow | OverBudget

  predicate SplitsBudget(b: Budget) { b.consolidated + b.recent + b.similar + b.random == b.total }

  /** A calculated budget is split completely, so a session built on it can be selected for. */
  lemma CalculatedBudgetSplits(p: Preset, i: Input, b: Budget)
    requires PresetOk(p) && InputOk(i) && BudgetOk(p, i, b)
    ensures SplitsBudget(b) && b.total <= MAX_U32
  {
    hide Apportioned;
  }

  // ------------------------------------------------------------------ scope

  function MessageIds(ms: seq<Message>): seq<string> {
    seq(|ms|, i requires 0 <= i < |ms| => ms[i].id)
  }

  /** A rolling summary takes no query; hybrid retrieval takes one of its own session whose messages did not change. */
  predicate QueryOk(b: Binding, q: Query) {
    if b.preset.strategy.RollingSummary? then q.NoQuery?
    else
      && q.HybridQuery? && q.scope == b.scope && q.profile == b.profile && q.planned == q.current
      && SnapshotOk(b.scope.chatId, q.current) && 0 < |q.current| <= MAX_QUERY_MESSAGES
  }

  function ContextOf(q: Query, hashes: Hashes): Context {
    match q
    case NoQuery => Context([], None)
    case HybridQuery(_, _, planned, _) => Context(MessageIds(planned), Some(hashes.snapshot(planned)))
  }

  /** An artifact of this session, and a score of it for exactly this session and this query. */
  predicate CandidateOk(b: Binding, x: Context, c: Candidate) {
    && c.artifact.scope == b.scope
    && (c.evidence.Some? ==>
          var e := c.evidence.value;
          && b.preset.strategy.HybridRetrieval?
          && e.artifactId == c.artifact.id && e.artifactRevision == c.artifact.revision
          && e.chatId == b.scope.chatId && e.characterId == b.scope.characterId
          && e.generation == b.scope.generation
          && e.presetId == b.scope.presetId && e.presetRevision == b.scope.presetRevision
          && e.profile == b.profile && e.queryIds == x.queryIds && Some(e.queryDigest) == x.queryDigest)
  }

  /** The session a selection runs in: its budget is the one its preset gives for the prompt. */
  function SessionOf(b: Binding, x: Context, budget: Budget, hashes: Hashes): Session {
    var digest := if x.queryDigest.Some? then x.queryDigest.value else "";
    var order := id => hashes.order(b.scope.chatId, b.scope.generation, digest, id);
    Session(b.preserveCompacted, b.preset.strategy.HybridRetrieval?, budget, order)
  }

  // --------------------------------------------------------------- rankings

  predicate Eligible(s: Session, c: Candidate) { ValidityOk(c.artifact, s.preserveCompacted) }

  predicate NewestFirst(a: Candidate, b: Candidate) {
    a.artifact.last > b.artifact.last || (a.artifact.last == b.artifact.last && Less(a.artifact.id, b.artifact.id))
  }

  function Score(c: Candidate): int { if c.evidence.Some? then c.evidence.value.score else 0 }

  predicate MostSimilarFirst(a: Candidate, b: Candidate) {
    Score(a) > Score(b) || (Score(a) == Score(b) && Less(a.artifact.id, b.artifact.id))
  }

  predicate RandomFirst(s: Session, a: Candidate, b: Candidate) {
    Less(s.randomKey(a.artifact.id), s.randomKey(b.artifact.id))
  }

  function ByRandomKey(s: Session): (Candidate, Candidate) -> bool { (a, b) => RandomFirst(s, a, b) }

  predicate Chronologically(a: Selected, b: Selected) {
    if a.first != b.first then a.first < b.first
    else if a.last != b.last then a.last < b.last
    else Less(a.id, b.id)
  }

  ghost predicate DistinctCandidates(cs: seq<Candidate>) {
    forall i, j | 0 <= i < j < |cs| :: cs[i].artifact.id != cs[j].artifact.id
  }

  /** The hash of an id identifies it. */
  ghost predicate KeysDiffer(s: Session, cs: seq<Candidate>) {
    forall i, j | 0 <= i < j < |cs| :: s.randomKey(cs[i].artifact.id) != s.randomKey(cs[j].artifact.id)
  }

  // ---------------------------------------------------------------- buckets

  /** Take in order what is not taken yet and still fits. */
  function TakeBucket(ranked: seq<Candidate>, remaining: nat, taken: set<string>): seq<Candidate> {
    if ranked == [] then []
    else if ranked[0].artifact.id in taken || ranked[0].tokens > remaining then
      TakeBucket(ranked[1..], remaining, taken)
    else [ranked[0]] + TakeBucket(ranked[1..], remaining - ranked[0].tokens, taken + {ranked[0].artifact.id})
  }

  function Tokens(cs: seq<Candidate>): nat {
    if cs == [] then 0 else cs[0].tokens + Tokens(cs[1..])
  }

  function IdsOf(cs: seq<Candidate>): set<string> { set c | c in cs :: c.artifact.id }

  lemma IdsOfMore(c: Candidate, more: seq<Candidate>)
    ensures IdsOf([c] + more) == {c.artifact.id} + IdsOf(more)
  {
  }

  /** A bucket keeps its budget and repeats nothing. */
  lemma {:induction false} BucketFits(ranked: seq<Candidate>, budget: nat, taken: set<string>)
    ensures
      var bucket := TakeBucket(ranked, budget, taken);
      && Tokens(bucket) <= budget
      && DistinctCandidates(bucket) && IdsOf(bucket) !! taken
      && forall c | c in bucket :: c in ranked
  {
    if ranked != [] {
      var c, rest := ranked[0], ranked[1..];
      if c.artifact.id in taken || c.tokens > budget {
        BucketFits(rest, budget, taken);
      } else {
        BucketFits(rest, budget - c.tokens, taken + {c.artifact.id});
        var more := TakeBucket(rest, budget - c.tokens, taken + {c.artifact.id});
        IdsOfMore(c, more);
        assert ([c] + more)[1..] == more;
        forall i | 0 <= i < |more| ensures more[i].artifact.id != c.artifact.id {
          assert more[i] in more && more[i].artifact.id in IdsOf(more);
        }
      }
    }
  }

  /** When a bucket closes, nothing left over would still fit. */
  lemma {:induction false} BucketIsMaximal(ranked: seq<Candidate>, budget: nat, taken: set<string>, c: Candidate)
    requires c in ranked
    ensures
      var bucket := TakeBucket(ranked, budget, taken);
      c.artifact.id in taken || c.artifact.id in IdsOf(bucket) || c.tokens > budget - Tokens(bucket)
  {
    var head, rest := ranked[0], ranked[1..];
    var skip := head.artifact.id in taken || head.tokens > budget;
    var left, now := if skip then budget else budget - head.tokens, if skip then taken else taken + {head.artifact.id};
    if !skip {
      IdsOfMore(head, TakeBucket(rest, left, now));
      assert ([head] + TakeBucket(rest, left, now))[1..] == TakeBucket(rest, left, now);
    }
    if c in rest {
      BucketIsMaximal(rest, left, now, c);
    }
  }

  // -------------------------------------------------------------- selection

  predicate IsSummary(s: Session, c: Candidate) {
    Eligible(s, c) && c.artifact.kind.Consolidated? && c.tokens <= s.budget.consolidated
  }

  function SummaryFilter(s: Session): Candidate -> bool { c => IsSummary(s, c) }

  /** The newest consolidated summary that fits, if any. */
  function Top(s: Session, cs: seq<Candidate>): seq<Candidate> {
    var ranked := Sort(NewestFirst, Filter(SummaryFilter(s), cs));
    if ranked == [] then [] else [ranked[0]]
  }

  /** An eligible leaf the chosen summary does not already stand for. */
  predicate IsFreeLeaf(s: Session, top: seq<Candidate>, c: Candidate) {
    && Eligible(s, c) && c.artifact.kind.Leaf?
    && (top == [] || c.artifact.id !in top[0].artifact.covered)
  }

  function LeafFilter(s: Session, top: seq<Candidate>): Candidate -> bool { c => IsFreeLeaf(s, top, c) }

  function FreeLeaves(s: Session, cs: seq<Candidate>): seq<Candidate> {
    Filter(LeafFilter(s, Top(s, cs)), cs)
  }

  datatype Picks = Picks(top: seq<Candidate>, recent: seq<Candidate>, similar: seq<Candidate>, random: seq<Candidate>)

  function Pick(s: Session, cs: seq<Candidate>): Picks {
    var top := Top(s, cs);
    var leaves := FreeLeaves(s, cs);
    var recent := TakeBucket(Sort(NewestFirst, leaves), s.budget.recent, IdsOf(top));
    if !s.hybrid then Picks(top, recent, [], [])
    else
      var taken := IdsOf(top) + IdsOf(recent);
      var similar :=
        if s.budget.similar > 0 then TakeBucket(Sort(MostSimilarFirst, leaves), s.budget.similar, taken) else [];
      var random := TakeBucket(Sort(ByRandomKey(s), leaves), s.budget.random, taken + IdsOf(similar));
      Picks(top, recent, similar, random)
  }

  function As(c: Candidate, bucket: Bucket): Selected {
    Selected(c.artifact.id, c.artifact.revision, c.artifact.first, c.artifact.last, bucket, c.tokens)
  }

  function AllAs(cs: seq<Candidate>, bucket: Bucket): seq<Selected> {
    seq(|cs|, i requires 0 <= i < |cs| => As(cs[i], bucket))
  }

  function Listed(p: Picks): seq<Selected> {
    AllAs(p.top, InConsolidated) + AllAs(p.recent, InRecent) + AllAs(p.similar, InSimilar) + AllAs(p.random, InRandom)
  }

  function Selection(s: Session, cs: seq<Candidate>): seq<Selected> {
    Sort(Chronologically, Listed(Pick(s, cs)))
  }

  /** Hybrid retrieval has a similar bucket to fill but not every leaf has a score. */
  ghost predicate LacksSimilarity(s: Session, cs: seq<Candidate>) {
    s.hybrid && s.budget.similar > 0 && exists c | c in FreeLeaves(s, cs) :: c.evidence.None?
  }

  // ----------------------------------------------------- order independence

  lemma IdFixesCandidate(cs: seq<Candidate>, a: Candidate, b: Candidate)
    requires DistinctCandidates(cs) && a in cs && b in cs && a.artifact.id == b.artifact.id
    ensures a == b
  {
  }

  lemma NewestFirstOrders(cs: seq<Candidate>)
    requires DistinctCandidates(cs)
    ensures Orders(NewestFirst, Elements(cs))
  {
    forall a, b, c | a in cs && b in cs && c in cs
      ensures !NewestFirst(a, a)
      ensures a == b || NewestFirst(a, b) || NewestFirst(b, a)
      ensures NewestFirst(a, b) && NewestFirst(b, c) ==> NewestFirst(a, c)
    {
      LessIrreflexive(a.artifact.id);
      LessTotal(a.artifact.id, b.artifact.id);
      if a.artifact.id == b.artifact.id { IdFixesCandidate(cs, a, b); }
      if Less(a.artifact.id, b.artifact.id) && Less(b.artifact.id, c.artifact.id) {
        LessTransitive(a.artifact.id, b.artifact.id, c.artifact.id);
      }
    }
    assert forall a :: a in Elements(cs) <==> a in cs;
  }

  lemma MostSimilarFirstOrders(cs: seq<Candidate>)
    requires DistinctCandidates(cs)
    ensures Orders(MostSimilarFirst, Elements(cs))
  {
    forall a, b, c | a in cs && b in cs && c in cs
      ensures !MostSimilarFirst(a, a)
      ensures a == b || MostSimilarFirst(a, b) || MostSimilarFirst(b, a)
      ensures MostSimilarFirst(a, b) && MostSimilarFirst(b, c) ==> MostSimilarFirst(a, c)
    {
      LessIrreflexive(a.artifact.id);
      LessTotal(a.artifact.id, b.artifact.id);
      if a.artifact.id == b.artifact.id { IdFixesCandidate(cs, a, b); }
      if Less(a.artifact.id, b.artifact.id) && Less(b.artifact.id, c.artifact.id) {
        LessTransitive(a.artifact.id, b.artifact.id, c.artifact.id);
      }
    }
    assert forall a :: a in Elements(cs) <==> a in cs;
  }

  lemma RandomKeyOrders(s: Session, cs: seq<Candidate>)
    requires KeysDiffer(s, cs)
    ensures Orders(ByRandomKey(s), Elements(cs))
  {
    var less := ByRandomKey(s);
    forall a, b, c | a in cs && b in cs && c in cs
      ensures !less(a, a)
      ensures a == b || less(a, b) || less(b, a)
      ensures less(a, b) && less(b, c) ==> less(a, c)
    {
      var x, y, z := s.randomKey(a.artifact.id), s.randomKey(b.artifact.id), s.randomKey(c.artifact.id);
      LessIrreflexive(x);
      LessTotal(x, y);
      if Less(x, y) && Less(y, z) { LessTransitive(x, y, z); }
      var i :| 0 <= i < |cs| && cs[i] == a;
      var j :| 0 <= j < |cs| && cs[j] == b;
    }
    assert forall a :: a in Elements(cs) <==> a in cs;
  }

  lemma SameElementsSameFilter(keep: Candidate -> bool, a: seq<Candidate>, b: seq<Candidate>)
    requires Elements(a) == Elements(b)
    ensures Elements(Filter(keep, a)) == Elements(Filter(keep, b))
  {
    FilterElements(keep, a);
    FilterElements(keep, b);
    assert forall x :: x in a <==> x in Elements(a);
    assert forall x :: x in b <==> x in Elements(b);
  }

  lemma OrdersPart<T(!new)>(less: (T, T) -> bool, some: set<T>, all: set<T>)
    requires some <= all && Orders(less, all)
    ensures Orders(less, some)
  {
  }

  /** Filtering and then sorting forgets the order of the candidates. */
  lemma RankingForgetsOrder(less: (Candidate, Candidate) -> bool, keep: Candidate -> bool, a: seq<Candidate>,
      b: seq<Candidate>)
    requires Elements(a) == Elements(b) && Distinct(a) && Distinct(b) && Orders(less, Elements(a))
    ensures Sort(less, Filter(keep, a)) == Sort(less, Filter(keep, b))
  {
    SameElementsSameFilter(keep, a, b);
    FilterElements(keep, a);
    FilterElements(keep, b);
    OrdersPart(less, Elements(Filter(keep, a)), Elements(a));
    SortForgetsOrder(less, Filter(keep, a), Filter(keep, b));
  }

  /** The selection does not depend on the order in which the candidates are given. */
  lemma SelectionForgetsOrder(s: Session, a: seq<Candidate>, b: seq<Candidate>)
    requires Elements(a) == Elements(b) && DistinctCandidates(a) && DistinctCandidates(b)
    requires KeysDiffer(s, a)
    ensures Selection(s, a) == Selection(s, b)
    ensures LacksSimilarity(s, a) <==> LacksSimilarity(s, b)
  {
    NewestFirstOrders(a);
    MostSimilarFirstOrders(a);
    RandomKeyOrders(s, a);
    assert Distinct(a) && Distinct(b);
    hide DistinctCandidates, KeysDiffer, Orders, Elements, Distinct, TakeBucket;
    RankingForgetsOrder(NewestFirst, SummaryFilter(s), a, b);
    assert Top(s, a) == Top(s, b);
    var keep := LeafFilter(s, Top(s, a));
    RankingForgetsOrder(NewestFirst, keep, a, b);
    RankingForgetsOrder(MostSimilarFirst, keep, a, b);
    RankingForgetsOrder(ByRandomKey(s), keep, a, b);
    SameLeaves(keep, a, b);
    assert Pick(s, a) == Pick(s, b);
  }

  lemma SameLeaves(keep: Candidate -> bool, a: seq<Candidate>, b: seq<Candidate>)
    requires Elements(a) == Elements(b)
    ensures forall c :: c in Filter(keep, a) <==> c in Filter(keep, b)
  {
    SameElementsSameFilter(keep, a, b);
    assert forall c :: c in Filter(keep, a) <==> c in Elements(Filter(keep, a));
    assert forall c :: c in Filter(keep, b) <==> c in Elements(Filter(keep, b));
  }

  // -------------------------------------------------------------- soundness

  /** Everything in `bucket` is an eligible uncovered leaf among the candidates. */
  ghost predicate FromLeaves(s: Session, cs: seq<Candidate>, bucket: seq<Candidate>) {
    forall c | c in bucket :: c in cs && IsFreeLeaf(s, Top(s, cs), c)
  }

  /** A bucket keeps its budget, holds eligible leaves, and repeats neither itself nor what was taken. */
  ghost predicate BucketOk(s: Session, cs: seq<Candidate>, budget: nat, taken: set<string>, bucket: seq<Candidate>) {
    Tokens(bucket) <= budget && DistinctCandidates(bucket) && IdsOf(bucket) !! taken && FromLeaves(s, cs, bucket)
  }

  ghost predicate TopOk(s: Session, cs: seq<Candidate>, top: seq<Candidate>) {
    && top == Top(s, cs) && |top| <= 1 && Tokens(top) <= s.budget.consolidated
    && forall c | c in top :: c in cs && IsSummary(s, c)
  }

  ghost predicate PicksOk(s: Session, cs: seq<Candidate>, p: Picks) {
    && TopOk(s, cs, p.top)
    && BucketOk(s, cs, s.budget.recent, IdsOf(p.top), p.recent)
    && BucketOk(s, cs, s.budget.similar, IdsOf(p.top) + IdsOf(p.recent), p.similar)
    && BucketOk(s, cs, s.budget.random, IdsOf(p.top) + IdsOf(p.recent) + IdsOf(p.similar), p.random)
  }

  lemma TopIsSummary(s: Session, cs: seq<Candidate>)
    ensures TopOk(s, cs, Top(s, cs))
  {
    var kept := Filter(SummaryFilter(s), cs);
    FilterElements(SummaryFilter(s), cs);
    SortElements(NewestFirst, kept);
    var ranked := Sort(NewestFirst, kept);
    forall c | c in ranked ensures c in kept {
      assert c in Elements(ranked);
    }
    if ranked != [] { assert ranked[0] in ranked && Tokens([ranked[0]]) == ranked[0].tokens; }
  }

  lemma BucketFromLeaves(s: Session, cs: seq<Candidate>, less: (Candidate, Candidate) -> bool, budget: nat,
      taken: set<string>)
    ensures
      BucketOk(s, cs, budget, taken, TakeBucket(Sort(less, FreeLeaves(s, cs)), budget, taken))
  {
    var leaves := FreeLeaves(s, cs);
    BucketFits(Sort(less, leaves), budget, taken);
    FilterElements(LeafFilter(s, Top(s, cs)), cs);
    SortElements(less, leaves);
    forall c | c in Sort(less, leaves) ensures c in leaves {
      assert c in Elements(Sort(less, leaves));
    }
  }

  lemma PickIsOk(s: Session, cs: seq<Candidate>)
    ensures PicksOk(s, cs, Pick(s, cs))
  {
    var p := Pick(s, cs);
    EmptyBucket(s, cs, s.budget.similar, IdsOf(p.top) + IdsOf(p.recent));
    EmptyBucket(s, cs, s.budget.random, IdsOf(p.top) + IdsOf(p.recent) + IdsOf(p.similar));
    hide TakeBucket, Top, FreeLeaves, BucketOk, TopOk, IdsOf;
    TopIsSummary(s, cs);
    BucketFromLeaves(s, cs, NewestFirst, s.budget.recent, IdsOf(p.top));
    BucketFromLeaves(s, cs, MostSimilarFirst, s.budget.similar, IdsOf(p.top) + IdsOf(p.recent));
    BucketFromLeaves(s, cs, ByRandomKey(s), s.budget.random, IdsOf(p.top) + IdsOf(p.recent) + IdsOf(p.similar));
  }

  lemma EmptyBucket(s: Session, cs: seq<Candidate>, budget: nat, taken: set<string>)
    ensures BucketOk(s, cs, budget, taken, [])
  {
  }

  function SumTokens(xs: seq<Selected>): nat {
    if xs == [] then 0 else xs[0].tokens + SumTokens(xs[1..])
  }

  lemma {:induction false} SumOfBoth(a: seq<Selected>, b: seq<Selected>)
    ensures SumTokens(a + b) == SumTokens(a) + SumTokens(b)
  {
    if a == [] {
      assert a + b == b;
    } else {
      SumOfBoth(a[1..], b);
      assert (a + b)[1..] == a[1..] + b;
    }
  }

  lemma {:induction false} SumOfAll(cs: seq<Candidate>, bucket: Bucket)
    ensures SumTokens(AllAs(cs, bucket)) == Tokens(cs)
  {
    if cs != [] {
      SumOfAll(cs[1..], bucket);
      assert AllAs(cs, bucket)[1..] == AllAs(cs[1..], bucket);
    }
  }

  lemma {:induction false} SumOfInserted(less: (Selected, Selected) -> bool, x: Selected, xs: seq<Selected>)
    ensures SumTokens(Insert(less, x, xs)) == x.tokens + SumTokens(xs)
  {
    if !(xs == [] || !less(xs[0], x)) {
      SumOfInserted(less, x, xs[1..]);
      assert Insert(less, x, xs)[1..] == Insert(less, x, xs[1..]);
    } else {
      assert ([x] + xs)[1..] == xs;
    }
  }

  lemma {:induction false} SumOfSorted(less: (Selected, Selected) -> bool, xs: seq<Selected>)
    ensures SumTokens(Sort(less, xs)) == SumTokens(xs)
  {
    if xs != [] {
      SumOfSorted(less, xs[1..]);
      SumOfInserted(less, xs[0], Sort(less, xs[1..]));
    }
  }

  /** The whole selection fits the memory budget, so neither guard at the end of selection can fire. */
  lemma SelectionFits(s: Session, cs: seq<Candidate>)
    requires SplitsBudget(s.budget)
    ensures SumTokens(Selection(s, cs)) <= s.budget.total
  {
    var p := Pick(s, cs);
    PickIsOk(s, cs);
    hide Pick, FromLeaves, DistinctCandidates;
    var a, b, c, d := AllAs(p.top, InConsolidated), AllAs(p.recent, InRecent), AllAs(p.similar, InSimilar),
      AllAs(p.random, InRandom);
    SumOfSorted(Chronologically, Listed(p));
    SumOfBoth(a + b + c, d);
    SumOfBoth(a + b, c);
    SumOfBoth(a, b);
    SumOfAll(p.top, InConsolidated);
    SumOfAll(p.recent, InRecent);
    SumOfAll(p.similar, InSimilar);
    SumOfAll(p.random, InRandom);
  }

  ghost predicate DistinctSelected(xs: seq<Selected>) {
    forall i, j | 0 <= i < j < |xs| :: xs[i].id != xs[j].id
  }

  lemma ListedAreDistinct(s: Session, cs: seq<Candidate>, p: Picks)
    requires PicksOk(s, cs, p)
    ensures DistinctSelected(Listed(p))
  {
    PicksAreDistinct(s, cs, p);
    hide PicksOk, Listed;
    ListedIds(p);
    var all := p.top + p.recent + p.similar + p.random;
    forall i, j | 0 <= i < j < |all| ensures Listed(p)[i].id != Listed(p)[j].id {
      assert all[i].artifact.id != all[j].artifact.id;
    }
  }

  lemma PicksAreDistinct(s: Session, cs: seq<Candidate>, p: Picks)
    requires PicksOk(s, cs, p)
    ensures DistinctCandidates(p.top + p.recent + p.similar + p.random)
  {
    assert DistinctCandidates(p.top);
    hide FromLeaves, Tokens, IsSummary, Top, DistinctCandidates, IdsOf;
    DistinctBoth(p.top, p.recent);
    DistinctBoth(p.top + p.recent, p.similar);
    DistinctBoth(p.top + p.recent + p.similar, p.random);
  }

  lemma ListedIds(p: Picks)
    ensures
      var all := p.top + p.recent + p.similar + p.random;
      |Listed(p)| == |all| && forall i | 0 <= i < |all| :: Listed(p)[i].id == all[i].artifact.id
  {
  }

  lemma DistinctBoth(a: seq<Candidate>, b: seq<Candidate>)
    requires DistinctCandidates(a) && DistinctCandidates(b) && IdsOf(b) !! IdsOf(a)
    ensures DistinctCandidates(a + b) && IdsOf(a + b) == IdsOf(a) + IdsOf(b)
  {
    forall i, j | 0 <= i < |a| && 0 <= j < |b| ensures a[i].artifact.id != b[j].artifact.id {
      assert a[i] in a && b[j] in b && a[i].artifact.id in IdsOf(a) && b[j].artifact.id in IdsOf(b);
    }
    assert forall c :: c in a + b <==> c in a || c in b;
  }

  lemma ChronologicallyOrders(xs: seq<Selected>)
    requires DistinctSelected(xs)
    ensures Orders(Chronologically, Elements(xs)) && Distinct(xs)
  {
    forall a, b, c | a in xs && b in xs && c in xs
      ensures !Chronologically(a, a)
      ensures a == b || Chronologically(a, b) || Chronologically(b, a)
      ensures Chronologically(a, b) && Chronologically(b, c) ==> Chronologically(a, c)
    {
      LessIrreflexive(a.id);
      LessTotal(a.id, b.id);
      var i :| 0 <= i < |xs| && xs[i] == a;
      var j :| 0 <= j < |xs| && xs[j] == b;
      if Less(a.id, b.id) && Less(b.id, c.id) { LessTransitive(a.id, b.id, c.id); }
    }
    assert forall a :: a in Elements(xs) <==> a in xs;
  }

  /** The selection lists exactly the picks, each once, in chronological order. */
  lemma SelectionIsChronological(s: Session, cs: seq<Candidate>)
    ensures StrictlySorted(Chronologically, Selection(s, cs))
    ensures Elements(Selection(s, cs)) == Elements(Listed(Pick(s, cs)))
    ensures |Selection(s, cs)| == |Listed(Pick(s, cs))| && Distinct(Listed(Pick(s, cs)))
  {
    PickIsOk(s, cs);
    ListedAreDistinct(s, cs, Pick(s, cs));
    hide Pick, PicksOk, Listed;
    ChronologicallyOrders(Listed(Pick(s, cs)));
    SortSorts(Chronologically, Listed(Pick(s, cs)));
    SortElements(Chronologically, Listed(Pick(s, cs)));
  }

  /** No leaf is selected beside a summary derived from it. */
  lemma NoLeafBesideItsSummary(s: Session, cs: seq<Candidate>, summary: Candidate, d: Derivation, leaf: Candidate)
    requires summary in Pick(s, cs).top && Sound(d) && d.artifact == summary.artifact
    requires leaf in Pick(s, cs).recent || leaf in Pick(s, cs).similar || leaf in Pick(s, cs).random
    ensures !IsLeafOf(leaf.artifact.id, d)
  {
    PickIsOk(s, cs);
    CoveredAreTheLeaves(d);
    hide Pick;
    assert Top(s, cs) == [summary] by { hide Top; }
  }

  /** Every bucket is maximal when it closes: an uncovered leaf it could still hold is already selected. */
  lemma BucketsAreMaximal(s: Session, cs: seq<Candidate>, leaf: Candidate)
    requires leaf in cs && IsFreeLeaf(s, Top(s, cs), leaf)
    ensures
      var p := Pick(s, cs);
      var id := leaf.artifact.id;
      var earlier := IdsOf(p.top) + IdsOf(p.recent);
      && (id in earlier || leaf.tokens > s.budget.recent - Tokens(p.recent))
      && (s.hybrid && s.budget.similar > 0 ==>
            id in earlier + IdsOf(p.similar) || leaf.tokens > s.budget.similar - Tokens(p.similar))
      && (s.hybrid ==>
            id in earlier + IdsOf(p.similar) + IdsOf(p.random) || leaf.tokens > s.budget.random - Tokens(p.random))
  {
    var p := Pick(s, cs);
    var leaves := FreeLeaves(s, cs);
    FilterElements(LeafFilter(s, Top(s, cs)), cs);
    InRanking(NewestFirst, leaves, leaf);
    InRanking(MostSimilarFirst, leaves, leaf);
    InRanking(ByRandomKey(s), leaves, leaf);
    hide TakeBucket, Top, FreeLeaves, IdsOf, Tokens;
    BucketIsMaximal(Sort(NewestFirst, leaves), s.budget.recent, IdsOf(p.top), leaf);
    BucketIsMaximal(Sort(MostSimilarFirst, leaves), s.budget.similar, IdsOf(p.top) + IdsOf(p.recent), leaf);
    BucketIsMaximal(Sort(ByRandomKey(s), leaves), s.budget.random, IdsOf(p.top) + IdsOf(p.recent) + IdsOf(p.similar),
      leaf);
  }

  lemma InRanking(less: (Candidate, Candidate) -> bool, cs: seq<Candidate>, c: Candidate)
    requires c in cs
    ensures c in Sort(less, cs)
  {
    SortElements(less, cs);
    assert c in Elements(cs);
    assert c in Elements(Sort(less, cs));
  }

  // ---------------------------------------------------------------- methods

  /** Fill one bucket in rank order. */
  method SelectBucket(ranked: seq<Candidate>, budget: nat, bucket: Bucket, before: seq<Selected>, taken: set<string>)
    returns (selected: seq<Selected>, ids: set<string>)
    ensures selected == before + AllAs(TakeBucket(ranked, budget, taken), bucket)
    ensures ids == taken + IdsOf(TakeBucket(ranked, budget, taken))
  {
    var remaining: nat := budget;
    selected, ids := before, taken;
    ghost var chosen: seq<Candidate> := [];
    for i := 0 to |ranked|
      invariant chosen + TakeBucket(ranked[i..], remaining, ids) == TakeBucket(ranked, budget, taken)
      invariant selected == before + AllAs(chosen, bucket) && ids == taken + IdsOf(chosen)
    {
      var c := ranked[i];
      assert ranked[i..][1..] == ranked[i + 1..];
      if c.artifact.id in ids || c.tokens > remaining { continue; }
      TakenNext(chosen, c, TakeBucket(ranked[i + 1..], remaining - c.tokens, ids + {c.artifact.id}), bucket);
      remaining := remaining - c.tokens;
      ids := ids + {c.artifact.id};
      selected := selected + [As(c, bucket)];
      chosen := chosen + [c];
    }
    assert chosen == TakeBucket(ranked, budget, taken);
  }

  lemma TakenNext(chosen: seq<Candidate>, c: Candidate, rest: seq<Candidate>, bucket: Bucket)
    ensures chosen + ([c] + rest) == chosen + [c] + rest
    ensures AllAs(chosen + [c], bucket) == AllAs(chosen, bucket) + [As(c, bucket)]
    ensures IdsOf(chosen + [c]) == IdsOf(chosen) + {c.artifact.id}
  {
  }

  method ValidateQuery(b: Binding, q: Query, hashes: Hashes) returns (r: Result<Context, SelectionError>)
    ensures r.Success? <==> QueryOk(b, q)
    ensures r.Success? ==> r.value == ContextOf(q, hashes)
    ensures r.Failure? ==> r.error == WrongQuery || r.error == TooManyQueryMessages
  {
    if b.preset.strategy.RollingSummary? {
      if !q.NoQuery? { return Failure(WrongQuery); }
      return Success(Context([], None));
    }
    if q.NoQuery? || q.scope != b.scope || q.profile != b.profile { return Failure(WrongQuery); }
    hide SnapshotOk;
    var valid := ValidateSnapshot(b.scope.chatId, q.current);
    if valid.Failure? || q.planned != q.current { return Failure(WrongQuery); }
    if hashes.snapshot(q.planned) != hashes.snapshot(q.current) { return Failure(WrongQuery); }
    if |q.planned| > MAX_QUERY_MESSAGES { return Failure(TooManyQueryMessages); }
    if q.planned == [] { return Failure(WrongQuery); }
    return Success(Context(MessageIds(q.planned), Some(hashes.snapshot(q.planned))));
  }

  ghost predicate CandidatesOk(b: Binding, x: Context, cs: seq<Candidate>) {
    && |cs| <= MAX_MEMORY_CANDIDATES && (forall i | 0 <= i < |cs| :: CandidateOk(b, x, cs[i]))
    && DistinctCandidates(cs)
  }

  /** Scope and duplicate checks over all candidates. */
  method CheckCandidates(b: Binding, x: Context, cs: seq<Candidate>) returns (r: Result<(), SelectionError>)
    ensures r.Success? <==> CandidatesOk(b, x, cs)
    ensures r.Failure? ==> r.error in {TooManyCandidates, OutOfScope, DuplicateArtifact}
  {
    hide CandidateOk;
    if |cs| > MAX_MEMORY_CANDIDATES { return Failure(TooManyCandidates); }
    var ids: set<string> := {};
    for i := 0 to |cs|
      invariant forall k | 0 <= k < i :: CandidateOk(b, x, cs[k])
      invariant forall id :: id in ids <==> exists k | 0 <= k < i :: cs[k].artifact.id == id
      invariant DistinctCandidates(cs[..i])
    {
      if !CandidateOk(b, x, cs[i]) { return Failure(OutOfScope); }
      if cs[i].artifact.id in ids { return Failure(DuplicateArtifact); }
      ids := ids + {cs[i].artifact.id};
    }
    assert cs[..|cs|] == cs;
    return Success(());
  }

  /** The eligible leaves the chosen summary does not cover, found by binary search in its leaf list. */
  method CollectLeavesBeside(s: Session, cs: seq<Candidate>, top: seq<Candidate>) returns (leaves: seq<Candidate>)
    requires top == [] || StrictlySorted(Less, top[0].artifact.covered)
    ensures leaves == Filter(LeafFilter(s, top), cs)
  {
    var keep := LeafFilter(s, top);
    leaves := [];
    assert cs[0..] == cs;
    for i := 0 to |cs|
      invariant leaves + Filter(keep, cs[i..]) == Filter(keep, cs)
    {
      assert cs[i..][1..] == cs[i + 1..];
      var free := BesideTop(s, cs[i], top);
      FilterNext(keep, leaves, cs[i..]);
      if free { leaves := leaves + [cs[i]]; }
    }
  }

  lemma FilterNext(keep: Candidate -> bool, before: seq<Candidate>, cs: seq<Candidate>)
    requires cs != []
    ensures before + Filter(keep, cs) == (if keep(cs[0]) then before + [cs[0]] else before) + Filter(keep, cs[1..])
  {
  }

  method BesideTop(s: Session, c: Candidate, top: seq<Candidate>) returns (free: bool)
    requires top == [] || StrictlySorted(Less, top[0].artifact.covered)
    ensures free <==> LeafFilter(s, top)(c)
  {
    free := Eligible(s, c) && c.artifact.kind.Leaf?;
    if free && top != [] {
      var at := Lookup(top[0].artifact.covered, c.artifact.id);
      free := at.None?;
    }
  }

  /** Selection from checked candidates; neither guard on the reserved tokens can fire. */
  method SelectFrom(s: Session, cs: seq<Candidate>) returns (r: Result<Chosen, SelectionError>)
    requires SplitsBudget(s.budget) && s.budget.total <= MAX_U32
    requires forall c | c in cs :: StrictlySorted(Less, c.artifact.covered)
    ensures r.Success? <==> !LacksSimilarity(s, cs)
    ensures r.Success? ==> r.value.selected == Selection(s, cs) && r.value.reserved == SumTokens(r.value.selected)
    ensures r.Failure? ==> r.error == MissingSimilarity
  {
    TopIsSummary(s, cs);
    var top := Top(s, cs);
    assert top != [] ==> top[0] in top;
    var leaves := CollectLeavesBeside(s, cs, top);
    var filled := FillBuckets(s, cs, top, leaves);
    if filled.Failure? { return Failure(filled.error); }
    hide Pick, DistinctCandidates, TopOk, LacksSimilarity;
    var selected := Sort(Chronologically, filled.value);
    SelectionFits(s, cs);
    var total := AddUp(selected);
    if total.None? { return Failure(Overflow); }
    if total.value > s.budget.total { return Failure(OverBudget); }
    return Success(Chosen(selected, total.value));
  }

  /**
    Memory selection, with the budget its preset gives for this prompt. It returns the specified selection and
    fails only for a wrong scope, query or candidate or a missing score, never because the selection outgrew
    its budget or the range of its counter.
  */
  method SelectMemories(b: Binding, e: Expected, input: Input, q: Query, cs: seq<Candidate>, hashes: Hashes)
    returns (r: Result<Chosen, SelectionError>, budget: Budget)
    requires PresetOk(b.preset) && InputOk(input)
    requires forall c | c in cs :: StrictlySorted(Less, c.artifact.covered)
    ensures BudgetOk(b.preset, input, budget)
    ensures
      var x := ContextOf(q, hashes);
      var s := SessionOf(b, x, budget, hashes);
      && (r.Success? <==>
            ScopeExpected(b, e) && QueryOk(b, q) && CandidatesOk(b, x, cs) && !LacksSimilarity(s, cs))
      && (r.Success? ==>
            && r.value.selected == Selection(s, cs)
            && r.value.reserved == SumTokens(r.value.selected) <= budget.total)
    ensures r.Failure? ==> r.error != OverBudget && r.error != Overflow
  {
    hide PresetOk, InputOk, BudgetOk, QueryOk, CandidatesOk, LacksSimilarity, Selection, SumTokens;
    budget := Calculate(b.preset, input);
    if !ScopeExpected(b, e) { return Failure(WrongScope), budget; }
    var context := ValidateQuery(b, q, hashes);
    if context.Failure? { return Failure(context.error), budget; }
    var checked := CheckCandidates(b, context.value, cs);
    if checked.Failure? { return Failure(checked.error), budget; }
    CalculatedBudgetSplits(b.preset, input, budget);
    var session := SessionOf(b, context.value, budget, hashes);
    SelectionFits(session, cs);
    r := SelectFrom(session, cs);
  }

  /** The summary and then the buckets, each over the leaves in its own order. */
  method FillBuckets(s: Session, cs: seq<Candidate>, top: seq<Candidate>, leaves: seq<Candidate>)
    returns (r: Result<seq<Selected>, SelectionError>)
    requires top == Top(s, cs) && leaves == FreeLeaves(s, cs)
    ensures r.Success? <==> !LacksSimilarity(s, cs)
    ensures r.Success? ==> r.value == Listed(Pick(s, cs))
    ensures r.Failure? ==> r.error == MissingSimilarity
  {
    hide Top, FreeLeaves, TakeBucket, IdsOf, AllAs;
    EmptyAdds();
    var selected, ids := AllAs(top, InConsolidated), IdsOf(top);
    selected, ids := SelectBucket(Sort(NewestFirst, leaves), s.budget.recent, InRecent, selected, ids);
    if !s.hybrid { return Success(selected); }
    if s.budget.similar > 0 {
      if exists c | c in leaves :: c.evidence.None? { return Failure(MissingSimilarity); }
      selected, ids := SelectBucket(Sort(MostSimilarFirst, leaves), s.budget.similar, InSimilar, selected, ids);
    } else {
      assert selected + AllAs([], InSimilar) == selected && ids + IdsOf([]) == ids;
    }
    selected, ids := SelectBucket(Sort(ByRandomKey(s), leaves), s.budget.random, InRandom, selected, ids);
    return Success(selected);
  }

  lemma EmptyAdds()
    ensures IdsOf([]) == {} && AllAs([], InSimilar) == [] && AllAs([], InRandom) == []
  {
  }

  /** The sum as a 32-bit counter adds it, if it fits. */
  method AddUp(xs: seq<Selected>) returns (total: Option<nat>)
    ensures total == if SumTokens(xs) <= MAX_U32 then Some(SumTokens(xs)) else None
  {
    var sum := 0;
    assert xs[0..] == xs;
    for i := 0 to |xs|
      invariant sum + SumTokens(xs[i..]) == SumTokens(xs) && sum <= MAX_U32
    {
      assert xs[i..][1..] == xs[i + 1..];
      sum := sum + xs[i].tokens;
      if sum > MAX_U32 { return None; }
    }
    return Some(sum);
  }
}
