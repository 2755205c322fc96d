/** Evaluating candidates under the work limits, ranking them and filling the prompt. */
module LoreEngine {
  import opened Wrappers
  import opened Ordering
  import opened LoreModel
  import opened LoreCompile
  import opened LoreSelect

  // ----------------------------------------------------------------- limits

  predicate Within(w: Work, s: Settings) {
    w.evaluations <= s.maxEvaluations && w.scanned <= s.maxScanned && w.findings <= s.maxFindings
  }

  /** The work exceeds the named limit. */
  predicate Over(kind: LimitKind, w: Work, s: Settings) {
    match kind
    case LiteralMatchEvents => false
    case RegexEvaluations => w.evaluations > s.maxEvaluations
    case RegexScanBytes => w.scanned > s.maxScanned
    case RegexMatches => w.findings > s.maxFindings
  }

  class EvaluationLimits {
    const settings: Settings
    var evaluations: nat
    var scanned: nat
    var findings: nat

    constructor (settings: Settings)
      ensures this.settings == settings && Spent() == NO_WORK
    {
      this.settings := settings;
      evaluations, scanned, findings := 0, 0, 0;
    }

    function Spent(): Work
      reads this
    {
      Work(evaluations, scanned, findings)
    }

    /** One regex over the whole text, stopping at the first limit it passes. */
    method Evaluate(lib: Library, pattern: string, caseInsensitive: bool, raw: string)
      returns (r: Result<bool, LimitKind>)
      requires Within(Spent(), settings)
      modifies this
      ensures
        var n := lib.findings(pattern, caseInsensitive, raw);
        var after := old(Spent()).Plus(Work(1, |raw|, n));
        match r
        case Success(found) => Spent() == after && Within(after, settings) && found == (n > 0)
        case Failure(kind) => Over(kind, after, settings)
    {
      evaluations := evaluations + 1;
      if evaluations > settings.maxEvaluations { return Failure(RegexEvaluations); }
      scanned := scanned + |raw|;
      if scanned > settings.maxScanned { return Failure(RegexScanBytes); }
      var found := false;
      for i := 0 to lib.findings(pattern, caseInsensitive, raw)
        invariant found == (i > 0)
        invariant evaluations == old(evaluations) + 1 <= settings.maxEvaluations
        invariant scanned == old(scanned) + |raw| <= settings.maxScanned
        invariant findings == old(findings) + i <= settings.maxFindings
      {
        found := true;
        findings := findings + 1;
        if findings > settings.maxFindings { return Failure(RegexMatches); }
      }
      return Success(found);
    }
  }

  // ------------------------------------------------------------- activation

  datatype Hits = Hits(sensitive: seq<bool>, folded: seq<bool>)

  ghost predicate HitsOk(lib: Library, ixs: Indexes, raw: string, hits: Hits) {
    && HitsExact(ixs.sensitive.patterns, lib.normalize(raw, true), hits.sensitive)
    && HitsExact(ixs.folded.patterns, lib.normalize(raw, false), hits.folded)
  }

  /** What evaluating something that should answer `truth` at cost `work` does to the work spent. */
  predicate Evaluated(r: Result<bool, LimitKind>, truth: bool, work: Work, before: Work, after: Work, s: Settings) {
    match r
    case Success(answer) => answer == truth && after == before.Plus(work) && Within(after, s)
    case Failure(kind) => Over(kind, before.Plus(work), s)
  }

  method MatchCondition(lib: Library, ghost ixs: Indexes, d: CompiledCondition, hits: Hits, raw: string,
      limits: EvaluationLimits, ghost c: Condition)
    returns (r: Result<bool, LimitKind>)
    requires HitsOk(lib, ixs, raw, hits) && Represents(lib, ixs, c, d) && Within(limits.Spent(), limits.settings)
    modifies limits
    ensures Evaluated(r, Holds(lib, c, raw), OneWork(lib, c, raw), old(limits.Spent()), limits.Spent(), limits.settings)
  {
    match d
    case LiteralRef(true, index) => return Success(hits.folded[index]);
    case LiteralRef(false, index) => return Success(hits.sensitive[index]);
    case RegexRef(pattern, ci) => r := limits.Evaluate(lib, pattern, ci, raw);
  }

  /** Conditions left to right until one answers `stop`. */
  method MatchChain(lib: Library, ghost ixs: Indexes, ds: seq<CompiledCondition>, hits: Hits, raw: string, stop: bool,
      limits: EvaluationLimits, ghost cs: seq<Condition>)
    returns (r: Result<bool, LimitKind>)
    requires HitsOk(lib, ixs, raw, hits) && RepresentsList(lib, ixs, cs, ds) && Within(limits.Spent(), limits.settings)
    modifies limits
    ensures Evaluated(r, if stop then AnyHolds(lib, cs, raw) else AllHold(lib, cs, raw), ChainWork(lib, cs, raw, stop),
              old(limits.Spent()), limits.Spent(), limits.settings)
  {
    hide HitsOk, Holds, OneWork, Represents;
    assert cs[0..] == cs;
    for i := 0 to |ds|
      invariant Within(limits.Spent(), limits.settings)
      invariant old(limits.Spent()).Plus(ChainWork(lib, cs, raw, stop)) ==
        limits.Spent().Plus(ChainWork(lib, cs[i..], raw, stop))
      invariant forall j | 0 <= j < i :: Holds(lib, cs[j], raw) != stop
    {
      assert cs[i..][1..] == cs[i + 1..] && cs[i] in cs;
      var one := MatchCondition(lib, ixs, ds[i], hits, raw, limits, cs[i]);
      if one.Failure? { return Failure(one.error); }
      if one.value == stop { return Success(stop); }
    }
    return Success(!stop);
  }

  method MatchConditions(lib: Library, ghost ixs: Indexes, ds: Conditions<CompiledCondition>, hits: Hits, raw: string,
      limits: EvaluationLimits, ghost cs: Conditions<Condition>)
    returns (r: Result<bool, LimitKind>)
    requires HitsOk(lib, ixs, raw, hits) && RepresentsConditions(lib, ixs, cs, ds)
    requires Within(limits.Spent(), limits.settings)
    modifies limits
    ensures Evaluated(r, ConditionsHold(lib, cs, raw), ConditionsWork(lib, cs, raw),
              old(limits.Spent()), limits.Spent(), limits.settings)
  {
    hide HitsOk, RepresentsList, AnyHolds, AllHold, ChainWork;
    var primary := MatchChain(lib, ixs, ds.primary, hits, raw, true, limits, cs.primary);
    if primary.Failure? || !primary.value { return primary; }
    match ds.secondary
    case NoSecondary => return Success(true);
    case AnyOf(more) => r := MatchChain(lib, ixs, more, hits, raw, true, limits, SecondaryList(cs.secondary));
    case AllOf(more) => r := MatchChain(lib, ixs, more, hits, raw, false, limits, SecondaryList(cs.secondary));
  }

  method MatchActivation(lib: Library, ghost ixs: Indexes, e: CompiledEntry, hits: Hits, raw: string, seed: nat,
      limits: EvaluationLimits)
    returns (r: Result<bool, LimitKind>)
    requires HitsOk(lib, ixs, raw, hits) && RepresentsActivation(lib, ixs, e.source.activation, e.activation)
    requires Within(limits.Spent(), limits.settings)
    modifies limits
    ensures Evaluated(r, Active(lib, e.source, raw, seed), EntryWork(lib, e.source, raw),
              old(limits.Spent()), limits.Spent(), limits.settings)
  {
    hide HitsOk, RepresentsConditions, ConditionsHold, ConditionsWork;
    match e.activation
    case Constant => return Success(true);
    case Selective(ds) =>
      r := MatchConditions(lib, ixs, ds, hits, raw, limits, e.source.activation.conditions);
    case Probability(points, guard) =>
      if guard.Some? {
        r := MatchConditions(lib, ixs, guard.value, hits, raw, limits, e.source.activation.guard.value);
        if r.Failure? || !r.value { return; }
      }
      return Success(Admits(lib, seed, e.source.id, points));
  }

  // --------------------------------------------------------- reference scan

  /** The distinct normalized keys of a list of conditions, sorted. */
  function Keys(lib: Library, cs: seq<Condition>, fold: bool): (r: seq<string>)
    ensures StrictlySorted(Less, r)
  {
    if cs == [] then []
    else
      var c := cs[|cs| - 1];
      var rest := Keys(lib, cs[..|cs| - 1], fold);
      if c.Literal? && c.caseSensitive != fold then Add(rest, lib.normalize(c.value, c.caseSensitive)) else rest
  }

  lemma {:induction false} KeysAreListed(lib: Library, cs: seq<Condition>, fold: bool)
    requires KeysFit(lib, cs)
    ensures ListsKeys(lib, cs, fold, Keys(lib, cs, fold))
  {
    if cs != [] {
      var before, c := cs[..|cs| - 1], cs[|cs| - 1];
      KeysAreListed(lib, before, fold);
      hide ListsKeys;
      AddListsKeys(lib, before, c, fold, Keys(lib, before, fold));
      assert before + [c] == cs;
    }
  }

  lemma ListedKeysAreKeys(lib: Library, cs: seq<Condition>, fold: bool, patterns: seq<string>)
    requires KeysFit(lib, cs) && ListsKeys(lib, cs, fold, patterns)
    ensures patterns == Keys(lib, cs, fold)
  {
    KeysAreListed(lib, cs, fold);
    var keys := Keys(lib, cs, fold);
    assert Elements(patterns) == Elements(keys) by {
      assert forall p :: p in patterns <==> p in keys;
    }
    LessOrders(Elements(keys));
    SortedUnique(Less, patterns, keys);
  }

  /** Occurrences of every distinct key in the text it is searched in. */
  function LiteralEvents(lib: Library, es: seq<Entry>, raw: string): nat {
    Events(Keys(lib, Flat(es), false), lib.normalize(raw, true))
    + Events(Keys(lib, Flat(es), true), lib.normalize(raw, false))
  }

  function Candidates(lib: Library, es: seq<Entry>, raw: string): seq<nat> {
    if es == [] then []
    else
      var rest := Candidates(lib, es[..|es| - 1], raw);
      if IsCandidate(lib, es[|es| - 1], raw) then rest + [|es| - 1] else rest
  }

  /** Whether scanning every entry stays inside every limit of the request. */
  predicate Affordable(lib: Library, es: seq<Entry>, s: Settings, raw: string) {
    LiteralEvents(lib, es, raw) <= s.maxLiteralEvents && Within(TotalWork(lib, es, raw), s)
  }

  /** The selection a scan of every entry makes. */
  function Scan(lib: Library, revision: U64, es: seq<Entry>, request: Request, raw: string,
      fingerprint: CacheKey): Selection
  {
    var active := ActiveOnes(lib, es, raw, request.seed);
    var prompt := Fill(Sort(Before, active), request.settings);
    Selection(prompt.text, Receipt(
      revision, request.conversation.chatRevision, request.conversation.branchRevision, fingerprint, false,
      |Candidates(lib, es, raw)|, |active|, prompt.ids, prompt.tokens, |prompt.text|,
      LiteralEvents(lib, es, raw), TotalWork(lib, es, raw)))
  }

  // -------------------------------------------------- order does not matter

  predicate Below(indices: seq<nat>, n: nat) {
    forall k | 0 <= k < |indices| :: indices[k] < n
  }

  /** The work of the entries at `indices`, in that order. */
  function SumAt(costs: seq<Work>, indices: seq<nat>): Work
    requires Below(indices, |costs|)
  {
    if indices == [] then NO_WORK
    else SumAt(costs, indices[..|indices| - 1]).Plus(costs[indices[|indices| - 1]])
  }

  lemma {:induction false} SumGrows(costs: seq<Work>, indices: seq<nat>, k: nat, kind: LimitKind, s: Settings)
    requires Below(indices, |costs|) && k <= |indices|
    requires Over(kind, SumAt(costs, indices[..k]), s)
    ensures Over(kind, SumAt(costs, indices), s)
  {
    if k == |indices| {
      assert indices[..k] == indices;
    } else {
      var rest := indices[..|indices| - 1];
      assert rest[..k] == indices[..k];
      SumGrows(costs, rest, k, kind, s);
    }
  }

  function Without(indices: seq<nat>, k: nat): seq<nat>
    requires k < |indices|
  {
    indices[..k] + indices[k + 1..]
  }

  lemma {:induction false} SumWithout(costs: seq<Work>, indices: seq<nat>, k: nat)
    requires Below(indices, |costs|) && k < |indices|
    ensures SumAt(costs, indices) == SumAt(costs, Without(indices, k)).Plus(costs[indices[k]])
  {
    var last := |indices| - 1;
    if k == last {
      assert Without(indices, k) == indices[..last];
    } else {
      SumWithout(costs, indices[..last], k);
      assert Without(indices, k)[..last - 1] == Without(indices[..last], k);
    }
  }

  /** Entries outside `indices` cost nothing. */
  predicate FreeOutside(costs: seq<Work>, indices: seq<nat>) {
    forall i | 0 <= i < |costs| && i !in indices :: costs[i] == NO_WORK
  }

  /** The candidates' work is the work of all entries, whatever order they come in. */
  lemma {:induction false} SumIsTotal(costs: seq<Work>, indices: seq<nat>)
    requires Distinct(indices) && Below(indices, |costs|) && FreeOutside(costs, indices)
    ensures SumAt(costs, indices) == Total(costs)
    decreases |costs|
  {
    if costs != [] {
      var n := |costs| - 1;
      var rest := indices;
      if n in indices {
        var k :| 0 <= k < |indices| && indices[k] == n;
        rest := Without(indices, k);
        SumWithout(costs, indices, k);
        WithoutKeepsOthers(indices, k);
      }
      DropLast(costs, indices, rest);
      hide FreeOutside, Below, Distinct, Without;
      SumIsTotal(costs[..n], rest);
      SumOfPrefix(costs, n, rest);
    }
  }

  lemma DropLast(costs: seq<Work>, indices: seq<nat>, rest: seq<nat>)
    requires costs != [] && Below(indices, |costs|) && FreeOutside(costs, indices)
    requires forall i :: i in rest <==> i in indices && i != |costs| - 1
    ensures Below(rest, |costs| - 1) && FreeOutside(costs[..|costs| - 1], rest)
  {
    forall k | 0 <= k < |rest| ensures rest[k] < |costs| - 1 {
      assert rest[k] in rest;
      var j :| 0 <= j < |indices| && indices[j] == rest[k];
    }
  }

  lemma WithoutKeepsOthers(indices: seq<nat>, k: nat)
    requires k < |indices| && Distinct(indices)
    ensures Distinct(Without(indices, k))
    ensures forall i :: i in Without(indices, k) <==> i in indices && i != indices[k]
  {
  }

  lemma {:induction false} SumOfPrefix(costs: seq<Work>, n: nat, indices: seq<nat>)
    requires n <= |costs| && Below(indices, n)
    ensures SumAt(costs, indices) == SumAt(costs[..n], indices)
  {
    if indices != [] { SumOfPrefix(costs, n, indices[..|indices| - 1]); }
  }

  // -------------------------------------------------------------- selection

  /** The candidate list: every entry the index cannot rule out, once each. */
  method FindCandidates(lib: Library, c: CompiledCatalog, hits: Hits, raw: string, ghost es: seq<Entry>)
    returns (r: seq<nat>)
    requires CompiledFrom(lib, es, c) && HitsOk(lib, c.indexes, raw, hits)
    ensures Distinct(r) && Below(r, |es|)
    ensures forall i | 0 <= i < |es| :: i in r <==> IsCandidate(lib, es[i], raw)
  {
    var seen := new bool[|c.entries|](i => false);
    assert Tracks(seen[..], []);
    assert MentionsBelow(c.indexes.sensitive, |es|) by { RegisteredBelow(lib, es, false, c.indexes.sensitive); }
    assert MentionsBelow(c.indexes.folded, |es|) by { RegisteredBelow(lib, es, true, c.indexes.folded); }
    forall i | 0 <= i < |es|
      ensures IsCandidate(lib, es[i], raw) <==>
        || i in c.unconditional
        || HitBy(c.indexes.sensitive.mentions, hits.sensitive, |hits.sensitive|, i)
        || HitBy(c.indexes.folded.mentions, hits.folded, |hits.folded|, i)
    {
      CandidateSources(lib, es, c, raw, hits, i);
    }
    hide CompiledFrom, HitsOk, IsCandidate, HitBy;
    assert forall e | e in c.unconditional :: e < seen.Length by { UnconditionalBelow(lib, es, c); }
    r := AddCandidates(c.unconditional, seen, []);
    r := AddPatternCandidates(c.indexes.sensitive.mentions, hits.sensitive, seen, r);
    r := AddPatternCandidates(c.indexes.folded.mentions, hits.folded, seen, r);
    assert forall k | 0 <= k < |r| :: r[k] in r;
  }

  ghost predicate MentionsBelow(ix: PatternIndex, n: nat) {
    forall k, e | 0 <= k < |ix.mentions| && e in ix.mentions[k] :: e < n
  }

  lemma RegisteredBelow(lib: Library, es: seq<Entry>, fold: bool, ix: PatternIndex)
    requires RegisteredIn(lib, es, |es|, [], fold, ix)
    ensures MentionsBelow(ix, |es|)
  {
  }

  lemma UnconditionalBelow(lib: Library, es: seq<Entry>, c: CompiledCatalog)
    requires CompiledFrom(lib, es, c)
    ensures forall e | e in c.unconditional :: e < |c.entries|
  {
  }

  lemma CandidateSources(lib: Library, es: seq<Entry>, c: CompiledCatalog, raw: string, hits: Hits, i: nat)
    requires CompiledFrom(lib, es, c) && HitsOk(lib, c.indexes, raw, hits) && i < |es|
    ensures |hits.sensitive| == |c.indexes.sensitive.mentions| && |hits.folded| == |c.indexes.folded.mentions|
    ensures IsCandidate(lib, es[i], raw) <==>
      || i in c.unconditional
      || HitBy(c.indexes.sensitive.mentions, hits.sensitive, |hits.sensitive|, i)
      || HitBy(c.indexes.folded.mentions, hits.folded, |hits.folded|, i)
  {
    HitMeansLiteral(lib, es, c.indexes.sensitive, false, raw, hits.sensitive, i);
    HitMeansLiteral(lib, es, c.indexes.folded, true, raw, hits.folded, i);
    assert ListsUnconditional(es, |es|, c.unconditional);
    hide HitBy, RegisteredIn, ListsKeys, HitsExact, Holds, Unconditional;
  }

  /** `matched` lists once each the candidates that are active. */
  ghost predicate MatchedAre(lib: Library, es: seq<Entry>, raw: string, seed: nat, candidates: seq<nat>,
      matched: seq<nat>)
  {
    && Distinct(matched) && Below(matched, |es|)
    && forall i: nat | i < |es| :: i in matched <==> i in candidates && Active(lib, es[i], raw, seed)
  }

  lemma NoneMatched(lib: Library, es: seq<Entry>, raw: string, seed: nat)
    ensures MatchedAre(lib, es, raw, seed, [], [])
  {
  }

  lemma MatchedNext(lib: Library, es: seq<Entry>, raw: string, seed: nat, candidates: seq<nat>, k: nat,
      matched: seq<nat>)
    requires Distinct(candidates) && Below(candidates, |es|) && k < |candidates|
    requires MatchedAre(lib, es, raw, seed, candidates[..k], matched)
    ensures MatchedAre(lib, es, raw, seed, candidates[..k + 1],
              if Active(lib, es[candidates[k]], raw, seed) then matched + [candidates[k]] else matched)
  {
  }

  /** The active entries among the candidates, with the work of all of them charged. */
  method EvaluateCandidates(lib: Library, c: CompiledCatalog, candidates: seq<nat>, hits: Hits, raw: string, seed: nat,
      limits: EvaluationLimits, ghost es: seq<Entry>)
    returns (r: Result<seq<nat>, LimitKind>)
    requires CompiledFrom(lib, es, c) && HitsOk(lib, c.indexes, raw, hits)
    requires Distinct(candidates) && Below(candidates, |es|)
    requires limits.Spent() == NO_WORK
    modifies limits
    ensures match r
      case Success(matched) =>
        && limits.Spent() == SumAt(Costs(lib, es, raw), candidates) && Within(limits.Spent(), limits.settings)
        && MatchedAre(lib, es, raw, seed, candidates, matched)
      case Failure(kind) => Over(kind, SumAt(Costs(lib, es, raw), candidates), limits.settings)
  {
    var matched: seq<nat> := [];
    ghost var costs := Costs(lib, es, raw);
    assert CompiledEntries(lib, es, c.indexes, c.entries) && |c.entries| == |es|;
    hide CompiledFrom, HitsOk, RepresentsActivation, Active, EntryWork, MatchedAre;
    assert MatchedAre(lib, es, raw, seed, candidates[..0], []) by { NoneMatched(lib, es, raw, seed); }
    for k := 0 to |candidates|
      invariant limits.Spent() == SumAt(costs, candidates[..k]) && Within(limits.Spent(), limits.settings)
      invariant MatchedAre(lib, es, raw, seed, candidates[..k], matched)
    {
      var i := candidates[k];
      assert candidates[..k + 1][..k] == candidates[..k];
      var one := MatchActivation(lib, c.indexes, c.entries[i], hits, raw, seed, limits);
      if one.Failure? {
        SumGrows(costs, candidates, k + 1, one.error, limits.settings);
        return Failure(one.error);
      }
      MatchedNext(lib, es, raw, seed, candidates, k, matched);
      if one.value { matched := matched + [i]; }
    }
    assert candidates[..|candidates|] == candidates;
    return Success(matched);
  }

  function Sources(es: seq<Entry>, indices: seq<nat>): seq<Entry>
    requires Below(indices, |es|)
  {
    seq(|indices|, k requires 0 <= k < |indices| => es[indices[k]])
  }

  lemma {:induction false} ActiveOnesAre(lib: Library, es: seq<Entry>, raw: string, seed: nat)
    requires UniqueIds(es)
    ensures UniqueIds(ActiveOnes(lib, es, raw, seed))
    ensures forall e :: e in ActiveOnes(lib, es, raw, seed) <==> e in es && Active(lib, e, raw, seed)
  {
    hide Active;
    if es != [] {
      var before, last := es[..|es| - 1], es[|es| - 1];
      ActiveOnesAre(lib, before, raw, seed);
      var rest := ActiveOnes(lib, before, raw, seed);
      assert es == before + [last];
      forall k | 0 <= k < |rest| ensures rest[k].id != last.id {
        assert rest[k] in before;
      }
    }
  }

  /** Ranking the matched candidates is ranking the active entries. */
  lemma SameRanking(lib: Library, es: seq<Entry>, raw: string, seed: nat, matched: seq<nat>)
    requires UniqueIds(es) && Distinct(matched) && Below(matched, |es|)
    requires forall i: nat | i < |es| :: i in matched <==> Active(lib, es[i], raw, seed)
    ensures Sort(Before, Sources(es, matched)) == Sort(Before, ActiveOnes(lib, es, raw, seed))
    ensures |matched| == |ActiveOnes(lib, es, raw, seed)|
  {
    hide Active;
    ActiveOnesAre(lib, es, raw, seed);
    var a, b := Sources(es, matched), ActiveOnes(lib, es, raw, seed);
    assert Distinct(a);
    forall e ensures e in Elements(a) <==> e in Elements(b) {
      if e in b {
        var i :| 0 <= i < |es| && es[i] == e;
        var k :| 0 <= k < |matched| && matched[k] == i;
        assert a[k] == e;
      }
      if e in a {
        var k :| 0 <= k < |a| && a[k] == e;
        assert matched[k] in matched;
      }
    }
    assert Elements(a) == Elements(b);
    BeforeOrders(Elements(a));
    SortForgetsOrder(Before, a, b);
    SortElements(Before, a);
    SortElements(Before, b);
  }

  lemma {:induction false} CandidatesAre(lib: Library, es: seq<Entry>, raw: string)
    ensures Distinct(Candidates(lib, es, raw))
    ensures forall i: nat :: i in Candidates(lib, es, raw) <==> i < |es| && IsCandidate(lib, es[i], raw)
  {
    hide IsCandidate;
    if es != [] {
      var before := es[..|es| - 1];
      CandidatesAre(lib, before, raw);
      var rest := Candidates(lib, before, raw);
      assert forall i: nat | i < |before| :: before[i] == es[i];
      assert forall i: nat :: i in rest + [|before|] <==> i in rest || i == |before|;
      assert forall k | 0 <= k < |rest| :: rest[k] in rest;
    }
  }

  predicate NatLess(a: nat, b: nat) { a < b }

  lemma SameCount(a: seq<nat>, b: seq<nat>)
    requires Distinct(a) && Distinct(b) && forall i :: i in a <==> i in b
    ensures |a| == |b|
  {
    assert Elements(a) == Elements(b);
    SortForgetsOrder(NatLess, a, b);
    SortElements(NatLess, a);
    SortElements(NatLess, b);
  }

  /** Greedy filling, entry by entry. */
  method FillPrompt(ranked: seq<Entry>, s: Settings) returns (text: string, ids: seq<string>, tokens: nat)
    ensures Prompt(text, ids, tokens) == Fill(ranked, s)
  {
    text, ids, tokens := "", [], 0;
    for k := 0 to |ranked|
      invariant Prompt(text, ids, tokens) == Fill(ranked[..k], s)
    {
      var e := ranked[k];
      assert ranked[..k + 1][..k] == ranked[..k];
      var separator := if ids == [] then 0 else |s.separator|;
      var nextBytes := |text| + separator + |e.content|;
      var nextTokens := tokens + e.reservedTokens;
      if nextBytes > s.maxOutputBytes || nextTokens > s.maxOutputTokens { continue; }
      if ids != [] { text := text + s.separator; }
      text := text + e.content;
      ids := ids + [e.id];
      tokens := nextTokens;
    }
    assert ranked[..|ranked|] == ranked;
  }

  /** Which patterns of both indexes occur in the search text. */
  method FindHits(lib: Library, c: CompiledCatalog, raw: string, work: LiteralWork, ghost es: seq<Entry>)
    returns (r: Result<Hits, LimitKind>)
    requires CompiledFrom(lib, es, c) && KeysFit(lib, Flat(es)) && work.events == 0
    modifies work
    ensures r.Success? ==> HitsOk(lib, c.indexes, raw, r.value)
    ensures r.Success? ==> work.events == LiteralEvents(lib, es, raw) <= work.maxEvents
    ensures r.Failure? ==> r.error == LiteralMatchEvents && LiteralEvents(lib, es, raw) > work.maxEvents
  {
    ListedKeysAreKeys(lib, Flat(es), false, c.indexes.sensitive.patterns);
    ListedKeysAreKeys(lib, Flat(es), true, c.indexes.folded.patterns);
    hide CompiledFrom, Occurs, Events;
    var sensitive := MatchPatterns(c.indexes.sensitive.patterns, lib.normalize(raw, true), work);
    if sensitive.Failure? { return Failure(sensitive.error); }
    var folded := MatchPatterns(c.indexes.folded.patterns, lib.normalize(raw, false), work);
    if folded.Failure? { return Failure(folded.error); }
    return Success(Hits(sensitive.value, folded.value));
  }

  /**
    Selecting through the index succeeds exactly when the scan of every enabled entry is affordable,
    and then returns the scan's selection, receipt included. A failure names a limit the scan exceeds.
  */
  method SelectUncached(lib: Library, c: CompiledCatalog, request: Request, raw: string, fingerprint: CacheKey,
      ghost es: seq<Entry>)
    returns (r: Result<Selection, LimitKind>)
    requires CompiledFrom(lib, es, c) && KeysFit(lib, Flat(es)) && UniqueIds(es)
    ensures r.Success? <==> Affordable(lib, es, request.settings, raw)
    ensures r.Success? ==> r.value == Scan(lib, c.revision, es, request, raw, fingerprint)
    ensures r.Failure? ==>
      if r.error == LiteralMatchEvents then LiteralEvents(lib, es, raw) > request.settings.maxLiteralEvents
      else Over(r.error, TotalWork(lib, es, raw), request.settings)
  {
    hide CompiledFrom, LiteralEvents, HitsOk, Costs, IsCandidate, Active;
    var literal := new LiteralWork(request.settings.maxLiteralEvents);
    var hits := FindHits(lib, c, raw, literal, es);
    if hits.Failure? { return Failure(hits.error); }
    var candidates := FindCandidates(lib, c, hits.value, raw, es);
    CandidatesCarryAll(lib, es, raw, request.seed, candidates);
    var limits := new EvaluationLimits(request.settings);
    var matched := EvaluateCandidates(lib, c, candidates, hits.value, raw, request.seed, limits, es);
    if matched.Failure? { return Failure(matched.error); }
    SameRanking(lib, es, raw, request.seed, matched.value);
    CompiledSources(lib, es, c);
    var entries := seq(|c.entries|, i requires 0 <= i < |c.entries| => c.entries[i].source);
    var text, ids, tokens := FillPrompt(Sort(Before, Sources(entries, matched.value)), request.settings);
    return Success(Selection(text, Receipt(
      c.revision, request.conversation.chatRevision, request.conversation.branchRevision, fingerprint, false,
      |candidates|, |matched.value|, ids, tokens, |text|, literal.events, limits.Spent())));
  }

  lemma CompiledSources(lib: Library, es: seq<Entry>, c: CompiledCatalog)
    requires CompiledFrom(lib, es, c)
    ensures seq(|c.entries|, i requires 0 <= i < |c.entries| => c.entries[i].source) == es
  {
  }

  /** Entries outside the candidate list neither cost work nor are active. */
  lemma CandidatesCarryAll(lib: Library, es: seq<Entry>, raw: string, seed: nat, candidates: seq<nat>)
    requires Distinct(candidates) && Below(candidates, |es|)
    requires forall i | 0 <= i < |es| :: i in candidates <==> IsCandidate(lib, es[i], raw)
    ensures SumAt(Costs(lib, es, raw), candidates) == TotalWork(lib, es, raw)
    ensures forall i: nat | i < |es| && Active(lib, es[i], raw, seed) :: i in candidates
    ensures |candidates| == |Candidates(lib, es, raw)|
  {
    var costs := Costs(lib, es, raw);
    forall i: nat | i < |es| && i !in candidates
      ensures costs[i] == NO_WORK && !Active(lib, es[i], raw, seed)
    {
      OthersAreInactive(lib, es[i], raw, seed);
    }
    hide IsCandidate, Active, EntryWork;
    SumIsTotal(costs, candidates);
    CandidatesAre(lib, es, raw);
    forall i ensures i in candidates <==> i in Candidates(lib, es, raw) {
      if i in candidates { var k :| 0 <= k < |candidates| && candidates[k] == i; }
    }
    SameCount(candidates, Candidates(lib, es, raw));
  }
}
