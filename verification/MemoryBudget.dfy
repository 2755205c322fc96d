/** How many prompt tokens each kind of memory may use. */
module MemoryBudget {
  import opened Ordering

  const SCALE: nat := 10_000
  const MAX_U32: nat := 0xFFFF_FFFF

  datatype Mix = Mix(recent: nat, similar: nat, random: nat)

  /** Three basis-point shares are a mix only when they make up the whole. */
  predicate MixOk(m: Mix) { m.recent + m.similar + m.random == SCALE }

  datatype Strategy = RollingSummary | HybridRetrieval(mix: Mix)

  datatype Preset = Preset(memoryBudget: nat, additionalDetail: nat, strategy: Strategy)

  predicate PresetOk(p: Preset) {
    p.memoryBudget <= SCALE && p.additionalDetail <= SCALE && (p.strategy.HybridRetrieval? ==> MixOk(p.strategy.mix))
  }

  datatype Input = Input(maxContext: nat, maxOutput: nat, nonMemory: nat)

  predicate InputOk(i: Input) {
    0 < i.maxOutput <= i.maxContext <= MAX_U32 && i.nonMemory <= i.maxContext - i.maxOutput
  }

  datatype Budget = Budget(capacity: nat, remaining: nat, total: nat, consolidated: nat, detail: nat,
                           recent: nat, similar: nat, random: nat)

  // -------------------------------------------------------------- apportion

  /** The exact quota of a weight, rounded down, and what rounding lost. */
  function Quota(total: nat, weight: nat): nat { total * weight / SCALE }

  function Lost(total: nat, weight: nat): nat { total * weight % SCALE }

  datatype Loss = Loss(amount: nat, index: nat)

  /** Larger losses first, then lower indices. */
  predicate LosesMore(a: Loss, b: Loss) { a.amount > b.amount || (a.amount == b.amount && a.index < b.index) }

  /** Each share is its quota or one more; larger losses are made up first, and of equal ones the first listed. */
  ghost predicate RoundedFairly(quotas: seq<nat>, losses: seq<nat>, shares: seq<nat>)
    requires |quotas| == |losses| == |shares|
  {
    && (forall i | 0 <= i < |shares| :: quotas[i] <= shares[i] <= quotas[i] + 1)
    && (forall i | 0 <= i < |shares| && losses[i] == 0 :: shares[i] == quotas[i])
    && forall i, j | 0 <= i < |shares| && 0 <= j < |shares| && shares[i] > quotas[i] && shares[j] == quotas[j] ::
         LosesMore(Loss(losses[i], i), Loss(losses[j], j))
  }

  function Quotas(total: nat, weights: seq<nat>): seq<nat> {
    seq(|weights|, i requires 0 <= i < |weights| => Quota(total, weights[i]))
  }

  function Losses(total: nat, weights: seq<nat>): seq<nat> {
    seq(|weights|, i requires 0 <= i < |weights| => Lost(total, weights[i]))
  }

  /** The method of largest remainders over three weights. */
  ghost predicate Apportioned(total: nat, weights: seq<nat>, shares: seq<nat>)
    requires |weights| == |shares| == 3
  {
    && shares[0] + shares[1] + shares[2] == total
    && RoundedFairly(Quotas(total, weights), Losses(total, weights), shares)
    && forall i | 0 <= i < 3 && weights[i] == 0 :: shares[i] == 0
  }

  /** What rounding loses adds up to as many whole tokens as are left to hand out, and these are fewer than three. */
  lemma LossesAddUp(total: nat, a: nat, b: nat, c: nat)
    requires a + b + c == SCALE
    ensures Quota(total, a) + Quota(total, b) + Quota(total, c) <= total
    ensures Lost(total, a) + Lost(total, b) + Lost(total, c)
            == SCALE * (total - Quota(total, a) - Quota(total, b) - Quota(total, c))
    ensures total - Quota(total, a) - Quota(total, b) - Quota(total, c) <= 2
  {
  }

  /** `ranked` lists each of the three indices with its loss, the larger losses first. */
  ghost predicate Ranked(losses: seq<nat>, ranked: seq<Loss>) {
    && |losses| == |ranked| == 3
    && (forall k | 0 <= k < 3 :: ranked[k].index < 3 && losses[ranked[k].index] == ranked[k].amount)
    && LosesMore(ranked[0], ranked[1]) && LosesMore(ranked[1], ranked[2]) && LosesMore(ranked[0], ranked[2])
  }

  lemma RankedLosses(losses: seq<nat>, listed: seq<Loss>, ranked: seq<Loss>)
    requires |losses| == |listed| == 3 && (forall i | 0 <= i < 3 :: listed[i] == Loss(losses[i], i))
    requires ranked == Sort(LosesMore, listed)
    ensures Ranked(losses, ranked)
  {
    assert Orders(LosesMore, Elements(listed));
    SortSorts(LosesMore, listed);
    SortElements(LosesMore, listed);
    forall k | 0 <= k < 3 ensures ranked[k].index < 3 && losses[ranked[k].index] == ranked[k].amount {
      assert ranked[k] in Elements(ranked);
      assert ranked[k] in listed;
    }
    assert LosesMore(ranked[0], ranked[1]) && LosesMore(ranked[1], ranked[2]) && LosesMore(ranked[0], ranked[2]);
  }

  /** Rounding up the top of the ranking is fair: what is left over is more than the unlucky could have lost. */
  lemma TopLosersOnly(quotas: seq<nat>, losses: seq<nat>, ranked: seq<Loss>, extra: nat, shares: seq<nat>)
    requires |quotas| == |shares| == 3 && Ranked(losses, ranked) && extra <= 2
    requires losses[0] + losses[1] + losses[2] == SCALE * extra && forall i | 0 <= i < 3 :: losses[i] < SCALE
    requires forall k | 0 <= k < 3 :: shares[ranked[k].index] == quotas[ranked[k].index] + if k < extra then 1 else 0
    ensures RoundedFairly(quotas, losses, shares)
  {
  }

  method Apportion(total: nat, weights: seq<nat>) returns (r: seq<nat>)
    requires |weights| == 3 && weights[0] + weights[1] + weights[2] == SCALE
    ensures |r| == 3 && Apportioned(total, weights, r)
  {
    ghost var quotas, losses := Quotas(total, weights), Losses(total, weights);
    LossesAddUp(total, weights[0], weights[1], weights[2]);
    LossesAreSmall(total, weights);
    var shares := new nat[3];
    var listed := new Loss[3];
    var given := RoundDown(total, weights, shares, listed);
    assert shares[..] == quotas && forall i | 0 <= i < 3 :: listed[..][i] == Loss(losses[i], i);
    hide Quota, Lost, RoundedFairly, Quotas, Losses;
    var ranked := Sort(LosesMore, listed[..]);
    RankedLosses(losses, listed[..], ranked);
    RoundUp(shares, ranked, total - given, losses);
    r := shares[..];
    TopLosersOnly(quotas, losses, ranked, total - given, r);
    NothingFromNothing(total, weights, r);
  }

  /** The rounded-down quotas and what each lost. */
  method RoundDown(total: nat, weights: seq<nat>, shares: array<nat>, listed: array<Loss>) returns (given: nat)
    requires |weights| == shares.Length == listed.Length == 3
    modifies shares, listed
    ensures forall k | 0 <= k < 3 ::
      shares[k] == Quota(total, weights[k]) && listed[k] == Loss(Lost(total, weights[k]), k)
    ensures given == shares[0] + shares[1] + shares[2]
  {
    hide Quota, Lost;
    given := 0;
    for i := 0 to 3
      invariant forall k | 0 <= k < i ::
        shares[k] == Quota(total, weights[k]) && listed[k] == Loss(Lost(total, weights[k]), k)
      invariant given ==
        (if i > 0 then shares[0] else 0) + (if i > 1 then shares[1] else 0) + (if i > 2 then shares[2] else 0)
    {
      shares[i] := Quota(total, weights[i]);
      listed[i] := Loss(Lost(total, weights[i]), i);
      given := given + shares[i];
    }
  }

  /** One more token for each of the first `extra` indices of the ranking. */
  method RoundUp(shares: array<nat>, ranked: seq<Loss>, extra: nat, ghost losses: seq<nat>)
    requires shares.Length == 3 && Ranked(losses, ranked) && extra <= 2
    modifies shares
    ensures shares[0] + shares[1] + shares[2] == old(shares[0] + shares[1] + shares[2]) + extra
    ensures forall k | 0 <= k < 3 ::
      shares[ranked[k].index] == old(shares[..])[ranked[k].index] + if k < extra then 1 else 0
  {
    for j := 0 to extra
      invariant shares[0] + shares[1] + shares[2] == old(shares[0] + shares[1] + shares[2]) + j
      invariant forall k | 0 <= k < 3 ::
        shares[ranked[k].index] == old(shares[..])[ranked[k].index] + if k < j then 1 else 0
    {
      var i := ranked[j].index;
      shares[i] := shares[i] + 1;
    }
  }

  /** Largest remainders leave no choice. */
  lemma ApportionedOnce(total: nat, weights: seq<nat>, a: seq<nat>, b: seq<nat>)
    requires |weights| == |a| == |b| == 3 && Apportioned(total, weights, a) && Apportioned(total, weights, b)
    ensures a == b
  {
    hide Quotas, Losses;
    assert a[0] == b[0] && a[1] == b[1] && a[2] == b[2];
  }

  lemma LossesAreSmall(total: nat, weights: seq<nat>)
    ensures forall i | 0 <= i < |weights| :: Losses(total, weights)[i] < SCALE
  {
  }

  lemma NothingFromNothing(total: nat, weights: seq<nat>, shares: seq<nat>)
    requires |weights| == |shares| && RoundedFairly(Quotas(total, weights), Losses(total, weights), shares)
    ensures forall i | 0 <= i < |weights| && weights[i] == 0 :: shares[i] == 0
  {
  }

  // -------------------------------------------------------------- calculate

  /** A part of a token count in basis points, rounded down. */
  function ScaleTokens(tokens: nat, points: nat): (r: nat)
    requires points <= SCALE
    ensures r <= tokens
  {
    PartIsSmaller(tokens, points);
    tokens * points / SCALE
  }

  lemma PartIsSmaller(tokens: nat, points: nat)
    requires points <= SCALE
    ensures tokens * points / SCALE <= tokens
  {
  }

  /** Every token of the memory budget goes to exactly one part, and the budget fits what the prompt leaves. */
  ghost predicate BudgetOk(p: Preset, i: Input, b: Budget)
    requires PresetOk(p) && InputOk(i)
  {
    && b.capacity == i.maxContext - i.maxOutput && b.remaining == b.capacity - i.nonMemory
    && b.total <= b.remaining && b.total <= ScaleTokens(b.capacity, p.memoryBudget)
    && (b.total == b.remaining || b.total == ScaleTokens(b.capacity, p.memoryBudget))
    && b.detail == ScaleTokens(b.total, p.additionalDetail)
    && b.consolidated + b.detail == b.total
    && b.recent + b.similar + b.random == b.detail
    && match p.strategy
       case RollingSummary => b.similar == 0 && b.random == 0
       case HybridRetrieval(mix) =>
         Apportioned(b.detail, [mix.recent, mix.similar, mix.random], [b.recent, b.similar, b.random])
  }

  /** A preset and a prompt fix the budget. */
  lemma BudgetOnce(p: Preset, i: Input, a: Budget, b: Budget)
    requires PresetOk(p) && InputOk(i) && BudgetOk(p, i, a) && BudgetOk(p, i, b)
    ensures a == b
  {
    hide Apportioned, ScaleTokens;
    if p.strategy.HybridRetrieval? {
      var mix := p.strategy.mix;
      var x, y := [a.recent, a.similar, a.random], [b.recent, b.similar, b.random];
      ApportionedOnce(a.detail, [mix.recent, mix.similar, mix.random], x, y);
      assert x[0] == y[0] && x[1] == y[1] && x[2] == y[2];
    }
  }

  method Calculate(p: Preset, i: Input) returns (b: Budget)
    requires PresetOk(p) && InputOk(i)
    ensures BudgetOk(p, i, b)
  {
    hide Apportioned;
    var capacity := i.maxContext - i.maxOutput;
    var remaining := capacity - i.nonMemory;
    var cap := ScaleTokens(capacity, p.memoryBudget);
    var total := if cap < remaining then cap else remaining;
    var detail := ScaleTokens(total, p.additionalDetail);
    match p.strategy {
      case RollingSummary => b := Budget(capacity, remaining, total, total - detail, detail, detail, 0, 0);
      case HybridRetrieval(mix) =>
        var shares := Apportion(detail, [mix.recent, mix.similar, mix.random]);
        assert shares == [shares[0], shares[1], shares[2]];
        SharesAddUp(detail, [mix.recent, mix.similar, mix.random], shares);
        b := Budget(capacity, remaining, total, total - detail, detail, shares[0], shares[1], shares[2]);
    }
  }

  lemma SharesAddUp(total: nat, weights: seq<nat>, shares: seq<nat>)
    requires |weights| == |shares| == 3 && Apportioned(total, weights, shares)
    ensures shares[0] + shares[1] + shares[2] == total
  {
  }
}
