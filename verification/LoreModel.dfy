/**
  Lorebook entries and what it means for one to be active: a scan of every enabled entry,
  condition by condition, with no index. Strings stand for their UTF-8 bytes.
*/
module LoreModel {
  import opened Wrappers
  import opened Ordering

  const TWO_64: nat := 0x1_0000_0000_0000_0000

  type U64 = n: nat | n < TWO_64

  datatype Condition =
    | Literal(value: string, caseSensitive: bool)
    | Regex(pattern: string, requiredLiteral: string, caseInsensitive: bool)

  // The shape of an activation, over source conditions here and over compiled ones in the engine.

  datatype Secondary<C> = NoSecondary | AnyOf(conditions: seq<C>) | AllOf(conditions: seq<C>)

  datatype Conditions<C> = Conditions(primary: seq<C>, secondary: Secondary<C>)

  datatype Activation<C> =
    | Constant
    | Selective(conditions: Conditions<C>)
    | Probability(basisPoints: nat, guard: Option<Conditions<C>>)

  datatype Source = Global | CharacterCard | Chat

  datatype Entry = Entry(id: string, source: Source, priority: int, order: int, enabled: bool,
                         activation: Activation<Condition>, content: string, reservedTokens: nat)

  datatype Catalog = Catalog(revision: U64, entries: seq<Entry>)

  /** The library code the engine calls: normalization, the regex crate and the hash bucket of an id. */
  datatype Library = Library(
    normalize: (string, bool) -> string,
    compiles: (string, bool) -> bool,
    findings: (string, bool, string) -> nat,
    bucket: (nat, string) -> nat)

  // ------------------------------------------------------------- activation

  /** `pattern` occurs in `text` so that its last byte is just before `end`. */
  predicate EndsAt(pattern: string, text: string, end: nat) {
    |pattern| <= end <= |text| && text[end - |pattern|..end] == pattern
  }

  predicate Occurs(pattern: string, text: string) {
    exists end | 0 <= end <= |text| :: EndsAt(pattern, text, end)
  }

  /** Whether one condition holds of the raw search text. */
  predicate Holds(lib: Library, c: Condition, raw: string) {
    match c
    case Literal(value, cs) => Occurs(lib.normalize(value, cs), lib.normalize(raw, cs))
    case Regex(pattern, _, ci) => lib.findings(pattern, ci, raw) > 0
  }

  predicate AnyHolds(lib: Library, cs: seq<Condition>, raw: string) {
    exists c | c in cs :: Holds(lib, c, raw)
  }

  predicate AllHold(lib: Library, cs: seq<Condition>, raw: string) {
    forall c | c in cs :: Holds(lib, c, raw)
  }

  predicate ConditionsHold(lib: Library, cs: Conditions<Condition>, raw: string) {
    && AnyHolds(lib, cs.primary, raw)
    && match cs.secondary
       case NoSecondary => true
       case AnyOf(more) => AnyHolds(lib, more, raw)
       case AllOf(more) => AllHold(lib, more, raw)
  }

  predicate Admits(lib: Library, seed: nat, id: string, basisPoints: nat) {
    basisPoints != 0 && (basisPoints == 10_000 || lib.bucket(seed, id) < basisPoints)
  }

  predicate Active(lib: Library, e: Entry, raw: string, seed: nat) {
    match e.activation
    case Constant => true
    case Selective(cs) => ConditionsHold(lib, cs, raw)
    case Probability(points, guard) =>
      (guard.None? || ConditionsHold(lib, guard.value, raw)) && Admits(lib, seed, e.id, points)
  }

  function SecondaryList<C>(s: Secondary<C>): seq<C> {
    if s.NoSecondary? then [] else s.conditions
  }

  function ConditionList<C>(cs: Conditions<C>): seq<C> {
    cs.primary + SecondaryList(cs.secondary)
  }

  function ActivationConditions<C>(a: Activation<C>): Option<Conditions<C>> {
    match a
    case Constant => None
    case Selective(cs) => Some(cs)
    case Probability(_, guard) => guard
  }

  /** Every condition an activation mentions, in order. */
  function Mentioned<C>(a: Activation<C>): seq<C> {
    var cs := ActivationConditions(a);
    if cs.None? then [] else ConditionList(cs.value)
  }

  // ----------------------------------------------------------------- effort

  /** What evaluating regexes costs: how many, how many bytes scanned, how many findings. */
  datatype Work = Work(evaluations: nat, scanned: nat, findings: nat) {
    function Plus(w: Work): Work {
      Work(evaluations + w.evaluations, scanned + w.scanned, findings + w.findings)
    }
  }

  const NO_WORK := Work(0, 0, 0)

  function OneWork(lib: Library, c: Condition, raw: string): Work {
    match c
    case Literal(_, _) => NO_WORK
    case Regex(pattern, _, ci) => Work(1, |raw|, lib.findings(pattern, ci, raw))
  }

  /** Left to right until the answer is `stop`. */
  function ChainWork(lib: Library, cs: seq<Condition>, raw: string, stop: bool): Work {
    if cs == [] then NO_WORK
    else OneWork(lib, cs[0], raw).Plus(
      if Holds(lib, cs[0], raw) == stop then NO_WORK else ChainWork(lib, cs[1..], raw, stop))
  }

  function ConditionsWork(lib: Library, cs: Conditions<Condition>, raw: string): Work {
    ChainWork(lib, cs.primary, raw, true).Plus(
      if !AnyHolds(lib, cs.primary, raw) then NO_WORK
      else match cs.secondary
        case NoSecondary => NO_WORK
        case AnyOf(more) => ChainWork(lib, more, raw, true)
        case AllOf(more) => ChainWork(lib, more, raw, false))
  }

  function EntryWork(lib: Library, e: Entry, raw: string): Work {
    var cs := ActivationConditions(e.activation);
    if cs.None? then NO_WORK else ConditionsWork(lib, cs.value, raw)
  }

  // -------------------------------------------------------- the whole catalog

  /** The entries of a catalog that are switched on, in catalog order. */
  function Enabled(es: seq<Entry>): seq<Entry> {
    if es == [] then []
    else if es[|es| - 1].enabled then Enabled(es[..|es| - 1]) + [es[|es| - 1]]
    else Enabled(es[..|es| - 1])
  }

  function ActiveOnes(lib: Library, es: seq<Entry>, raw: string, seed: nat): seq<Entry> {
    if es == [] then []
    else
      var rest := ActiveOnes(lib, es[..|es| - 1], raw, seed);
      var last := es[|es| - 1];
      if Active(lib, last, raw, seed) then rest + [last] else rest
  }

  function Total(costs: seq<Work>): Work {
    if costs == [] then NO_WORK else Total(costs[..|costs| - 1]).Plus(costs[|costs| - 1])
  }

  function Costs(lib: Library, es: seq<Entry>, raw: string): seq<Work> {
    seq(|es|, i requires 0 <= i < |es| => EntryWork(lib, es[i], raw))
  }

  /** The regex work of examining every entry. */
  function TotalWork(lib: Library, es: seq<Entry>, raw: string): Work {
    Total(Costs(lib, es, raw))
  }

  function Precedence(s: Source): nat {
    match s case Global => 0 case CharacterCard => 1 case Chat => 2
  }

  /** The prompt order: high priority, near source, low order, then id. */
  predicate Before(a: Entry, b: Entry) {
    if a.priority != b.priority then a.priority > b.priority
    else if a.source != b.source then Precedence(a.source) > Precedence(b.source)
    else if a.order != b.order then a.order < b.order
    else Less(a.id, b.id)
  }

  predicate UniqueIds(es: seq<Entry>) {
    forall i, j | 0 <= i < j < |es| :: es[i].id != es[j].id
  }

  ghost predicate DistinctById(es: set<Entry>) {
    forall a, b | a in es && b in es && a.id == b.id :: a == b
  }

  /** Entries with distinct ids are totally ordered, so the prompt order has no ties. */
  lemma BeforeOrders(es: set<Entry>)
    requires DistinctById(es)
    ensures Orders(Before, es)
  {
    forall x | x in es ensures !Before(x, x) { LessIrreflexive(x.id); }
    forall x, y | x in es && y in es ensures x == y || Before(x, y) || Before(y, x) {
      LessTotal(x.id, y.id);
    }
    forall x, y, z | x in es && y in es && z in es && Before(x, y) && Before(y, z) ensures Before(x, z) {
      if Less(x.id, y.id) && Less(y.id, z.id) { LessTransitive(x.id, y.id, z.id); }
    }
  }

  // ------------------------------------------------------------------- fill

  datatype Settings = Settings(
    searchDepth: nat, includePartial: bool, maxOutputTokens: nat, maxOutputBytes: nat,
    maxLiteralEvents: nat, maxEvaluations: nat, maxScanned: nat, maxFindings: nat,
    tokenizerId: string, tokenizerRevision: string, separator: string)

  datatype MessageState = Complete | Partial | Failed

  datatype Turn = Turn(revision: U64, state: MessageState, content: string)

  datatype Summary = Missing | Corrupt(revision: U64) | Available(revision: U64, content: string)

  datatype Conversation = Conversation(
    chatRevision: U64, branchRevision: U64, totalTurns: U64, recentTurns: seq<Turn>, summary: Summary)

  datatype Request = Request(conversation: Conversation, settings: Settings, seed: U64)

  datatype Prompt = Prompt(text: string, ids: seq<string>, tokens: nat)

  /** The prompt with one more entry, or unchanged when the entry would not fit. */
  function Place(p: Prompt, e: Entry, s: Settings): Prompt {
    var text := p.text + (if p.ids == [] then "" else s.separator) + e.content;
    if |text| > s.maxOutputBytes || p.tokens + e.reservedTokens > s.maxOutputTokens then p
    else Prompt(text, p.ids + [e.id], p.tokens + e.reservedTokens)
  }

  /** Filling a prompt greedily in order. */
  function Fill(ranked: seq<Entry>, s: Settings): Prompt {
    if ranked == [] then Prompt("", [], 0)
    else Place(Fill(ranked[..|ranked| - 1], s), ranked[|ranked| - 1], s)
  }

  function Joined(es: seq<Entry>, separator: string): string {
    if es == [] then ""
    else if |es| == 1 then es[0].content
    else Joined(es[..|es| - 1], separator) + separator + es[|es| - 1].content
  }

  function Ids(es: seq<Entry>): seq<string> {
    seq(|es|, i requires 0 <= i < |es| => es[i].id)
  }

  function Tokens(es: seq<Entry>): nat {
    if es == [] then 0 else Tokens(es[..|es| - 1]) + es[|es| - 1].reservedTokens
  }

  /** The entries the prompt took, in order. */
  ghost function Taken(ranked: seq<Entry>, s: Settings): seq<Entry> {
    if ranked == [] then []
    else
      var before := ranked[..|ranked| - 1];
      var last := ranked[|ranked| - 1];
      if Place(Fill(before, s), last, s) == Fill(before, s) then Taken(before, s) else Taken(before, s) + [last]
  }

  /** The filled prompt is the joined contents of some of the entries in rank order, and keeps both budgets. */
  lemma {:induction false} FillTakes(ranked: seq<Entry>, s: Settings)
    ensures Fill(ranked, s).ids == Ids(Taken(ranked, s))
    ensures Fill(ranked, s).text == Joined(Taken(ranked, s), s.separator)
    ensures Fill(ranked, s).tokens == Tokens(Taken(ranked, s)) <= s.maxOutputTokens
    ensures |Fill(ranked, s).text| <= s.maxOutputBytes
    ensures forall e | e in Taken(ranked, s) :: e in ranked
  {
    if ranked != [] {
      var before := ranked[..|ranked| - 1];
      FillTakes(before, s);
      var taken := Taken(ranked, s);
      if taken != Taken(before, s) {
        assert taken[..|taken| - 1] == Taken(before, s);
      }
    }
  }

  /** An entry left out would not have fitted after the entries ranked above it. */
  lemma {:induction false} FillIsGreedy(ranked: seq<Entry>, s: Settings, i: nat)
    requires i < |ranked|
    ensures
      var above := Taken(ranked[..i], s);
      ranked[i].id in Fill(ranked, s).ids
      || |Joined(above + [ranked[i]], s.separator)| > s.maxOutputBytes
      || Tokens(above + [ranked[i]]) > s.maxOutputTokens
    decreases |ranked|
  {
    var before := ranked[..|ranked| - 1];
    var above := Taken(ranked[..i], s);
    if i < |ranked| - 1 {
      FillIsGreedy(before, s, i);
      assert before[..i] == ranked[..i];
    } else {
      FillTakes(before, s);
      assert (above + [ranked[i]])[..|above|] == above;
      assert before == ranked[..i];
      var p := Fill(before, s);
      if Place(p, ranked[i], s) != p {
        assert Fill(ranked, s).ids[|p.ids|] == ranked[i].id;
      }
    }
  }
}
