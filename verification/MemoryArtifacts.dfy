/** Summary jobs, the artifacts they produce, and which leaves an artifact stands for. */
module MemoryArtifacts {
  import opened Wrappers
  import opened Ordering
  import opened MemoryBudget

  const MAX_SOURCE_MESSAGES: nat := 4_096
  const MAX_SOURCE_BATCH_BYTES: nat := 4 * 1024 * 1024
  const MAX_SUMMARY_PLAN_BYTES: nat := 16 * 1024 * 1024
  const MAX_MEMORY_CANDIDATES: nat := 4_096
  const MAX_MEMORY_ARTIFACT_BYTES: nat := 256 * 1024

  /** The session an artifact, a job or a query belongs to, down to the revisions of its presets and model. */
  datatype Scope = Scope(chatId: string, characterId: string, generation: nat, presetId: string, presetRevision: nat,
                         promptPreset: string, summaryModel: string)

  datatype Policy = Policy(batchSize: nat, skipUser: bool, summaryPrompt: string, resummaryPrompt: string)

  /** A session's scope and the memory preset it is bound to. */
  datatype Binding = Binding(scope: Scope, preset: Preset, preserveCompacted: bool, policy: Policy, profile: string)

  /** What the caller believes the session is about. */
  datatype Expected = Expected(chatId: string, characterId: string)

  predicate ScopeExpected(b: Binding, e: Expected) {
    b.scope.chatId == e.chatId && b.scope.characterId == e.characterId
  }

  datatype Validity = Attached | SourceCompacted | InvalidatedByEdit | InvalidatedByDeletion

  datatype Kind = Leaf | Consolidated

  datatype Artifact = Artifact(id: string, revision: nat, scope: Scope, kind: Kind, first: nat, last: nat,
                               covered: seq<string>, content: string, validity: Validity)

  datatype Role = System | User | Assistant

  datatype Message = Message(id: string, chatId: string, sequence: nat, role: Role, content: string)

  datatype Source = Messages(messages: seq<Message>) | Artifacts(artifacts: seq<Artifact>)

  /** A job remembers the whole batch it was planned from, beside the messages it sends. */
  datatype Job = Job(scope: Scope, first: nat, last: nat, prompt: string, source: Source, batch: seq<Message>)

  datatype MemoryError =
    | BindingMismatch | OutsideSession | FilteredEmpty | Blank | ContentTooLarge | HasNul
    | TooManyLeaves | NoLeaves | NoArtifacts | TooMany | Invalidated | Compacted
    | DuplicateId | OutOfOrder | BatchTooLarge | PlanTooLarge

  // ---------------------------------------------------------------- lineage

  /** The sorted set of all leaves the sources cover. */
  function CoveredBy(sources: seq<Artifact>): (r: seq<string>)
    ensures StrictlySorted(Less, r)
  {
    if sources == [] then []
    else AddAll(CoveredBy(sources[..|sources| - 1]), sources[|sources| - 1].covered)
  }

  function AddAll(items: seq<string>, more: seq<string>): (r: seq<string>)
    requires StrictlySorted(Less, items)
    ensures StrictlySorted(Less, r) && |r| >= |items|
    ensures forall q :: q in r <==> q in items || q in more
  {
    if more == [] then items
    else
      var r := Add(AddAll(items, more[..|more| - 1]), more[|more| - 1]);
      AddGrows(AddAll(items, more[..|more| - 1]), more[|more| - 1]);
      assert more == more[..|more| - 1] + [more[|more| - 1]];
      r
  }

  lemma AddGrows(items: seq<string>, p: string)
    requires StrictlySorted(Less, items)
    ensures |Add(items, p)| == |items| + if p in items then 0 else 1
  {
    InsertElements(Less, p, items);
  }

  /** How an artifact came to be, down to the leaves. */
  datatype Derivation = FromMessages(artifact: Artifact) | FromArtifacts(artifact: Artifact, sources: seq<Derivation>)

  ghost function Results(ds: seq<Derivation>): seq<Artifact> {
    seq(|ds|, i requires 0 <= i < |ds| => ds[i].artifact)
  }

  /** Every artifact of the derivation covers what its job made it cover. */
  ghost predicate Sound(d: Derivation) {
    match d
    case FromMessages(a) => a.kind.Leaf? && a.covered == [a.id]
    case FromArtifacts(a, sources) =>
      && a.kind.Consolidated? && a.covered == CoveredBy(Results(sources))
      && forall i | 0 <= i < |sources| :: Sound(sources[i])
  }

  ghost predicate IsLeafOf(id: string, d: Derivation) {
    match d
    case FromMessages(a) => id == a.id
    case FromArtifacts(_, sources) => exists i | 0 <= i < |sources| :: IsLeafOf(id, sources[i])
  }

  ghost predicate Covers(sources: seq<Artifact>, id: string) {
    exists i | 0 <= i < |sources| :: id in sources[i].covered
  }

  lemma CoversOneMore(sources: seq<Artifact>, id: string)
    requires sources != []
    ensures var last := |sources| - 1;
      Covers(sources, id) <==> Covers(sources[..last], id) || id in sources[last].covered
  {
    var init := sources[..|sources| - 1];
    if i :| 0 <= i < |init| && id in init[i].covered {
      assert id in sources[i].covered;
    }
    if i :| 0 <= i < |init| && id in sources[i].covered {
      assert id in init[i].covered;
    }
  }

  lemma {:induction false} CoveredByAny(sources: seq<Artifact>, id: string)
    ensures id in CoveredBy(sources) <==> Covers(sources, id)
  {
    hide Covers, AddAll;
    if sources != [] {
      CoveredByAny(sources[..|sources| - 1], id);
      CoversOneMore(sources, id);
    } else {
      CoversNothing(id);
    }
  }

  lemma CoversNothing(id: string)
    ensures !Covers([], id)
  {
  }

  /** For any depth of re-summarising, an artifact covers exactly the leaves it was derived from, in order. */
  lemma {:induction false} CoveredAreTheLeaves(d: Derivation)
    requires Sound(d)
    ensures StrictlySorted(Less, d.artifact.covered)
    ensures forall id :: id in d.artifact.covered <==> IsLeafOf(id, d)
  {
    match d
    case FromMessages(a) =>
    case FromArtifacts(a, sources) =>
      forall id ensures id in a.covered <==> IsLeafOf(id, d) {
        CoveredByAny(Results(sources), id);
        forall i | 0 <= i < |sources| ensures id in Results(sources)[i].covered <==> IsLeafOf(id, sources[i]) {
          CoveredAreTheLeaves(sources[i]);
        }
      }
  }

  /** Binary search in the covered list. */
  method CoversLeaf(a: Artifact, id: string, ghost d: Derivation) returns (covers: bool)
    requires Sound(d) && d.artifact == a
    ensures covers <==> IsLeafOf(id, d)
  {
    CoveredAreTheLeaves(d);
    var at := Lookup(a.covered, id);
    return at.Some?;
  }

  // -------------------------------------------------------------- artifacts

  predicate SourceEmpty(s: Source) {
    match s case Messages(ms) => ms == [] case Artifacts(arts) => arts == []
  }

  /** Add one source's leaves, as long as the limit holds. */
  method CollectOne(before: seq<string>, leaves: seq<string>) returns (r: Result<seq<string>, MemoryError>)
    requires StrictlySorted(Less, before) && |before| <= MAX_MEMORY_CANDIDATES
    ensures r.Success? <==> |AddAll(before, leaves)| <= MAX_MEMORY_CANDIDATES
    ensures r.Success? ==> r.value == AddAll(before, leaves)
    ensures r.Failure? ==> r.error == TooManyLeaves
  {
    var covered := before;
    for j := 0 to |leaves|
      invariant covered == AddAll(before, leaves[..j]) && |covered| <= MAX_MEMORY_CANDIDATES
    {
      assert leaves[..j + 1][..j] == leaves[..j];
      covered := Add(covered, leaves[j]);
      if |covered| > MAX_MEMORY_CANDIDATES {
        AddAllGrows(before, leaves, j + 1);
        return Failure(TooManyLeaves);
      }
    }
    assert leaves[..|leaves|] == leaves;
    return Success(covered);
  }

  /** The union of the sources' leaves, as a sorted set that may not outgrow the candidate limit. */
  method CollectLeaves(sources: seq<Artifact>) returns (r: Result<seq<string>, MemoryError>)
    ensures r.Success? <==> |CoveredBy(sources)| <= MAX_MEMORY_CANDIDATES
    ensures r.Success? ==> r.value == CoveredBy(sources)
    ensures r.Failure? ==> r.error == TooManyLeaves
  {
    hide AddAll;
    var covered: seq<string> := [];
    for i := 0 to |sources|
      invariant covered == CoveredBy(sources[..i]) && |covered| <= MAX_MEMORY_CANDIDATES
    {
      assert sources[..i + 1][..i] == sources[..i];
      CoveredByGrows(sources, i + 1);
      var more := CollectOne(covered, sources[i].covered);
      if more.Failure? { return Failure(more.error); }
      covered := more.value;
    }
    assert sources[..|sources|] == sources;
    return Success(covered);
  }

  lemma {:induction false} AddAllGrows(items: seq<string>, more: seq<string>, k: nat)
    requires StrictlySorted(Less, items) && k <= |more|
    ensures |AddAll(items, more[..k])| <= |AddAll(items, more)|
  {
    if k == |more| {
      assert more[..k] == more;
    } else {
      var init := more[..|more| - 1];
      AddAllGrows(items, init, k);
      assert init[..k] == more[..k];
      AddGrows(AddAll(items, init), more[|more| - 1]);
    }
  }

  lemma {:induction false} CoveredByGrows(sources: seq<Artifact>, k: nat)
    requires k <= |sources|
    ensures |CoveredBy(sources[..k])| <= |CoveredBy(sources)|
  {
    if k == |sources| {
      assert sources[..k] == sources;
    } else {
      var init := sources[..|sources| - 1];
      CoveredByGrows(init, k);
      assert init[..k] == sources[..k];
    }
  }

  /** The characters with the Unicode property White_Space. */
  predicate IsSpace(c: char) {
    || '\t' <= c <= '\r' || c == ' ' || c == '\U{85}' || c == '\U{A0}' || c == '\U{1680}'
    || '\U{2000}' <= c <= '\U{200A}' || c == '\U{2028}' || c == '\U{2029}' || c == '\U{202F}' || c == '\U{205F}'
    || c == '\U{3000}'
  }

  predicate IsBlank(s: string) { forall i | 0 <= i < |s| :: IsSpace(s[i]) }

  predicate ContentOk(content: string) {
    !IsBlank(content) && |content| <= MAX_MEMORY_ARTIFACT_BYTES && '\0' !in content
  }

  /** The derivations of a job's sources, which a job over messages has none of. */
  ghost predicate DerivedFrom(source: Source, ds: seq<Derivation>) {
    match source
    case Messages(_) => ds == []
    case Artifacts(arts) => Results(ds) == arts && forall i | 0 <= i < |ds| :: Sound(ds[i])
  }

  ghost function DerivationOf(a: Artifact, source: Source, ds: seq<Derivation>): Derivation {
    if source.Messages? then FromMessages(a) else FromArtifacts(a, ds)
  }

  method CheckContent(content: string) returns (r: Result<(), MemoryError>)
    ensures r.Success? <==> ContentOk(content)
  {
    if IsBlank(content) { return Failure(Blank); }
    if |content| > MAX_MEMORY_ARTIFACT_BYTES { return Failure(ContentTooLarge); }
    if '\0' in content { return Failure(HasNul); }
    return Success(());
  }

  /**
   A finished job of the session becomes an attached artifact over the job's range. When the sources are
   soundly derived so is the artifact: it covers exactly the leaves below it.
  */
  method NewArtifact(b: Binding, e: Expected, job: Job, content: string, id: string, ghost ds: seq<Derivation>)
    returns (r: Result<Artifact, MemoryError>)
    ensures r.Success? <==>
      && ScopeExpected(b, e) && job.scope == b.scope && !SourceEmpty(job.source) && ContentOk(content)
      && (job.source.Artifacts? ==> 0 < |CoveredBy(job.source.artifacts)| <= MAX_MEMORY_CANDIDATES)
    ensures r.Success? ==>
      && r.value.id == id && r.value.revision == 1 && r.value.scope == b.scope
      && r.value.first == job.first && r.value.last == job.last
      && r.value.content == content && r.value.validity.Attached?
    ensures r.Success? && DerivedFrom(job.source, ds) ==> Sound(DerivationOf(r.value, job.source, ds))
  {
    if !ScopeExpected(b, e) { return Failure(BindingMismatch); }
    if job.scope != b.scope { return Failure(OutsideSession); }
    if SourceEmpty(job.source) { return Failure(FilteredEmpty); }
    hide ContentOk, CoveredBy;
    var checked := CheckContent(content);
    if checked.Failure? { return Failure(checked.error); }
    match job.source
    case Messages(_) =>
      return Success(Artifact(id, 1, b.scope, Leaf, job.first, job.last, [id], content, Attached));
    case Artifacts(sources) =>
      var covered := CollectLeaves(sources);
      if covered.Failure? { return Failure(covered.error); }
      if covered.value == [] { return Failure(NoLeaves); }
      return Success(Artifact(id, 1, b.scope, Consolidated, job.first, job.last, covered.value, content, Attached));
  }

  // ----------------------------------------------------------------- jobs

  predicate SnapshotOk(chatId: string, ms: seq<Message>) {
    && |ms| <= MAX_SOURCE_MESSAGES
    && (forall i | 0 <= i < |ms| :: ms[i].chatId == chatId)
    && (forall i, j | 0 <= i < j < |ms| :: ms[i].id != ms[j].id)
    && forall i, j | 0 <= i < j < |ms| :: ms[i].sequence < ms[j].sequence
  }

  function Included(ms: seq<Message>, skipUser: bool): seq<Message> {
    if ms == [] then []
    else Included(ms[..|ms| - 1], skipUser) + if skipUser && ms[|ms| - 1].role.User? then [] else [ms[|ms| - 1]]
  }

  function Bytes(ms: seq<Message>): nat {
    if ms == [] then 0 else Bytes(ms[..|ms| - 1]) + |ms[|ms| - 1].content|
  }

  /** The next batch starts at `k`. */
  function BatchEnd(n: nat, size: nat, k: nat): nat
    requires k < n && size > 0
    ensures k < BatchEnd(n, size, k) <= n
  {
    if n - k <= size then n else k + size
  }

  function JobFor(batch: seq<Message>, b: Binding): (j: Job)
    requires batch != []
    ensures j.source.Messages? && j.batch == batch && j.scope == b.scope
  {
    var sent := Included(batch, b.policy.skipUser);
    var prompt := if sent == [] then "" else b.policy.summaryPrompt;
    Job(b.scope, batch[0].sequence, batch[|batch| - 1].sequence, prompt, Messages(sent), batch)
  }

  function JobBytes(j: Job): nat
    requires j.source.Messages?
  {
    Bytes(j.source.messages) + |j.prompt|
  }

  /** The jobs for the messages from `k` on. */
  function JobsFrom(ms: seq<Message>, b: Binding, k: nat): seq<Job>
    requires k <= |ms| && b.policy.batchSize > 0
    decreases |ms| - k
  {
    if k == |ms| then []
    else
      var end := BatchEnd(|ms|, b.policy.batchSize, k);
      [JobFor(ms[k..end], b)] + JobsFrom(ms, b, end)
  }

  function PlanBytes(jobs: seq<Job>): nat
    requires forall j | j in jobs :: j.source.Messages?
  {
    if jobs == [] then 0 else JobBytes(jobs[0]) + PlanBytes(jobs[1..])
  }

  lemma {:induction false} JobsAreOfMessages(ms: seq<Message>, b: Binding, k: nat)
    requires k <= |ms| && b.policy.batchSize > 0
    ensures forall j | j in JobsFrom(ms, b, k) :: j.source.Messages? && j.scope == b.scope
    decreases |ms| - k
  {
    if k < |ms| { JobsAreOfMessages(ms, b, BatchEnd(|ms|, b.policy.batchSize, k)); }
  }

  ghost predicate BatchesFit(jobs: seq<Job>) {
    forall i | 0 <= i < |jobs| :: jobs[i].source.Messages? && Bytes(jobs[i].source.messages) <= MAX_SOURCE_BATCH_BYTES
  }

  ghost predicate Plannable(ms: seq<Message>, b: Binding)
    requires b.policy.batchSize > 0
  {
    && SnapshotOk(b.scope.chatId, ms) && BatchesFit(JobsFrom(ms, b, 0))
    && RestBytes(ms, b, 0) <= MAX_SUMMARY_PLAN_BYTES
  }

  /** Messages must be few enough, of the session's chat, distinct and strictly chronological. */
  method ValidateSnapshot(chatId: string, ms: seq<Message>) returns (r: Result<(), MemoryError>)
    ensures r.Success? <==> SnapshotOk(chatId, ms)
  {
    if |ms| > MAX_SOURCE_MESSAGES { return Failure(TooMany); }
    var ids: set<string> := {};
    var previous: Option<nat> := None;
    for i := 0 to |ms|
      invariant forall id :: id in ids <==> exists k | 0 <= k < i :: ms[k].id == id
      invariant SnapshotOk(chatId, ms[..i])
      invariant previous == if i == 0 then None else Some(ms[i - 1].sequence)
    {
      if ms[i].chatId != chatId { return Failure(BindingMismatch); }
      if ms[i].id in ids { return Failure(DuplicateId); }
      ids := ids + {ms[i].id};
      if previous.Some? && previous.value >= ms[i].sequence { return Failure(OutOfOrder); }
      previous := Some(ms[i].sequence);
    }
    assert ms[..|ms|] == ms;
    return Success(());
  }

  /** Batch by batch, within the byte limits of a batch and of the whole plan. */
  method PlanBatches(ms: seq<Message>, b: Binding) returns (r: Result<seq<Job>, MemoryError>)
    requires b.policy.batchSize > 0
    ensures r.Success? <==> BatchesFit(JobsFrom(ms, b, 0)) && RestBytes(ms, b, 0) <= MAX_SUMMARY_PLAN_BYTES
    ensures r.Success? ==> r.value == JobsFrom(ms, b, 0)
  {
    var jobs: seq<Job> := [];
    var planned: nat, k: nat := 0, 0;
    PlanNone(ms, b);
    hide Planned, JobsFrom, PlanBytes, RestBytes, Bytes, JobFor, JobBytes, BatchesFit, BatchEnd, Included;
    while k < |ms|
      invariant k <= |ms| && Planned(ms, b, k, jobs, planned) && planned <= MAX_SUMMARY_PLAN_BYTES
      decreases |ms| - k
    {
      var end := BatchEnd(|ms|, b.policy.batchSize, k);
      var job := JobFor(ms[k..end], b);
      PlanOne(ms, b, k, jobs, planned, end, job);
      if Bytes(job.source.messages) > MAX_SOURCE_BATCH_BYTES { return Failure(BatchTooLarge); }
      planned := planned + JobBytes(job);
      if planned > MAX_SUMMARY_PLAN_BYTES { return Failure(PlanTooLarge); }
      jobs := jobs + [job];
      k := end;
    }
    PlanAll(ms, b, jobs, planned);
    return Success(jobs);
  }

  /** The jobs and bytes planned up to message `k`. */
  ghost predicate Planned(ms: seq<Message>, b: Binding, k: nat, jobs: seq<Job>, planned: nat)
    requires k <= |ms| && b.policy.batchSize > 0
  {
    && JobsFrom(ms, b, 0) == jobs + JobsFrom(ms, b, k) && BatchesFit(jobs)
    && planned + RestBytes(ms, b, k) == RestBytes(ms, b, 0)
  }

  lemma PlanNone(ms: seq<Message>, b: Binding)
    requires b.policy.batchSize > 0
    ensures Planned(ms, b, 0, [], 0)
  {
    hide JobsFrom, RestBytes;
  }

  lemma PlanOne(ms: seq<Message>, b: Binding, k: nat, jobs: seq<Job>, planned: nat, end: nat, job: Job)
    requires b.policy.batchSize > 0 && k < |ms| && Planned(ms, b, k, jobs, planned)
    requires end == BatchEnd(|ms|, b.policy.batchSize, k) && job == JobFor(ms[k..end], b)
    ensures planned + JobBytes(job) <= RestBytes(ms, b, 0)
    ensures Bytes(job.source.messages) <= MAX_SOURCE_BATCH_BYTES ==>
      Planned(ms, b, end, jobs + [job], planned + JobBytes(job))
    ensures Bytes(job.source.messages) > MAX_SOURCE_BATCH_BYTES ==> !BatchesFit(JobsFrom(ms, b, 0))
  {
    RestSplits(ms, b, k);
    hide JobsFrom, PlanBytes, RestBytes, Bytes, JobFor, JobBytes, BatchesFit;
    Regroup(jobs, job, JobsFrom(ms, b, end));
    if Bytes(job.source.messages) > MAX_SOURCE_BATCH_BYTES {
      OneTooLarge(JobsFrom(ms, b, 0), |jobs|);
    } else {
      OneMoreFits(jobs, job);
    }
  }

  lemma PlanAll(ms: seq<Message>, b: Binding, jobs: seq<Job>, planned: nat)
    requires b.policy.batchSize > 0 && Planned(ms, b, |ms|, jobs, planned)
    ensures jobs == JobsFrom(ms, b, 0) && BatchesFit(jobs) && planned == RestBytes(ms, b, 0)
  {
    NoRest(ms, b);
  }

  method PlanInitialJobs(b: Binding, e: Expected, ms: seq<Message>) returns (r: Result<seq<Job>, MemoryError>)
    requires b.policy.batchSize > 0
    ensures r.Success? <==> ScopeExpected(b, e) && Plannable(ms, b)
    ensures r.Success? ==> r.value == JobsFrom(ms, b, 0)
  {
    hide SnapshotOk, JobsFrom, BatchesFit, RestBytes;
    if !ScopeExpected(b, e) { return Failure(BindingMismatch); }
    var valid := ValidateSnapshot(b.scope.chatId, ms);
    if valid.Failure? { return Failure(valid.error); }
    r := PlanBatches(ms, b);
  }

  lemma Regroup(a: seq<Job>, x: Job, b: seq<Job>)
    ensures a + ([x] + b) == a + [x] + b && (a + [x] + b)[|a|] == x
  {
  }

  lemma OneMoreFits(jobs: seq<Job>, job: Job)
    requires BatchesFit(jobs) && job.source.Messages? && Bytes(job.source.messages) <= MAX_SOURCE_BATCH_BYTES
    ensures BatchesFit(jobs + [job])
  {
  }

  lemma OneTooLarge(jobs: seq<Job>, i: nat)
    requires i < |jobs| && jobs[i].source.Messages? && Bytes(jobs[i].source.messages) > MAX_SOURCE_BATCH_BYTES
    ensures !BatchesFit(jobs)
  {
  }

  lemma NoRest(ms: seq<Message>, b: Binding)
    requires b.policy.batchSize > 0
    ensures JobsFrom(ms, b, |ms|) == [] && RestBytes(ms, b, |ms|) == 0
  {
  }

  /** The bytes of the jobs for the messages from `k` on. */
  ghost function RestBytes(ms: seq<Message>, b: Binding, k: nat): nat
    requires k <= |ms| && b.policy.batchSize > 0
  {
    JobsAreOfMessages(ms, b, k);
    PlanBytes(JobsFrom(ms, b, k))
  }

  lemma RestSplits(ms: seq<Message>, b: Binding, k: nat)
    requires k < |ms| && b.policy.batchSize > 0
    ensures
      var end := BatchEnd(|ms|, b.policy.batchSize, k);
      && JobsFrom(ms, b, k) == [JobFor(ms[k..end], b)] + JobsFrom(ms, b, end)
      && RestBytes(ms, b, k) == JobBytes(JobFor(ms[k..end], b)) + RestBytes(ms, b, end)
  {
  }

  // ------------------------------------------------------------- partition

  function Joined(jobs: seq<Job>): seq<Message> {
    if jobs == [] then [] else jobs[0].batch + Joined(jobs[1..])
  }

  /** The jobs' batches are the messages, cut into pieces of at most the batch size. */
  lemma {:induction false} JobsPartition(ms: seq<Message>, b: Binding, k: nat)
    requires k <= |ms| && b.policy.batchSize > 0
    ensures Joined(JobsFrom(ms, b, k)) == ms[k..]
    ensures forall j | j in JobsFrom(ms, b, k) :: 0 < |j.batch| <= b.policy.batchSize
    decreases |ms| - k
  {
    if k < |ms| {
      var end := BatchEnd(|ms|, b.policy.batchSize, k);
      JobsPartition(ms, b, end);
      assert JobsFrom(ms, b, k)[1..] == JobsFrom(ms, b, end);
      assert ms[k..] == ms[k..end] + ms[end..];
    }
  }

  /** Each job's range is in order and before the ranges of the jobs after it. */
  ghost predicate Increasing(jobs: seq<Job>) {
    && (forall i | 0 <= i < |jobs| :: jobs[i].first <= jobs[i].last)
    && forall i, j | 0 <= i < j < |jobs| :: jobs[i].last < jobs[j].first
  }

  lemma {:induction false} JobsAreIncreasing(ms: seq<Message>, b: Binding, k: nat)
    requires k <= |ms| && b.policy.batchSize > 0 && SnapshotOk(b.scope.chatId, ms)
    ensures Increasing(JobsFrom(ms, b, k))
    ensures forall j | j in JobsFrom(ms, b, k) :: k < |ms| && j.first >= ms[k].sequence
    decreases |ms| - k
  {
    if k < |ms| {
      var end := BatchEnd(|ms|, b.policy.batchSize, k);
      JobsAreIncreasing(ms, b, end);
      var head, rest := JobFor(ms[k..end], b), JobsFrom(ms, b, end);
      assert head.first == ms[k].sequence && head.last == ms[end - 1].sequence;
      forall i | 0 <= i < |rest| ensures head.last < rest[i].first { assert rest[i] in rest; }
    }
  }

  // -------------------------------------------------------------- resummary

  predicate ValidityOk(a: Artifact, preserve: bool) {
    a.validity.Attached? || (a.validity.SourceCompacted? && preserve)
  }

  predicate Chronological(arts: seq<Artifact>) {
    forall i | 0 < i < |arts| :: arts[i - 1].last < arts[i].first
  }

  function ContentBytes(arts: seq<Artifact>): nat {
    if arts == [] then 0 else ContentBytes(arts[..|arts| - 1]) + |arts[|arts| - 1].content|
  }

  predicate DistinctIds(arts: seq<Artifact>) {
    forall i, j | 0 <= i < j < |arts| :: arts[i].id != arts[j].id
  }

  ghost predicate Resummarizable(b: Binding, arts: seq<Artifact>) {
    && 0 < |arts| <= MAX_SOURCE_MESSAGES
    && (forall i | 0 <= i < |arts| :: arts[i].scope == b.scope && ValidityOk(arts[i], b.preserveCompacted))
    && DistinctIds(arts) && Chronological(arts)
    && ContentBytes(arts) <= MAX_SOURCE_BATCH_BYTES
  }

  /** Every artifact belongs to the session and is usable, none is repeated, and they are in order. */
  method CheckSources(b: Binding, arts: seq<Artifact>) returns (r: Result<(), MemoryError>)
    ensures r.Success? <==>
      && (forall i | 0 <= i < |arts| :: arts[i].scope == b.scope && ValidityOk(arts[i], b.preserveCompacted))
      && DistinctIds(arts) && Chronological(arts)
  {
    var ids: set<string> := {};
    var previous: Option<nat> := None;
    for i := 0 to |arts|
      invariant forall k | 0 <= k < i :: arts[k].scope == b.scope && ValidityOk(arts[k], b.preserveCompacted)
      invariant forall id :: id in ids <==> exists k | 0 <= k < i :: arts[k].id == id
      invariant DistinctIds(arts[..i]) && Chronological(arts[..i])
      invariant previous == if i == 0 then None else Some(arts[i - 1].last)
    {
      var a := arts[i];
      if a.scope != b.scope { return Failure(OutsideSession); }
      if a.validity.InvalidatedByEdit? || a.validity.InvalidatedByDeletion? { return Failure(Invalidated); }
      if a.validity.SourceCompacted? && !b.preserveCompacted { return Failure(Compacted); }
      if a.id in ids { return Failure(DuplicateId); }
      ids := ids + {a.id};
      if previous.Some? && previous.value >= a.first { return Failure(OutOfOrder); }
      previous := Some(a.last);
    }
    assert arts[..|arts|] == arts;
    return Success(());
  }

  /** A job over artifacts: accepted exactly when they are usable, distinct and strictly chronological. */
  method PlanResummary(b: Binding, e: Expected, arts: seq<Artifact>) returns (r: Result<Job, MemoryError>)
    ensures r.Success? <==> ScopeExpected(b, e) && Resummarizable(b, arts)
    ensures r.Success? ==>
      r.value == Job(b.scope, arts[0].first, arts[|arts| - 1].last, b.policy.resummaryPrompt, Artifacts(arts), [])
  {
    if !ScopeExpected(b, e) { return Failure(BindingMismatch); }
    if arts == [] { return Failure(NoArtifacts); }
    if |arts| > MAX_SOURCE_MESSAGES { return Failure(TooMany); }
    hide DistinctIds, Chronological, ValidityOk;
    var checked := CheckSources(b, arts);
    if checked.Failure? { return Failure(checked.error); }
    var bytes := SumContent(arts);
    if bytes.Failure? { return Failure(bytes.error); }
    return Success(
        Job(b.scope, arts[0].first, arts[|arts| - 1].last, b.policy.resummaryPrompt, Artifacts(arts), []));
  }

  method SumContent(arts: seq<Artifact>) returns (r: Result<nat, MemoryError>)
    ensures r.Success? <==> ContentBytes(arts) <= MAX_SOURCE_BATCH_BYTES
    ensures r.Success? ==> r.value == ContentBytes(arts)
  {
    var total := 0;
    for i := 0 to |arts|
      invariant total == ContentBytes(arts[..i]) <= MAX_SOURCE_BATCH_BYTES
    {
      assert arts[..i + 1][..i] == arts[..i];
      total := total + |arts[i].content|;
      if total > MAX_SOURCE_BATCH_BYTES {
        ContentGrows(arts, i + 1);
        return Failure(BatchTooLarge);
      }
    }
    assert arts[..|arts|] == arts;
    return Success(total);
  }

  lemma {:induction false} ContentGrows(arts: seq<Artifact>, k: nat)
    requires k <= |arts|
    ensures ContentBytes(arts[..k]) <= ContentBytes(arts)
  {
    if k == |arts| {
      assert arts[..k] == arts;
    } else {
      ContentGrows(arts[..|arts| - 1], k);
      assert arts[..|arts| - 1][..k] == arts[..k];
    }
  }

  /** The artifacts of some of the initial jobs, in job order. */
  ghost predicate MadeFrom(jobs: seq<Job>, picks: seq<nat>, arts: seq<Artifact>) {
    && |picks| == |arts|
    && (forall k | 0 <= k < |picks| :: picks[k] < |jobs|)
    && (forall k | 0 < k < |picks| :: picks[k - 1] < picks[k])
    && forall k | 0 <= k < |arts| ::
         && arts[k].scope == jobs[picks[k]].scope
         && arts[k].first == jobs[picks[k]].first && arts[k].last == jobs[picks[k]].last
         && arts[k].validity.Attached?
  }

  /**
    Whatever initial jobs yield artifacts, those artifacts can be summarized again:
    the order check cannot fail, so only ids and sizes are left to ask about.
  */
  lemma InitialArtifactsAreAccepted(ms: seq<Message>, b: Binding, picks: seq<nat>, arts: seq<Artifact>)
    requires b.policy.batchSize > 0 && SnapshotOk(b.scope.chatId, ms) && MadeFrom(JobsFrom(ms, b, 0), picks, arts)
    ensures Resummarizable(b, arts) <==>
      0 < |arts| <= MAX_SOURCE_MESSAGES && DistinctIds(arts) && ContentBytes(arts) <= MAX_SOURCE_BATCH_BYTES
  {
    JobsAreIncreasing(ms, b, 0);
    JobsAreOfMessages(ms, b, 0);
    hide JobsFrom, SnapshotOk, MadeFrom, Increasing, DistinctIds, Chronological;
    MadeInOrder(JobsFrom(ms, b, 0), b, picks, arts);
  }

  lemma MadeInOrder(jobs: seq<Job>, b: Binding, picks: seq<nat>, arts: seq<Artifact>)
    requires Increasing(jobs) && MadeFrom(jobs, picks, arts) && forall j | j in jobs :: j.scope == b.scope
    ensures Chronological(arts)
    ensures forall i | 0 <= i < |arts| :: arts[i].scope == b.scope && arts[i].validity.Attached?
  {
    forall i | 0 < i < |arts| ensures arts[i - 1].last < arts[i].first {
      assert picks[i - 1] < picks[i];
    }
    forall i | 0 <= i < |arts| ensures arts[i].scope == b.scope {
      assert jobs[picks[i]] in jobs;
    }
  }
}
