/** Compiling a lorebook catalog into pattern indexes and candidate lists. */
module LoreCompile {
  import opened Wrappers
  import opened Ordering
  import opened LoreModel

  const MAX_CATALOG_ENTRIES: nat := 100_000
  const MAX_CATALOG_BYTES: nat := 64 * 1024 * 1024
  const MAX_ENTRY_CONTENT_BYTES: nat := 256 * 1024
  const MAX_ENTRY_CONDITIONS: nat := 64
  const MAX_KEY_BYTES: nat := 4 * 1024
  const MAX_REGEX_BYTES: nat := 4 * 1024
  const MAX_OUTPUT_TOKENS: nat := 1_000_000
  const MAX_ACTIVE_REGEX_CONDITIONS: nat := 1_024
  const MAX_ACTIVE_REGEX_PATTERN_BYTES: nat := 1024 * 1024

  datatype CompileError =
    | InvalidCatalog
    | EmptyKey
    | TooManyRegexes
    | RegexesTooLarge
    | InvalidRegex(entryIndex: nat)
    | InconsistentIndex
    | GenerationOverflow

  datatype CompiledCondition =
    | LiteralRef(folded: bool, index: nat)
    | RegexRef(pattern: string, caseInsensitive: bool)

  datatype CompiledEntry = CompiledEntry(source: Entry, activation: Activation<CompiledCondition>)

  /** Sorted distinct patterns, and for each the entries that mention it. */
  datatype PatternIndex = PatternIndex(patterns: seq<string>, mentions: seq<seq<nat>>)

  datatype Indexes = Indexes(sensitive: PatternIndex, folded: PatternIndex) {
    function Of(fold: bool): PatternIndex { if fold then folded else sensitive }

    function With(fold: bool, ix: PatternIndex): Indexes {
      if fold then this.(folded := ix) else this.(sensitive := ix)
    }
  }

  datatype CompiledCatalog = CompiledCatalog(
    revision: U64, generation: U64, entries: seq<CompiledEntry>, indexes: Indexes, unconditional: seq<nat>)

  // ------------------------------------------------------------- validation

  predicate ConditionValid(c: Condition) {
    match c
    case Literal(value, _) => 0 < |value| <= MAX_KEY_BYTES
    case Regex(pattern, required, _) => 0 < |required| <= MAX_KEY_BYTES && 0 < |pattern| <= MAX_REGEX_BYTES
  }

  predicate ConditionsValid(cs: Conditions<Condition>) {
    && cs.primary != []
    && (cs.secondary.NoSecondary? || cs.secondary.conditions != [])
    && |ConditionList(cs)| <= MAX_ENTRY_CONDITIONS
    && forall c | c in ConditionList(cs) :: ConditionValid(c)
  }

  predicate EntryValid(e: Entry) {
    && 0 < |e.content| <= MAX_ENTRY_CONTENT_BYTES
    && 0 < e.reservedTokens <= MAX_OUTPUT_TOKENS
    && (e.activation.Probability? ==> e.activation.basisPoints <= 10_000)
    && var cs := ActivationConditions(e.activation); cs.None? || ConditionsValid(cs.value)
  }

  function ConditionBytes(cs: seq<Condition>): nat {
    if cs == [] then 0
    else ConditionBytes(cs[..|cs| - 1]) + match cs[|cs| - 1]
      case Literal(value, _) => |value|
      case Regex(pattern, required, _) => |pattern| + |required|
  }

  function CatalogBytes(es: seq<Entry>): nat {
    if es == [] then 0
    else
      var e := es[|es| - 1];
      CatalogBytes(es[..|es| - 1]) + |e.id| + |e.content| + ConditionBytes(Mentioned(e.activation))
  }

  predicate CatalogValid(c: Catalog) {
    && c.revision > 0
    && |c.entries| <= MAX_CATALOG_ENTRIES
    && (forall e | e in c.entries :: EntryValid(e))
    && UniqueIds(c.entries)
    && CatalogBytes(c.entries) <= MAX_CATALOG_BYTES
  }

  // ------------------------------------------------------------------ census

  /** Every condition of a list of entries. */
  function Flat(es: seq<Entry>): seq<Condition> {
    if es == [] then [] else Flat(es[..|es| - 1]) + Mentioned(es[|es| - 1].activation)
  }

  predicate KeyFits(lib: Library, c: Condition) {
    c.Literal? ==> lib.normalize(c.value, c.caseSensitive) != ""
  }

  predicate KeysFit(lib: Library, cs: seq<Condition>) {
    forall c | c in cs :: KeyFits(lib, c)
  }

  predicate RegexBuilds(lib: Library, c: Condition) {
    c.Regex? ==> lib.compiles(c.pattern, c.caseInsensitive)
  }

  predicate RegexesBuild(lib: Library, cs: seq<Condition>) {
    forall c | c in cs :: RegexBuilds(lib, c)
  }

  function RegexCount(cs: seq<Condition>): nat {
    if cs == [] then 0 else RegexCount(cs[..|cs| - 1]) + if cs[|cs| - 1].Regex? then 1 else 0
  }

  function RegexBytes(cs: seq<Condition>): nat {
    if cs == [] then 0
    else RegexBytes(cs[..|cs| - 1]) + if cs[|cs| - 1].Regex? then |cs[|cs| - 1].pattern| else 0
  }

  /** `p` is the normalized key of a literal of `cs` searched in the folded (or unfolded) text. */
  ghost predicate KeyOf(lib: Library, cs: seq<Condition>, fold: bool, p: string) {
    exists c | c in cs && c.Literal? && c.caseSensitive != fold :: lib.normalize(c.value, c.caseSensitive) == p
  }

  datatype Census = Census(sensitive: seq<string>, folded: seq<string>, regexes: nat, bytes: nat)

  ghost predicate ListsKeys(lib: Library, cs: seq<Condition>, fold: bool, patterns: seq<string>) {
    && StrictlySorted(Less, patterns)
    && "" !in patterns
    && forall p :: p in patterns <==> KeyOf(lib, cs, fold, p)
  }

  ghost predicate Counts(lib: Library, cs: seq<Condition>, census: Census) {
    && ListsKeys(lib, cs, false, census.sensitive)
    && ListsKeys(lib, cs, true, census.folded)
    && census.regexes == RegexCount(cs)
    && census.bytes == RegexBytes(cs)
  }

  lemma AddListsKeys(lib: Library, cs: seq<Condition>, c: Condition, fold: bool, patterns: seq<string>)
    requires ListsKeys(lib, cs, fold, patterns) && KeyFits(lib, c)
    ensures ListsKeys(lib, cs + [c], fold,
              if c.Literal? && c.caseSensitive != fold then Add(patterns, lib.normalize(c.value, c.caseSensitive))
              else patterns)
  {
  }

  /** One condition's part in the census. */
  function Note(lib: Library, c: Condition, census: Census): (r: Census)
    requires StrictlySorted(Less, census.sensitive) && StrictlySorted(Less, census.folded)
  {
    match c
    case Literal(value, true) => census.(sensitive := Add(census.sensitive, lib.normalize(value, true)))
    case Literal(value, false) => census.(folded := Add(census.folded, lib.normalize(value, false)))
    case Regex(pattern, _, _) => census.(regexes := census.regexes + 1, bytes := census.bytes + |pattern|)
  }

  lemma NoteCounts(lib: Library, cs: seq<Condition>, c: Condition, census: Census)
    requires Counts(lib, cs, census) && KeyFits(lib, c)
    ensures Counts(lib, cs + [c], Note(lib, c, census))
  {
  }

  /** One entry's conditions added to the census. */
  method NoteAll(lib: Library, cs: seq<Condition>, before: Census, ghost seen: seq<Condition>)
    returns (r: Result<Census, CompileError>)
    requires Counts(lib, seen, before)
    ensures r.Success? <==> KeysFit(lib, cs)
    ensures r.Success? ==> Counts(lib, seen + cs, r.value)
    ensures r.Failure? ==> r.error == EmptyKey
  {
    var census := before;
    assert seen + cs[..0] == seen;
    for j := 0 to |cs|
      invariant KeysFit(lib, cs[..j])
      invariant Counts(lib, seen + cs[..j], census)
    {
      if !KeyFits(lib, cs[j]) { return Failure(EmptyKey); }
      NoteCounts(lib, seen + cs[..j], cs[j], census);
      assert seen + cs[..j] + [cs[j]] == seen + cs[..j + 1];
      census := Note(lib, cs[j], census);
    }
    assert cs[..|cs|] == cs;
    return Success(census);
  }

  /** The first pass: sorted key sets and the regex totals, or failure on a key that normalizes away. */
  method TakeCensus(lib: Library, es: seq<Entry>) returns (r: Result<Census, CompileError>)
    ensures r.Success? <==> KeysFit(lib, Flat(es))
    ensures r.Success? ==> Counts(lib, Flat(es), r.value)
    ensures r.Failure? ==> r.error == EmptyKey
  {
    var census := Census([], [], 0, 0);
    assert Counts(lib, [], census);
    hide Counts;
    for i := 0 to |es|
      invariant KeysFit(lib, Flat(es[..i]))
      invariant Counts(lib, Flat(es[..i]), census)
    {
      assert es[..i + 1][..i] == es[..i];
      var noted := NoteAll(lib, Mentioned(es[i].activation), census, Flat(es[..i]));
      if noted.Failure? {
        ghost var c :| c in Mentioned(es[i].activation) && !KeyFits(lib, c);
        FlatContains(es, i, c);
        return Failure(noted.error);
      }
      census := noted.value;
    }
    assert es[..|es|] == es;
    return Success(census);
  }

  lemma {:induction false} FlatContains(es: seq<Entry>, i: nat, c: Condition)
    requires i < |es| && c in Mentioned(es[i].activation)
    ensures c in Flat(es)
  {
    if i < |es| - 1 { FlatContains(es[..|es| - 1], i, c); }
  }

  lemma {:induction false} FlatComesFrom(es: seq<Entry>, c: Condition) returns (i: nat)
    requires c in Flat(es)
    ensures i < |es| && c in Mentioned(es[i].activation)
  {
    if c in Mentioned(es[|es| - 1].activation) { i := |es| - 1; }
    else { i := FlatComesFrom(es[..|es| - 1], c); }
  }

  // ------------------------------------------------------------ compilation

  /** The compiled condition names the source condition's key, or its regex. */
  predicate Represents(lib: Library, ixs: Indexes, c: Condition, d: CompiledCondition) {
    match c
    case Literal(value, cs) =>
      && d.LiteralRef? && d.folded == !cs
      && d.index < |ixs.Of(!cs).patterns|
      && ixs.Of(!cs).patterns[d.index] == lib.normalize(value, cs)
    case Regex(pattern, _, ci) => d == RegexRef(pattern, ci)
  }

  predicate RepresentsList(lib: Library, ixs: Indexes, cs: seq<Condition>, ds: seq<CompiledCondition>) {
    |cs| == |ds| && forall i | 0 <= i < |cs| :: Represents(lib, ixs, cs[i], ds[i])
  }

  predicate RepresentsConditions(lib: Library, ixs: Indexes, cs: Conditions<Condition>,
      ds: Conditions<CompiledCondition>)
  {
    && RepresentsList(lib, ixs, cs.primary, ds.primary)
    && (cs.secondary.NoSecondary? <==> ds.secondary.NoSecondary?)
    && (cs.secondary.AnyOf? <==> ds.secondary.AnyOf?)
    && RepresentsList(lib, ixs, SecondaryList(cs.secondary), SecondaryList(ds.secondary))
  }

  predicate RepresentsActivation(lib: Library, ixs: Indexes, a: Activation<Condition>, b: Activation<CompiledCondition>)
  {
    match a
    case Constant => b.Constant?
    case Selective(cs) => b.Selective? && RepresentsConditions(lib, ixs, cs, b.conditions)
    case Probability(points, guard) =>
      && b.Probability? && b.basisPoints == points
      && guard.None? == b.guard.None?
      && (guard.Some? ==> RepresentsConditions(lib, ixs, guard.value, b.guard.value))
  }

  lemma RepresentsMentioned(lib: Library, ixs: Indexes, a: Activation<Condition>, b: Activation<CompiledCondition>)
    requires RepresentsActivation(lib, ixs, a, b)
    ensures RepresentsList(lib, ixs, Mentioned(a), Mentioned(b))
  {
  }

  /** The sorted keys of both indexes are those of `cs`. */
  ghost predicate KeyedBy(lib: Library, ixs: Indexes, cs: seq<Condition>) {
    forall fold: bool :: ListsKeys(lib, cs, fold, ixs.Of(fold).patterns)
  }

  method CompileCondition(lib: Library, ixs: Indexes, entryIndex: nat, c: Condition, ghost all: seq<Condition>)
    returns (r: Result<CompiledCondition, CompileError>)
    requires KeyedBy(lib, ixs, all) && c in all
    ensures r.Success? <==> RegexBuilds(lib, c)
    ensures r.Success? ==> Represents(lib, ixs, c, r.value)
    ensures r.Failure? ==> r.error == InvalidRegex(entryIndex)
  {
    match c
    case Literal(value, cs) =>
      var key := lib.normalize(value, cs);
      assert KeyOf(lib, all, !cs, key);
      assert ListsKeys(lib, all, !cs, ixs.Of(!cs).patterns);
      var at := Lookup(ixs.Of(!cs).patterns, key);
      if at.None? { return Failure(InconsistentIndex); }
      return Success(LiteralRef(!cs, at.value));
    case Regex(pattern, _, ci) =>
      if !lib.compiles(pattern, ci) { return Failure(InvalidRegex(entryIndex)); }
      return Success(RegexRef(pattern, ci));
  }

  method CompileList(lib: Library, ixs: Indexes, entryIndex: nat, cs: seq<Condition>, ghost all: seq<Condition>)
    returns (r: Result<seq<CompiledCondition>, CompileError>)
    requires KeyedBy(lib, ixs, all) && forall c | c in cs :: c in all
    ensures r.Success? <==> RegexesBuild(lib, cs)
    ensures r.Success? ==> RepresentsList(lib, ixs, cs, r.value)
    ensures r.Failure? ==> r.error == InvalidRegex(entryIndex)
  {
    var ds := [];
    for i := 0 to |cs|
      invariant RepresentsList(lib, ixs, cs[..i], ds)
      invariant RegexesBuild(lib, cs[..i])
    {
      var d := CompileCondition(lib, ixs, entryIndex, cs[i], all);
      if d.Failure? { return Failure(d.error); }
      ds := ds + [d.value];
    }
    assert cs[..|cs|] == cs;
    return Success(ds);
  }

  method CompileConditions(lib: Library, ixs: Indexes, entryIndex: nat, cs: Conditions<Condition>,
      ghost all: seq<Condition>)
    returns (r: Result<Conditions<CompiledCondition>, CompileError>)
    requires KeyedBy(lib, ixs, all) && forall c | c in ConditionList(cs) :: c in all
    ensures r.Success? <==> RegexesBuild(lib, ConditionList(cs))
    ensures r.Success? ==> RepresentsConditions(lib, ixs, cs, r.value)
    ensures r.Failure? ==> r.error == InvalidRegex(entryIndex)
  {
    hide KeyedBy;
    var primary := CompileList(lib, ixs, entryIndex, cs.primary, all);
    if primary.Failure? { return Failure(primary.error); }
    var more := CompileList(lib, ixs, entryIndex, SecondaryList(cs.secondary), all);
    if more.Failure? { return Failure(more.error); }
    var secondary := match cs.secondary
      case NoSecondary => NoSecondary
      case AnyOf(_) => AnyOf(more.value)
      case AllOf(_) => AllOf(more.value);
    return Success(Conditions(primary.value, secondary));
  }

  method CompileActivation(lib: Library, ixs: Indexes, entryIndex: nat, a: Activation<Condition>,
      ghost all: seq<Condition>)
    returns (r: Result<Activation<CompiledCondition>, CompileError>)
    requires KeyedBy(lib, ixs, all) && forall c | c in Mentioned(a) :: c in all
    ensures r.Success? <==> RegexesBuild(lib, Mentioned(a))
    ensures r.Success? ==> RepresentsActivation(lib, ixs, a, r.value)
    ensures r.Failure? ==> r.error == InvalidRegex(entryIndex)
  {
    hide KeyedBy, RepresentsConditions;
    match a
    case Constant =>
      return Success(Constant);
    case Selective(cs) =>
      var ds := CompileConditions(lib, ixs, entryIndex, cs, all);
      if ds.Failure? { return Failure(ds.error); }
      return Success(Selective(ds.value));
    case Probability(points, guard) =>
      if guard.None? { return Success(Probability(points, None)); }
      var ds := CompileConditions(lib, ixs, entryIndex, guard.value, all);
      if ds.Failure? { return Failure(ds.error); }
      return Success(Probability(points, Some(ds.value)));
  }

  // ---------------------------------------------------------- registration

  ghost predicate Increasing(s: seq<nat>) {
    forall i, j | 0 <= i < j < |s| :: s[i] < s[j]
  }

  /** `mentions` lists, in order, the entries below `upto` that mention the key, and `upto` if `cs` does. */
  ghost predicate Lists(lib: Library, es: seq<Entry>, upto: nat, cs: seq<Condition>, fold: bool, key: string,
      mentions: seq<nat>)
    requires upto <= |es|
  {
    && Increasing(mentions)
    && forall i: nat :: i in mentions <==>
         (i < upto && KeyOf(lib, Mentioned(es[i].activation), fold, key)) || (i == upto && KeyOf(lib, cs, fold, key))
  }

  ghost predicate RegisteredIn(lib: Library, es: seq<Entry>, upto: nat, cs: seq<Condition>, fold: bool,
      ix: PatternIndex)
    requires upto <= |es|
  {
    && |ix.mentions| == |ix.patterns|
    && forall k | 0 <= k < |ix.patterns| :: Lists(lib, es, upto, cs, fold, ix.patterns[k], ix.mentions[k])
  }

  ghost predicate Registered(lib: Library, es: seq<Entry>, upto: nat, cs: seq<Condition>, ixs: Indexes)
    requires upto <= |es|
  {
    && RegisteredIn(lib, es, upto, cs, false, ixs.sensitive)
    && RegisteredIn(lib, es, upto, cs, true, ixs.folded)
  }

  /** Append an entry to a mention list unless it is already last. */
  function Mention(mentions: seq<nat>, entryIndex: nat): seq<nat> {
    if mentions != [] && mentions[|mentions| - 1] == entryIndex then mentions else mentions + [entryIndex]
  }

  function Register(ixs: Indexes, entryIndex: nat, d: CompiledCondition): Indexes
    requires d.LiteralRef? ==> d.index < |ixs.Of(d.folded).mentions|
  {
    if d.RegexRef? then ixs
    else
      var ix := ixs.Of(d.folded);
      ixs.With(d.folded, ix.(mentions := ix.mentions[d.index := Mention(ix.mentions[d.index], entryIndex)]))
  }

  lemma KeyOfMore(lib: Library, cs: seq<Condition>, c: Condition, fold: bool, key: string)
    ensures KeyOf(lib, cs + [c], fold, key) <==>
      || KeyOf(lib, cs, fold, key)
      || (c.Literal? && c.caseSensitive != fold && lib.normalize(c.value, c.caseSensitive) == key)
  {
  }

  lemma MentionLists(lib: Library, es: seq<Entry>, upto: nat, cs: seq<Condition>, c: Condition, fold: bool, key: string,
      mentions: seq<nat>)
    requires upto <= |es| && Lists(lib, es, upto, cs, fold, key, mentions)
    ensures
      var named := c.Literal? && c.caseSensitive != fold && lib.normalize(c.value, c.caseSensitive) == key;
      Lists(lib, es, upto, cs + [c], fold, key, if named then Mention(mentions, upto) else mentions)
  {
    KeyOfMore(lib, cs, c, fold, key);
    var named := c.Literal? && c.caseSensitive != fold && lib.normalize(c.value, c.caseSensitive) == key;
    if named && Mention(mentions, upto) != mentions {
      var last := |mentions| - 1;
      forall i | 0 <= i < |mentions| ensures mentions[i] < upto {
        assert mentions[i] in mentions;
        assert i < last ==> mentions[i] < mentions[last];
        assert mentions[last] in mentions;
      }
    }
  }

  lemma RegisterIn(lib: Library, es: seq<Entry>, upto: nat, cs: seq<Condition>, c: Condition, d: CompiledCondition,
      fold: bool, ixs: Indexes)
    requires upto <= |es| && StrictlySorted(Less, ixs.Of(fold).patterns)
    requires RegisteredIn(lib, es, upto, cs, fold, ixs.Of(fold)) && Represents(lib, ixs, c, d)
    requires d.LiteralRef? ==> d.index < |ixs.Of(d.folded).mentions|
    ensures RegisteredIn(lib, es, upto, cs + [c], fold, Register(ixs, upto, d).Of(fold))
  {
    var ix := ixs.Of(fold);
    forall k | 0 <= k < |ix.patterns|
      ensures Lists(lib, es, upto, cs + [c], fold, ix.patterns[k], Register(ixs, upto, d).Of(fold).mentions[k])
    {
      MentionLists(lib, es, upto, cs, c, fold, ix.patterns[k], ix.mentions[k]);
      if c.Literal? && c.caseSensitive != fold {
        assert ix.patterns[k] == ix.patterns[d.index] <==> k == d.index by {
          assert k < d.index ==> Less(ix.patterns[k], ix.patterns[d.index]);
          assert d.index < k ==> Less(ix.patterns[d.index], ix.patterns[k]);
          LessIrreflexive(ix.patterns[k]);
        }
      }
    }
  }

  ghost predicate SameKeys(a: Indexes, b: Indexes) {
    a.sensitive.patterns == b.sensitive.patterns && a.folded.patterns == b.folded.patterns
  }

  /** Add an entry to the mention list of every key it names. */
  method RegisterAll(lib: Library, es: seq<Entry>, entryIndex: nat, before: Indexes, ds: seq<CompiledCondition>,
      ghost cs: seq<Condition>)
    returns (ixs: Indexes)
    requires entryIndex < |es| && cs == Mentioned(es[entryIndex].activation)
    requires StrictlySorted(Less, before.sensitive.patterns) && StrictlySorted(Less, before.folded.patterns)
    requires RepresentsList(lib, before, cs, ds)
    requires Registered(lib, es, entryIndex, [], before)
    ensures SameKeys(ixs, before)
    ensures Registered(lib, es, entryIndex + 1, [], ixs)
  {
    hide RegisteredIn;
    ixs := before;
    assert cs[..0] == [];
    for j := 0 to |ds|
      invariant SameKeys(ixs, before)
      invariant Registered(lib, es, entryIndex, cs[..j], ixs)
    {
      RegisteredSizes(lib, es, entryIndex, cs[..j], ixs);
      assert Represents(lib, ixs, cs[j], ds[j]);
      RegisterIn(lib, es, entryIndex, cs[..j], cs[j], ds[j], false, ixs);
      RegisterIn(lib, es, entryIndex, cs[..j], cs[j], ds[j], true, ixs);
      assert cs[..j] + [cs[j]] == cs[..j + 1];
      ixs := Register(ixs, entryIndex, ds[j]);
    }
    assert cs[..|cs|] == cs;
    RegisteredNext(lib, es, entryIndex, false, ixs.sensitive);
    RegisteredNext(lib, es, entryIndex, true, ixs.folded);
  }

  lemma RegisteredSizes(lib: Library, es: seq<Entry>, upto: nat, cs: seq<Condition>, ixs: Indexes)
    requires upto <= |es| && Registered(lib, es, upto, cs, ixs)
    ensures |ixs.sensitive.mentions| == |ixs.sensitive.patterns|
    ensures |ixs.folded.mentions| == |ixs.folded.patterns|
  {
  }

  lemma RegisteredNext(lib: Library, es: seq<Entry>, upto: nat, fold: bool, ix: PatternIndex)
    requires upto < |es| && RegisteredIn(lib, es, upto, Mentioned(es[upto].activation), fold, ix)
    ensures RegisteredIn(lib, es, upto + 1, [], fold, ix)
  {
  }

  // ------------------------------------------------------------------ catalog

  /** An entry examined on every selection: no condition to index, or a regex among them. */
  predicate Unconditional(a: Activation<Condition>) {
    ActivationConditions(a).None? || exists c | c in Mentioned(a) :: c.Regex?
  }

  predicate ContainsRegex(a: Activation<CompiledCondition>) {
    exists d | d in Mentioned(a) :: d.RegexRef?
  }

  lemma SameRegexes(lib: Library, ixs: Indexes, a: Activation<Condition>, b: Activation<CompiledCondition>)
    requires RepresentsActivation(lib, ixs, a, b)
    ensures Unconditional(a) <==> ActivationConditions(b).None? || ContainsRegex(b)
  {
    RepresentsMentioned(lib, ixs, a, b);
    assert ActivationConditions(a).None? <==> ActivationConditions(b).None?;
    hide RepresentsActivation, Mentioned, ActivationConditions;
    RegexesAlike(lib, ixs, Mentioned(a), Mentioned(b));
  }

  lemma RegexesAlike(lib: Library, ixs: Indexes, cs: seq<Condition>, ds: seq<CompiledCondition>)
    requires RepresentsList(lib, ixs, cs, ds)
    ensures (exists c | c in cs :: c.Regex?) <==> exists d | d in ds :: d.RegexRef?
  {
    if c :| c in cs && c.Regex? {
      var i :| 0 <= i < |cs| && cs[i] == c;
      assert Represents(lib, ixs, cs[i], ds[i]) && ds[i] in ds;
    }
    if d :| d in ds && d.RegexRef? {
      var i :| 0 <= i < |ds| && ds[i] == d;
      assert Represents(lib, ixs, cs[i], ds[i]) && cs[i] in cs;
    }
  }

  ghost predicate ListsUnconditional(es: seq<Entry>, upto: nat, list: seq<nat>)
    requires upto <= |es|
  {
    && Increasing(list)
    && forall i: nat :: i in list <==> i < upto && Unconditional(es[i].activation)
  }

  lemma UnconditionalNext(es: seq<Entry>, i: nat, list: seq<nat>)
    requires i < |es| && ListsUnconditional(es, i, list)
    ensures ListsUnconditional(es, i + 1, if Unconditional(es[i].activation) then list + [i] else list)
  {
    hide Unconditional;
    assert forall j: nat :: j in list + [i] <==> j in list || j == i;
    assert forall k | 0 <= k < |list| :: list[k] in list;
  }

  ghost predicate CompiledEntries(lib: Library, es: seq<Entry>, ixs: Indexes, compiled: seq<CompiledEntry>) {
    && |compiled| <= |es|
    && forall i | 0 <= i < |compiled| ::
         compiled[i].source == es[i] && RepresentsActivation(lib, ixs, es[i].activation, compiled[i].activation)
  }

  /** A compiled catalog is the exact index of a list of entries. */
  ghost predicate CompiledFrom(lib: Library, es: seq<Entry>, c: CompiledCatalog) {
    && |c.entries| == |es|
    && CompiledEntries(lib, es, c.indexes, c.entries)
    && ListsKeys(lib, Flat(es), false, c.indexes.sensitive.patterns)
    && ListsKeys(lib, Flat(es), true, c.indexes.folded.patterns)
    && Registered(lib, es, |es|, [], c.indexes)
    && ListsUnconditional(es, |es|, c.unconditional)
  }

  /** What a catalog must satisfy for the engine to accept it. */
  predicate Compilable(lib: Library, c: Catalog) {
    var cs := Flat(Enabled(c.entries));
    && CatalogValid(c)
    && KeysFit(lib, cs)
    && RegexCount(cs) <= MAX_ACTIVE_REGEX_CONDITIONS
    && RegexBytes(cs) <= MAX_ACTIVE_REGEX_PATTERN_BYTES
    && RegexesBuild(lib, cs)
  }

  /** The fault a refused catalog is reported with: the first in this order, and of several bad regexes the first. */
  predicate Reported(lib: Library, c: Catalog, e: CompileError) {
    var es := Enabled(c.entries);
    if !CatalogValid(c) then e == InvalidCatalog
    else if !KeysFit(lib, Flat(es)) then e == EmptyKey
    else if RegexCount(Flat(es)) > MAX_ACTIVE_REGEX_CONDITIONS then e == TooManyRegexes
    else if RegexBytes(Flat(es)) > MAX_ACTIVE_REGEX_PATTERN_BYTES then e == RegexesTooLarge
    else
      && e.InvalidRegex? && e.entryIndex < |es|
      && !RegexesBuild(lib, Mentioned(es[e.entryIndex].activation))
      && forall i | 0 <= i < e.entryIndex :: RegexesBuild(lib, Mentioned(es[i].activation))
  }

  function EmptyIndex(patterns: seq<string>): PatternIndex {
    PatternIndex(patterns, seq(|patterns|, i => []))
  }

  lemma EmptyRegistered(lib: Library, es: seq<Entry>, fold: bool, patterns: seq<string>)
    ensures RegisteredIn(lib, es, 0, [], fold, EmptyIndex(patterns))
  {
  }

  /** One entry compiled, the indexes with it registered, and whether it is examined on every selection. */
  datatype Built = Built(activation: Activation<CompiledCondition>, indexes: Indexes, always: bool)

  /** Compile, classify and register one entry. */
  method BuildOne(lib: Library, es: seq<Entry>, i: nat, ixs: Indexes) returns (r: Result<Built, CompileError>)
    requires i < |es| && KeyedBy(lib, ixs, Flat(es)) && Registered(lib, es, i, [], ixs)
    ensures r.Success? <==> RegexesBuild(lib, Mentioned(es[i].activation))
    ensures r.Success? ==> RepresentsActivation(lib, ixs, es[i].activation, r.value.activation)
    ensures r.Success? ==> SameKeys(ixs, r.value.indexes) && Registered(lib, es, i + 1, [], r.value.indexes)
    ensures r.Success? ==> (r.value.always <==> Unconditional(es[i].activation))
    ensures r.Failure? ==> r.error == InvalidRegex(i)
  {
    hide Registered, RegexesBuild, RepresentsActivation, KeyedBy, Unconditional, ContainsRegex;
    forall c | c in Mentioned(es[i].activation) ensures c in Flat(es) { FlatContains(es, i, c); }
    var a := CompileActivation(lib, ixs, i, es[i].activation, Flat(es));
    if a.Failure? { return Failure(a.error); }
    SameRegexes(lib, ixs, es[i].activation, a.value);
    KeyedSorted(lib, ixs, Flat(es));
    RepresentsMentioned(lib, ixs, es[i].activation, a.value);
    var next := RegisterAll(lib, es, i, ixs, Mentioned(a.value), Mentioned(es[i].activation));
    return Success(Built(a.value, next, ActivationConditions(a.value).None? || ContainsRegex(a.value)));
  }

  /** The second pass: compile, classify and register each entry in turn. */
  method BuildEntries(lib: Library, revision: U64, generation: U64, es: seq<Entry>, census: Census)
    returns (r: Result<CompiledCatalog, CompileError>)
    requires ListsKeys(lib, Flat(es), false, census.sensitive) && ListsKeys(lib, Flat(es), true, census.folded)
    ensures r.Success? <==> RegexesBuild(lib, Flat(es))
    ensures r.Success? ==> CompiledFrom(lib, es, r.value)
    ensures r.Success? ==> r.value.revision == revision && r.value.generation == generation
    ensures r.Failure? ==> r.error.InvalidRegex? && r.error.entryIndex < |es|
    ensures r.Failure? ==> !RegexesBuild(lib, Mentioned(es[r.error.entryIndex].activation))
    ensures r.Failure? ==> forall i | 0 <= i < r.error.entryIndex :: RegexesBuild(lib, Mentioned(es[i].activation))
  {
    var ixs := Indexes(EmptyIndex(census.sensitive), EmptyIndex(census.folded));
    EmptyRegistered(lib, es, false, census.sensitive);
    EmptyRegistered(lib, es, true, census.folded);
    assert KeyedBy(lib, ixs, Flat(es));
    var compiled: seq<CompiledEntry> := [];
    var unconditional: seq<nat> := [];
    assert CompiledEntries(lib, es, ixs, []) && ListsUnconditional(es, 0, []);
    hide Registered, ListsKeys, RegexesBuild, RepresentsActivation, KeyedBy, ListsUnconditional, Unconditional,
      CompiledEntries, SameKeys;
    for i := 0 to |es|
      invariant |compiled| == i && KeyedBy(lib, ixs, Flat(es))
      invariant CompiledEntries(lib, es, ixs, compiled)
      invariant Registered(lib, es, i, [], ixs)
      invariant ListsUnconditional(es, i, unconditional)
      invariant forall j | 0 <= j < i :: RegexesBuild(lib, Mentioned(es[j].activation))
    {
      var built := BuildOne(lib, es, i, ixs);
      if built.Failure? {
        FailsBelow(lib, es, i);
        return Failure(built.error);
      }
      var b := built.value;
      UnconditionalNext(es, i, unconditional);
      if b.always { unconditional := unconditional + [i]; }
      CompiledNext(lib, es, ixs, compiled, b.activation);
      compiled := compiled + [CompiledEntry(es[i], b.activation)];
      SameKeysCompiled(lib, es, ixs, b.indexes, compiled);
      SameKeysKeyed(lib, ixs, b.indexes, Flat(es));
      ixs := b.indexes;
    }
    AllBuild(lib, es);
    KeyedParts(lib, ixs, Flat(es));
    return Success(CompiledCatalog(revision, generation, compiled, ixs, unconditional));
  }

  lemma KeyedParts(lib: Library, ixs: Indexes, cs: seq<Condition>)
    requires KeyedBy(lib, ixs, cs)
    ensures ListsKeys(lib, cs, false, ixs.sensitive.patterns) && ListsKeys(lib, cs, true, ixs.folded.patterns)
  {
    hide ListsKeys;
    assert ixs.Of(false) == ixs.sensitive && ixs.Of(true) == ixs.folded;
  }

  lemma CompiledNext(lib: Library, es: seq<Entry>, ixs: Indexes, compiled: seq<CompiledEntry>,
      a: Activation<CompiledCondition>)
    requires |compiled| < |es| && CompiledEntries(lib, es, ixs, compiled)
    requires RepresentsActivation(lib, ixs, es[|compiled|].activation, a)
    ensures CompiledEntries(lib, es, ixs, compiled + [CompiledEntry(es[|compiled|], a)])
  {
  }

  lemma SameKeysCompiled(lib: Library, es: seq<Entry>, a: Indexes, b: Indexes, compiled: seq<CompiledEntry>)
    requires SameKeys(a, b) && CompiledEntries(lib, es, a, compiled)
    ensures CompiledEntries(lib, es, b, compiled)
  {
  }

  lemma SameKeysKeyed(lib: Library, a: Indexes, b: Indexes, cs: seq<Condition>)
    requires SameKeys(a, b) && KeyedBy(lib, a, cs)
    ensures KeyedBy(lib, b, cs)
  {
    hide ListsKeys;
    forall fold: bool ensures ListsKeys(lib, cs, fold, b.Of(fold).patterns) {
      assert ListsKeys(lib, cs, fold, a.Of(fold).patterns);
    }
  }

  lemma KeyedSorted(lib: Library, ixs: Indexes, cs: seq<Condition>)
    requires KeyedBy(lib, ixs, cs)
    ensures StrictlySorted(Less, ixs.sensitive.patterns) && StrictlySorted(Less, ixs.folded.patterns)
  {
    assert ixs.Of(false) == ixs.sensitive && ixs.Of(true) == ixs.folded;
  }

  lemma FailsBelow(lib: Library, es: seq<Entry>, i: nat)
    requires i < |es| && !RegexesBuild(lib, Mentioned(es[i].activation))
    ensures !RegexesBuild(lib, Flat(es))
  {
    var c :| c in Mentioned(es[i].activation) && !RegexBuilds(lib, c);
    FlatContains(es, i, c);
  }

  lemma AllBuild(lib: Library, es: seq<Entry>)
    requires forall i | 0 <= i < |es| :: RegexesBuild(lib, Mentioned(es[i].activation))
    ensures RegexesBuild(lib, Flat(es))
  {
  }

  /** Compilation succeeds exactly on the compilable catalogs, and yields the exact index of the enabled entries. */
  method CompileCatalog(lib: Library, catalog: Catalog, generation: U64)
    returns (r: Result<CompiledCatalog, CompileError>)
    ensures r.Success? <==> Compilable(lib, catalog)
    ensures r.Success? ==> CompiledFrom(lib, Enabled(catalog.entries), r.value)
    ensures r.Success? ==> r.value.revision == catalog.revision && r.value.generation == generation
    ensures r.Failure? ==> Reported(lib, catalog, r.error)
  {
    if !CatalogValid(catalog) { return Failure(InvalidCatalog); }
    var es := Enabled(catalog.entries);
    var census := TakeCensus(lib, es);
    if census.Failure? { return Failure(census.error); }
    if census.value.regexes > MAX_ACTIVE_REGEX_CONDITIONS { return Failure(TooManyRegexes); }
    if census.value.bytes > MAX_ACTIVE_REGEX_PATTERN_BYTES { return Failure(RegexesTooLarge); }
    var built := BuildEntries(lib, catalog.revision, generation, es, census.value);
    return built;
  }
}
