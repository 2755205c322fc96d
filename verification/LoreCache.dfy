/** The search text, the cache key that identifies it, and the engine that caches selections. */
module LoreCache {
  import opened Wrappers
  import opened Digests
  import opened Ordering
  import opened LoreModel
  import opened LoreCompile
  import opened LoreSelect
  import opened LoreEngine

  const MAX_RECENT_TURNS: nat := 512
  const MAX_TURN_BYTES: nat := 256 * 1024
  const MAX_SEARCH_INPUT_BYTES: nat := 2 * 1024 * 1024
  const MAX_OUTPUT_BYTES: nat := 4 * 1024 * 1024
  const MAX_REGEX_SCAN_BYTES: nat := 8 * 1024 * 1024
  const MAX_REGEX_MATCHES: nat := 8_192
  const MAX_REGEX_EVALUATIONS: nat := 1_024
  const MAX_LITERAL_MATCH_EVENTS: nat := 4 * 1024 * 1024
  const MAX_TOKENIZER_BYTES: nat := 256
  const MAX_CACHE_ENTRIES: nat := 16

  // ------------------------------------------------------------- validation

  predicate SettingsValid(s: Settings) {
    && s.searchDepth <= MAX_RECENT_TURNS
    && s.maxOutputTokens <= MAX_OUTPUT_TOKENS
    && s.maxOutputBytes <= MAX_OUTPUT_BYTES
    && s.maxLiteralEvents <= MAX_LITERAL_MATCH_EVENTS
    && s.maxEvaluations <= MAX_REGEX_EVALUATIONS
    && s.maxScanned <= MAX_REGEX_SCAN_BYTES
    && s.maxFindings <= MAX_REGEX_MATCHES
    && 0 < |s.tokenizerId| <= MAX_TOKENIZER_BYTES
    && 0 < |s.tokenizerRevision| <= MAX_TOKENIZER_BYTES
    && |s.separator| <= MAX_KEY_BYTES
  }

  function TurnBytes(turns: seq<Turn>): nat {
    if turns == [] then 0 else |turns[0].content| + TurnBytes(turns[1..])
  }

  predicate ConversationValid(c: Conversation) {
    && |c.recentTurns| <= MAX_RECENT_TURNS
    && |c.recentTurns| <= c.totalTurns
    && (forall t | t in c.recentTurns :: |t.content| <= MAX_TURN_BYTES)
    && (c.summary.Available? ==> |c.summary.content| <= MAX_TURN_BYTES)
    && TurnBytes(c.recentTurns) + (if c.summary.Available? then |c.summary.content| else 0) <= MAX_SEARCH_INPUT_BYTES
  }

  predicate RequestValid(r: Request) {
    SettingsValid(r.settings) && ConversationValid(r.conversation)
  }

  // --------------------------------------------------------------- encoding

  /** The `k` low bytes of `n`, least significant first. */
  function Le(n: nat, k: nat): (r: string)
    ensures |r| == k
  {
    if k == 0 then "" else [(n % 256) as char] + Le(n / 256, k - 1)
  }

  function Span(k: nat): nat {
    if k == 0 then 1 else 256 * Span(k - 1)
  }

  lemma {:induction false} LeInjective(a: nat, b: nat, k: nat)
    requires a < Span(k) && b < Span(k) && Le(a, k) == Le(b, k)
    ensures a == b
  {
    if k > 0 {
      assert Le(a, k)[0] == Le(b, k)[0];
      assert Le(a, k)[1..] == Le(a / 256, k - 1) && Le(b, k)[1..] == Le(b / 256, k - 1);
      LeInjective(a / 256, b / 256, k - 1);
    }
  }

  function Le64(n: U64): string { Le(n, 8) }

  /** A length-prefixed string. */
  function Text(s: string): string
    requires |s| < TWO_64
  {
    Le64(|s|) + s
  }

  lemma Split(a: string, x: string, b: string, y: string)
    requires a + x == b + y && |a| == |b|
    ensures a == b && x == y
  {
    assert a == (a + x)[..|a|] && b == (b + y)[..|b|];
    assert x == (a + x)[|a|..] && y == (b + y)[|b|..];
  }

  /** What follows a number can be read back with the number. */
  lemma SplitNumber(a: U64, x: string, b: U64, y: string)
    requires Le64(a) + x == Le64(b) + y
    ensures a == b && x == y
  {
    Split(Le64(a), x, Le64(b), y);
    assert Span(8) == TWO_64;
    LeInjective(a, b, 8);
  }

  lemma SplitText(s: string, x: string, t: string, y: string)
    requires |s| < TWO_64 && |t| < TWO_64 && Text(s) + x == Text(t) + y
    ensures s == t && x == y
  {
    assert Text(s) + x == Le64(|s|) + (s + x) && Text(t) + y == Le64(|t|) + (t + y);
    SplitNumber(|s|, s + x, |t|, t + y);
    Split(s, x, t, y);
  }

  // ------------------------------------------------------------ search slice

  predicate Included(t: Turn, includePartial: bool) {
    t.state.Complete? || (t.state.Partial? && includePartial)
  }

  function AppendSegment(target: string, segment: string): string {
    target + (if target == "" then "" else "\n") + segment
  }

  /** The search text: the summary, then the included turns, one per line. */
  function RawFrom(raw: string, turns: seq<Turn>, includePartial: bool): string
    decreases turns
  {
    if turns == [] then raw
    else RawFrom(if Included(turns[0], includePartial) then AppendSegment(raw, turns[0].content) else raw,
                 turns[1..], includePartial)
  }

  function Tail(r: Request): seq<Turn> {
    var turns := r.conversation.recentTurns;
    if |turns| <= r.settings.searchDepth then turns else turns[|turns| - r.settings.searchDepth..]
  }

  function Raw(r: Request): string {
    var start := if r.conversation.summary.Available? then r.conversation.summary.content else "";
    RawFrom(start, Tail(r), r.settings.includePartial)
  }

  function StateByte(s: MessageState): char {
    match s case Complete => 0 as char case Partial => 1 as char case Failed => 2 as char
  }

  predicate Short(turns: seq<Turn>) {
    forall t | t in turns :: |t.content| < TWO_64
  }

  function TurnCode(t: Turn, includePartial: bool): string
    requires |t.content| < TWO_64
  {
    Le64(t.revision) + [StateByte(t.state)] + if Included(t, includePartial) then Text(t.content) else ""
  }

  function TurnCodes(turns: seq<Turn>, includePartial: bool): string
    requires Short(turns)
  {
    if turns == [] then ""
    else TurnCode(turns[0], includePartial) + TurnCodes(turns[1..], includePartial)
  }

  const SLICE_DOMAIN := "lorepia-lorebook-search-slice-v1"

  function SliceCode(r: Request): string
    requires RequestValid(r)
  {
    SLICE_DOMAIN + SummaryCode(r.conversation.summary) + TurnCodes(Tail(r), r.settings.includePartial)
  }

  /** A turn with only what the search can see of it. */
  function Visible(t: Turn, includePartial: bool): Turn {
    if Included(t, includePartial) then t else t.(content := "")
  }

  function AllVisible(turns: seq<Turn>, includePartial: bool): seq<Turn> {
    if turns == [] then [] else [Visible(turns[0], includePartial)] + AllVisible(turns[1..], includePartial)
  }

  lemma SplitTurn(s: Turn, x: string, t: Turn, y: string, includePartial: bool)
    requires |s.content| < TWO_64 && |t.content| < TWO_64
    requires TurnCode(s, includePartial) + x == TurnCode(t, includePartial) + y
    ensures Visible(s, includePartial) == Visible(t, includePartial) && x == y
  {
    hide Le64, Text;
    var s1 := if Included(s, includePartial) then Text(s.content) else "";
    var t1 := if Included(t, includePartial) then Text(t.content) else "";
    assert TurnCode(s, includePartial) + x == Le64(s.revision) + ([StateByte(s.state)] + (s1 + x));
    assert TurnCode(t, includePartial) + y == Le64(t.revision) + ([StateByte(t.state)] + (t1 + y));
    SplitNumber(s.revision, [StateByte(s.state)] + (s1 + x), t.revision, [StateByte(t.state)] + (t1 + y));
    Split([StateByte(s.state)], s1 + x, [StateByte(t.state)], t1 + y);
    assert s.state == t.state;
    if Included(s, includePartial) {
      SplitText(s.content, x, t.content, y);
    } else {
      assert s1 + x == x && t1 + y == y;
    }
  }

  /** The turns' encoding can be decoded: equal codes mean the same visible turns. */
  lemma {:induction false} TurnCodesInjective(a: seq<Turn>, b: seq<Turn>, includePartial: bool)
    requires Short(a) && Short(b) && TurnCodes(a, includePartial) == TurnCodes(b, includePartial)
    ensures AllVisible(a, includePartial) == AllVisible(b, includePartial)
  {
    if a != [] && b != [] {
      SplitTurn(a[0], TurnCodes(a[1..], includePartial), b[0], TurnCodes(b[1..], includePartial), includePartial);
      TurnCodesInjective(a[1..], b[1..], includePartial);
    }
  }

  lemma {:induction false} RawOfVisible(raw: string, turns: seq<Turn>, includePartial: bool)
    ensures RawFrom(raw, turns, includePartial) == RawFrom(raw, AllVisible(turns, includePartial), includePartial)
    decreases turns
  {
    if turns != [] {
      var t := turns[0];
      RawOfVisible(if Included(t, includePartial) then AppendSegment(raw, t.content) else raw, turns[1..],
        includePartial);
      assert AllVisible(turns, includePartial)[1..] == AllVisible(turns[1..], includePartial);
    }
  }

  /** The summary's code without its tag. */
  function SummaryBody(s: Summary): string
    requires s.Available? ==> |s.content| < TWO_64
  {
    match s
    case Missing => ""
    case Corrupt(revision) => Le64(revision)
    case Available(revision, content) => Le64(revision) + Text(content)
  }

  function SummaryTag(s: Summary): char {
    match s case Missing => 0 as char case Corrupt(_) => 1 as char case Available(_, _) => 2 as char
  }

  function SummaryCode(s: Summary): string
    requires s.Available? ==> |s.content| < TWO_64
  {
    [SummaryTag(s)] + SummaryBody(s)
  }

  lemma SplitSummary(s: Summary, x: string, t: Summary, y: string)
    requires (s.Available? ==> |s.content| < TWO_64) && (t.Available? ==> |t.content| < TWO_64)
    requires SummaryCode(s) + x == SummaryCode(t) + y
    ensures s == t && x == y
  {
    hide SummaryBody, SummaryTag;
    SplitTag(SummaryTag(s), SummaryBody(s), x, SummaryTag(t), SummaryBody(t), y);
    SplitBody(s, x, t, y);
  }

  lemma SplitTag(a: char, s: string, x: string, b: char, t: string, y: string)
    requires [a] + s + x == [b] + t + y
    ensures a == b && s + x == t + y
  {
    assert [a] + s + x == [a] + (s + x) && [b] + t + y == [b] + (t + y);
    Split([a], s + x, [b], t + y);
  }

  lemma SplitBody(s: Summary, x: string, t: Summary, y: string)
    requires (s.Available? ==> |s.content| < TWO_64) && (t.Available? ==> |t.content| < TWO_64)
    requires SummaryTag(s) == SummaryTag(t) && SummaryBody(s) + x == SummaryBody(t) + y
    ensures s == t && x == y
  {
    hide Le64, Text;
    match s
    case Missing => Split("", x, "", y);
    case Corrupt(n) => SplitNumber(n, x, t.revision, y);
    case Available(n, content) =>
      assert SummaryBody(s) + x == Le64(n) + (Text(content) + x);
      assert SummaryBody(t) + y == Le64(t.revision) + (Text(t.content) + y);
      SplitNumber(n, Text(content) + x, t.revision, Text(t.content) + y);
      SplitText(content, x, t.content, y);
  }

  /** Two requests with the same slice code and partial-message policy search the same text. */
  lemma SliceFixesText(r: Request, q: Request)
    requires RequestValid(r) && RequestValid(q) && r.settings.includePartial == q.settings.includePartial
    requires SliceCode(r) == SliceCode(q)
    ensures r.conversation.summary == q.conversation.summary
    ensures AllVisible(Tail(r), r.settings.includePartial) == AllVisible(Tail(q), q.settings.includePartial)
    ensures Raw(r) == Raw(q)
  {
    hide SummaryCode, TurnCodes, RawFrom, AllVisible;
    var p := r.settings.includePartial;
    var rs, qs := SummaryCode(r.conversation.summary), SummaryCode(q.conversation.summary);
    var rt, qt := TurnCodes(Tail(r), p), TurnCodes(Tail(q), p);
    assert SliceCode(r) == SLICE_DOMAIN + (rs + rt) && SliceCode(q) == SLICE_DOMAIN + (qs + qt);
    Split(SLICE_DOMAIN, rs + rt, SLICE_DOMAIN, qs + qt);
    SplitSummary(r.conversation.summary, rt, q.conversation.summary, qt);
    TurnCodesInjective(Tail(r), Tail(q), p);
    var start := if r.conversation.summary.Available? then r.conversation.summary.content else "";
    RawOfVisible(start, Tail(r), p);
    RawOfVisible(start, Tail(q), p);
  }

  // -------------------------------------------------------------- cache key

  function TokenizerCode(s: Settings): string
    requires SettingsValid(s)
  {
    Text(s.tokenizerId) + Text(s.tokenizerRevision)
  }

  function OutputCode(s: Settings): string
    requires SettingsValid(s)
  {
    Le64(s.maxOutputTokens) + (Le64(s.maxOutputBytes) + WorkCode(s))
  }

  function WorkCode(s: Settings): string
    requires SettingsValid(s)
  {
    Le64(s.maxLiteralEvents)
      + (Le64(s.maxEvaluations) + (Le64(s.maxScanned) + (Le64(s.maxFindings) + Text(s.separator))))
  }

  function SettingsCode(s: Settings): string
    requires SettingsValid(s)
  {
    Le64(s.searchDepth) + ([if s.includePartial then 1 as char else 0 as char] + OutputCode(s))
  }

  /** The settings' encoding can be decoded: it fixes every setting but the tokenizer. */
  lemma SettingsCodeInjective(s: Settings, t: Settings)
    requires SettingsValid(s) && SettingsValid(t) && SettingsCode(s) == SettingsCode(t)
    ensures s == t.(tokenizerId := s.tokenizerId, tokenizerRevision := s.tokenizerRevision)
  {
    var p, q := if s.includePartial then 1 as char else 0 as char, if t.includePartial then 1 as char else 0 as char;
    assert SettingsCode(s) == Le64(s.searchDepth) + ([p] + OutputCode(s));
    assert SettingsCode(t) == Le64(t.searchDepth) + ([q] + OutputCode(t));
    hide Le64, OutputCode;
    SplitNumber(s.searchDepth, [p] + OutputCode(s), t.searchDepth, [q] + OutputCode(t));
    Split([p], OutputCode(s), [q], OutputCode(t));
    OutputCodeInjective(s, t);
  }

  lemma OutputCodeInjective(s: Settings, t: Settings)
    requires SettingsValid(s) && SettingsValid(t) && OutputCode(s) == OutputCode(t)
    ensures s.maxOutputTokens == t.maxOutputTokens && s.maxOutputBytes == t.maxOutputBytes
    ensures s.maxLiteralEvents == t.maxLiteralEvents && s.maxEvaluations == t.maxEvaluations
    ensures s.maxScanned == t.maxScanned && s.maxFindings == t.maxFindings && s.separator == t.separator
  {
    hide Le64, WorkCode;
    SplitNumber(s.maxOutputTokens, Le64(s.maxOutputBytes) + WorkCode(s), t.maxOutputTokens,
      Le64(t.maxOutputBytes) + WorkCode(t));
    SplitNumber(s.maxOutputBytes, WorkCode(s), t.maxOutputBytes, WorkCode(t));
    WorkCodeInjective(s, t);
  }

  lemma WorkCodeInjective(s: Settings, t: Settings)
    requires SettingsValid(s) && SettingsValid(t) && WorkCode(s) == WorkCode(t)
    ensures s.maxLiteralEvents == t.maxLiteralEvents && s.maxEvaluations == t.maxEvaluations
    ensures s.maxScanned == t.maxScanned && s.maxFindings == t.maxFindings && s.separator == t.separator
  {
    hide Le64, Text;
    var s3, t3 := Le64(s.maxFindings) + Text(s.separator), Le64(t.maxFindings) + Text(t.separator);
    var s2, t2 := Le64(s.maxScanned) + s3, Le64(t.maxScanned) + t3;
    var s1, t1 := Le64(s.maxEvaluations) + s2, Le64(t.maxEvaluations) + t2;
    SplitNumber(s.maxLiteralEvents, s1, t.maxLiteralEvents, t1);
    SplitNumber(s.maxEvaluations, s2, t.maxEvaluations, t2);
    SplitNumber(s.maxScanned, s3, t.maxScanned, t3);
    SplitNumber(s.maxFindings, Text(s.separator), t.maxFindings, Text(t.separator));
    assert Text(s.separator) + "" == Text(s.separator) && Text(t.separator) + "" == Text(t.separator);
    SplitText(s.separator, "", t.separator, "");
  }

  function KeyFor(c: CompiledCatalog, r: Request): CacheKey
    requires RequestValid(r)
  {
    CacheKey(c.revision, c.generation, r.conversation.chatRevision, r.conversation.branchRevision,
             r.settings.searchDepth, r.seed,
             Sha256(TokenizerCode(r.settings)), Sha256(SettingsCode(r.settings)), Sha256(SliceCode(r)))
  }

  /** What selecting from a catalog without a cache returns, when it returns a selection. */
  function Fresh(lib: Library, c: CompiledCatalog, es: seq<Entry>, r: Request): Selection
    requires RequestValid(r)
  {
    Scan(lib, c.revision, es, r, Raw(r), KeyFor(c, r))
  }

  /** Requests with the same cache key are selected alike: the key covers all that selection reads. */
  lemma SameKeySameSelection(lib: Library, c: CompiledCatalog, es: seq<Entry>, r: Request, q: Request)
    requires RequestValid(r) && RequestValid(q) && KeyFor(c, r) == KeyFor(c, q)
    ensures Fresh(lib, c, es, r) == Fresh(lib, c, es, q)
    ensures Affordable(lib, es, r.settings, Raw(r)) <==> Affordable(lib, es, q.settings, Raw(q))
  {
    SettingsCodeInjective(r.settings, q.settings);
    SliceFixesText(r, q);
    var active := ActiveOnes(lib, es, Raw(r), r.seed);
    FillIgnoresTokenizer(Sort(Before, active), r.settings, q.settings);
    hide Fill, ActiveOnes, LiteralEvents, TotalWork, Raw, SliceCode, SettingsCode, TokenizerCode;
  }

  lemma {:induction false} FillIgnoresTokenizer(ranked: seq<Entry>, s: Settings, t: Settings)
    requires s == t.(tokenizerId := s.tokenizerId, tokenizerRevision := s.tokenizerRevision)
    ensures Fill(ranked, s) == Fill(ranked, t)
  {
    if ranked != [] { FillIgnoresTokenizer(ranked[..|ranked| - 1], s, t); }
  }

  // ----------------------------------------------------------------- engine

  datatype SelectError = InvalidRequest | SearchLimitExceeded(limit: LimitKind)

  /** One pass over the visible tail extends the search text and the bytes that identify it. */
  method ReadTurns(turns: seq<Turn>, includePartial: bool, start: string, head: string)
    returns (raw: string, code: string)
    requires Short(turns)
    ensures raw == RawFrom(start, turns, includePartial)
    ensures code == head + TurnCodes(turns, includePartial)
  {
    hide Le64, Text, Included;
    raw, code := start, head;
    assert turns[0..] == turns;
    for i := 0 to |turns|
      invariant RawFrom(start, turns, includePartial) == RawFrom(raw, turns[i..], includePartial)
      invariant head + TurnCodes(turns, includePartial) == code + TurnCodes(turns[i..], includePartial)
    {
      var t := turns[i];
      assert t in turns && turns[i..][1..] == turns[i + 1..];
      code := code + TurnCode(t, includePartial);
      if Included(t, includePartial) { raw := AppendSegment(raw, t.content); }
    }
  }

  method BuildSearch(r: Request) returns (raw: string, code: string)
    requires RequestValid(r)
    ensures raw == Raw(r) && code == SliceCode(r)
  {
    hide SummaryCode, TurnCodes, RawFrom;
    code := SLICE_DOMAIN + SummaryCode(r.conversation.summary);
    raw := "";
    if r.conversation.summary.Available? {
      raw := AppendSegment(raw, r.conversation.summary.content);
      assert raw == r.conversation.summary.content;
    }
    raw, code := ReadTurns(Tail(r), r.settings.includePartial, raw, code);
  }

  /** The order of the cache's keys: field by field, with a given order of digests. */
  predicate KeyBefore(before: (Digest, Digest) -> bool, a: CacheKey, b: CacheKey) {
    if a.catalogRevision != b.catalogRevision then a.catalogRevision < b.catalogRevision
    else if a.generation != b.generation then a.generation < b.generation
    else if a.chatRevision != b.chatRevision then a.chatRevision < b.chatRevision
    else if a.branchRevision != b.branchRevision then a.branchRevision < b.branchRevision
    else if a.searchDepth != b.searchDepth then a.searchDepth < b.searchDepth
    else if a.seed != b.seed then a.seed < b.seed
    else if a.tokenizer != b.tokenizer then before(a.tokenizer, b.tokenizer)
    else if a.settings != b.settings then before(a.settings, b.settings)
    else before(a.slice, b.slice)
  }

  ghost predicate OrdersDigests(before: (Digest, Digest) -> bool) {
    && (forall a :: !before(a, a))
    && (forall a, b :: a == b || before(a, b) || before(b, a))
    && forall a, b, c :: before(a, b) && before(b, c) ==> before(a, c)
  }

  lemma KeysAreOrdered(before: (Digest, Digest) -> bool, a: CacheKey, b: CacheKey, c: CacheKey)
    requires OrdersDigests(before)
    ensures a == b || KeyBefore(before, a, b) || KeyBefore(before, b, a)
    ensures KeyBefore(before, a, b) && KeyBefore(before, b, c) ==> KeyBefore(before, a, c)
  {
  }

  /** There are such orders. */
  lemma DigestsCanBeOrdered()
    ensures OrdersDigests((a: Digest, b: Digest) => Less(a.preimage, b.preimage))
  {
    forall a: Digest, b: Digest, c: Digest
      ensures !Less(a.preimage, a.preimage)
      ensures a == b || Less(a.preimage, b.preimage) || Less(b.preimage, a.preimage)
      ensures Less(a.preimage, b.preimage) && Less(b.preimage, c.preimage) ==> Less(a.preimage, c.preimage)
    {
      LessIrreflexive(a.preimage);
      LessTotal(a.preimage, b.preimage);
      if Less(a.preimage, b.preimage) && Less(b.preimage, c.preimage) {
        LessTransitive(a.preimage, b.preimage, c.preimage);
      }
    }
  }

  ghost predicate IsFirst(before: (Digest, Digest) -> bool, keys: set<CacheKey>, key: CacheKey) {
    key in keys && forall k | k in keys :: k == key || KeyBefore(before, key, k)
  }

  /** `keys().next()`: the first key of the ordered map. */
  method FirstKey(before: (Digest, Digest) -> bool, keys: set<CacheKey>) returns (first: CacheKey)
    requires OrdersDigests(before) && keys != {}
    ensures IsFirst(before, keys, first)
  {
    hide KeyBefore, OrdersDigests;
    first :| first in keys;
    var rest := keys - {first};
    while rest != {}
      invariant rest <= keys && first in keys && IsFirst(before, keys - rest, first)
      decreases |rest|
    {
      var k :| k in rest;
      forall q | q in keys - rest ensures KeyBefore(before, k, first) ==> q == first || KeyBefore(before, k, q) {
        KeysAreOrdered(before, k, first, q);
      }
      KeysAreOrdered(before, k, first, first);
      if KeyBefore(before, k, first) { first := k; }
      rest := rest - {k};
    }
    assert keys - rest == keys;
  }

  class LorebookEngine {
    const lib: Library
    const before: (Digest, Digest) -> bool
    var compiled: CompiledCatalog
    var cache: map<CacheKey, Selection>
    ghost var catalog: Catalog

    ghost function Entries(): seq<Entry>
      reads this
    {
      Enabled(catalog.entries)
    }

    /** A cached selection is what selecting afresh would return, for every request with its key. */
    ghost predicate Transparent(key: CacheKey)
      requires key in cache
      reads this
    {
      forall r: Request | RequestValid(r) && KeyFor(compiled, r) == key ::
        Affordable(lib, Entries(), r.settings, Raw(r)) && cache[key] == Fresh(lib, compiled, Entries(), r)
    }

    ghost predicate Valid()
      reads this
    {
      && Compilable(lib, catalog) && CompiledFrom(lib, Entries(), compiled)
      && |cache| <= MAX_CACHE_ENTRIES && OrdersDigests(before)
      && forall key | key in cache :: Transparent(key)
    }

    constructor (lib: Library, before: (Digest, Digest) -> bool, compiled: CompiledCatalog, ghost catalog: Catalog)
      requires OrdersDigests(before)
      requires Compilable(lib, catalog) && CompiledFrom(lib, Enabled(catalog.entries), compiled)
      ensures Valid() && cache == map[] && this.lib == lib && this.compiled == compiled && this.catalog == catalog
    {
      this.lib, this.before, this.compiled, this.catalog, this.cache := lib, before, compiled, catalog, map[];
    }

    /** A new catalog empties the cache; a refused one changes nothing. */
    method ReplaceCatalog(next: Catalog) returns (r: Result<(), CompileError>)
      requires Valid()
      modifies this
      ensures Valid()
      ensures r.Success? <==> Compilable(lib, next) && old(compiled.generation) + 1 < TWO_64
      ensures r.Success? ==> catalog == next && cache == map[] && compiled.generation == old(compiled.generation) + 1
      ensures r.Failure? ==> catalog == old(catalog) && cache == old(cache) && compiled == old(compiled)
    {
      if compiled.generation + 1 >= TWO_64 { return Failure(GenerationOverflow); }
      var built := CompileCatalog(lib, next, compiled.generation + 1);
      if built.Failure? { return Failure(built.error); }
      compiled, catalog, cache := built.value, next, map[];
      return Success(());
    }

    /** Keep a selection; when the cache is full its first key makes room. */
    method Remember(key: CacheKey, selection: Selection)
      requires Valid() && key !in cache
      requires forall r: Request | RequestValid(r) && KeyFor(compiled, r) == key ::
        Affordable(lib, Entries(), r.settings, Raw(r)) && selection == Fresh(lib, compiled, Entries(), r)
      modifies this`cache
      ensures Valid()
      ensures |old(cache)| < MAX_CACHE_ENTRIES ==> cache == old(cache)[key := selection]
      ensures |old(cache)| == MAX_CACHE_ENTRIES ==>
        exists first :: IsFirst(before, old(cache).Keys, first) && cache == (old(cache) - {first})[key := selection]
    {
      hide KeyFor, Affordable, Fresh, Raw, RequestValid, CompiledFrom, Compilable, OrdersDigests, IsFirst;
      if |cache| >= MAX_CACHE_ENTRIES {
        assert cache.Keys != {};
        var first := FirstKey(before, cache.Keys);
        assert first in cache by { FirstIsKey(before, cache.Keys, first); }
        cache := cache - {first};
        assert cache.Keys == old(cache).Keys - {first};
      }
      ghost var kept := cache;
      cache := cache[key := selection];
      assert cache.Keys == kept.Keys + {key};
      forall k | k in cache ensures Transparent(k) {
        if k != key { assert old(Transparent(k)); }
      }
    }

    /**
      Selection with the cache is selection without it, but for the flag that says so:
      it succeeds on exactly the affordable requests and returns the scan of every enabled entry.
    */
    method Select(request: Request) returns (r: Result<Selection, SelectError>)
      requires Valid()
      modifies this
      ensures Valid() && catalog == old(catalog) && compiled == old(compiled)
      ensures r == Failure(InvalidRequest) <==> !RequestValid(request)
      ensures r.Success? <==> RequestValid(request) && Affordable(lib, Entries(), request.settings, Raw(request))
      ensures r.Success? ==> var key := KeyFor(compiled, request);
        && r.value.receipt.cacheHit == (key in old(cache))
        && r.value.(receipt := r.value.receipt.(cacheHit := false)) == Fresh(lib, compiled, Entries(), request)
        && key in cache
      ensures r.Failure? ==> cache == old(cache)
      ensures forall key | key in cache && key in old(cache) :: cache[key] == old(cache[key])
    {
      if !RequestValid(request) { return Failure(InvalidRequest); }
      var raw, code := BuildSearch(request);
      var key := CacheKey(compiled.revision, compiled.generation, request.conversation.chatRevision,
                          request.conversation.branchRevision, request.settings.searchDepth, request.seed,
                          Sha256(TokenizerCode(request.settings)), Sha256(SettingsCode(request.settings)),
                          Sha256(code));
      assert key == KeyFor(compiled, request);
      hide KeyFor, CompiledFrom, RequestValid, Affordable, Fresh, Raw;
      if key in cache {
        assert Transparent(key);
        FreshMisses(lib, compiled, Entries(), request);
        var hit := cache[key];
        return Success(hit.(receipt := hit.receipt.(cacheHit := true)));
      }
      EnabledUnique(catalog.entries);
      var found := SelectUncached(lib, compiled, request, raw, key, Entries());
      FreshIsScan(lib, compiled, Entries(), request);
      FreshMisses(lib, compiled, Entries(), request);
      if found.Failure? { return Failure(SearchLimitExceeded(found.error)); }
      SettledBy(lib, compiled, Entries(), request);
      Remember(key, found.value);
      return Success(found.value);
    }
  }

  lemma FirstIsKey(before: (Digest, Digest) -> bool, keys: set<CacheKey>, key: CacheKey)
    requires IsFirst(before, keys, key)
    ensures key in keys
  {
  }

  lemma FreshMisses(lib: Library, c: CompiledCatalog, es: seq<Entry>, r: Request)
    requires RequestValid(r)
    ensures !Fresh(lib, c, es, r).receipt.cacheHit
  {
  }

  lemma FreshIsScan(lib: Library, c: CompiledCatalog, es: seq<Entry>, r: Request)
    requires RequestValid(r)
    ensures Fresh(lib, c, es, r) == Scan(lib, c.revision, es, r, Raw(r), KeyFor(c, r))
  {
  }

  /** One request's answer settles every request with its key. */
  lemma SettledBy(lib: Library, c: CompiledCatalog, es: seq<Entry>, r: Request)
    requires RequestValid(r) && Affordable(lib, es, r.settings, Raw(r))
    ensures forall q: Request | RequestValid(q) && KeyFor(c, q) == KeyFor(c, r) ::
      Affordable(lib, es, q.settings, Raw(q)) && Fresh(lib, c, es, q) == Fresh(lib, c, es, r)
  {
    forall q: Request | RequestValid(q) && KeyFor(c, q) == KeyFor(c, r)
      ensures Affordable(lib, es, q.settings, Raw(q)) && Fresh(lib, c, es, q) == Fresh(lib, c, es, r)
    {
      SameKeySameSelection(lib, c, es, r, q);
    }
  }

  lemma {:induction false} EnabledUnique(es: seq<Entry>)
    requires UniqueIds(es)
    ensures UniqueIds(Enabled(es)) && forall e | e in Enabled(es) :: e in es
  {
    if es != [] {
      var before, last := es[..|es| - 1], es[|es| - 1];
      EnabledUnique(before);
      var rest := Enabled(before);
      forall k | 0 <= k < |rest| ensures rest[k].id != last.id { assert rest[k] in before; }
    }
  }

  method NewEngine(lib: Library, before: (Digest, Digest) -> bool, catalog: Catalog)
    returns (r: Result<LorebookEngine, CompileError>)
    requires OrdersDigests(before)
    ensures r.Success? <==> Compilable(lib, catalog)
    ensures r.Success? ==> fresh(r.value) && r.value.Valid() && r.value.catalog == catalog && r.value.cache == map[]
  {
    var built := CompileCatalog(lib, catalog, 1);
    if built.Failure? { return Failure(built.error); }
    var engine := new LorebookEngine(lib, before, built.value, catalog);
    return Success(engine);
  }
}
