/** Applying text transform rules: the parser as it runs, the rewriting of one rule, and the pipeline. */
module Transform {
  import opened Wrappers
  import opened Replacement

  const MAX_TEXT_BYTES: nat := 4 * 1024 * 1024
  const MAX_CUMULATIVE_SCAN_BYTES: nat := 128 * 1024 * 1024
  const MAX_MATCHES_PER_RULE: nat := 100_000
  const MAX_CUMULATIVE_MATCHES: nat := 100_000

  datatype TransformError =
    | Unterminated | BadCapture | CaptureOutOfRange | BadDollar
    | ScanLimit | MatchLimit | RuleMatchLimit | TextTooLarge

  // ------------------------------------------------------------------ parser

  function Follow(parts: seq<Part>, rest: Option<seq<Part>>): Option<seq<Part>> {
    if rest.None? then None else Some(parts + rest.value)
  }

  /** What the cursor has read so far is settled; the rest decides the result. */
  ghost predicate Reading(s: string, parts: seq<Part>, at: nat)
    requires at <= |s|
  {
    Parse(s) == Follow(parts, Parse(s[at..]))
  }

  lemma ReadLiteral(s: string, parts: seq<Part>, at: nat, cursor: nat)
    requires at <= cursor <= |s| && Reading(s, parts, at) && NoDollar(s[at..cursor])
    requires cursor == |s| || s[cursor] == '$'
    ensures Reading(s, if at < cursor then parts + [Literal(s[at..cursor])] else parts, cursor)
  {
    if at < cursor {
      var t := s[at..];
      assert s[at..cursor] == t[..cursor - at] && s[cursor..] == t[cursor - at..];
      assert t[0] != '$' by { assert s[at..cursor][0] != '$'; }
      assert Find(t, '$', 0) == cursor - at by {
        assert forall i | 0 <= i < cursor - at :: t[i] == s[at..cursor][i];
      }
      assert Parse(t) == Prepend(Literal(s[at..cursor]), Parse(s[cursor..]));
      ReadOne(s, parts, at, Literal(s[at..cursor]), cursor);
    }
  }

  lemma ReadOne(s: string, parts: seq<Part>, at: nat, p: Part, next: nat)
    requires at <= next <= |s| && Reading(s, parts, at) && Parse(s[at..]) == Prepend(p, Parse(s[next..]))
    ensures Reading(s, parts + [p], next)
  {
    hide Parse;
    var rest := Parse(s[next..]);
    if rest.Some? { assert parts + ([p] + rest.value) == parts + [p] + rest.value; }
  }

  /** The part at a dollar sign, or why there is none. */
  method ReadDollar(s: string, cursor: nat) returns (r: Result<(Part, nat), TransformError>)
    requires cursor < |s| && s[cursor] == '$'
    ensures match r
      case Success((p, next)) => cursor < next <= |s| && Parse(s[cursor..]) == Prepend(p, Parse(s[next..]))
      case Failure(_) => Parse(s[cursor..]) == None
  {
    AtDollar(s, cursor);
    hide Parse, Value;
    if cursor + 1 < |s| && s[cursor + 1] == '$' { return Success((Dollar, cursor + 2)); }
    if cursor + 1 >= |s| || s[cursor + 1] != '{' { return Failure(BadDollar); }
    var start := cursor + 2;
    var end := Find(s, '}', start);
    AtBrace(s, cursor, end);
    if end == |s| { return Failure(Unterminated); }
    var digits := s[start..end];
    if digits == "" || !AllDigits(digits) || (|digits| > 1 && digits[0] == '0') { return Failure(BadCapture); }
    if Value(digits) > MAX_CAPTURE { return Failure(CaptureOutOfRange); }
    return Success((Capture(Value(digits)), end + 1));
  }

  lemma AtDollar(s: string, cursor: nat)
    requires cursor < |s| && s[cursor] == '$'
    ensures cursor + 1 < |s| && s[cursor + 1] == '$' ==>
      Parse(s[cursor..]) == Prepend(Dollar, Parse(s[cursor + 2..]))
    ensures cursor + 1 == |s| || (s[cursor + 1] != '$' && s[cursor + 1] != '{') ==> Parse(s[cursor..]) == None
  {
    hide Value, Find;
    if cursor + 1 < |s| { assert s[cursor..][2..] == s[cursor + 2..]; }
  }

  lemma AtBrace(s: string, cursor: nat, end: nat)
    requires cursor + 1 < |s| && s[cursor] == '$' && s[cursor + 1] == '{' && end == Find(s, '}', cursor + 2)
    ensures Parse(s[cursor..]) ==
      if end < |s| && ValidDigits(s[cursor + 2..end])
      then Prepend(Capture(Value(s[cursor + 2..end])), Parse(s[end + 1..]))
      else None
  {
    hide Value, Find, ValidDigits;
    var t := s[cursor..];
    FindInTail(s, cursor, cursor + 2, end);
    if end < |s| { assert s[cursor + 2..end] == t[2..end - cursor] && t[end - cursor + 1..] == s[end + 1..]; }
  }

  lemma FindInTail(s: string, cursor: nat, start: nat, end: nat)
    requires cursor <= start <= end <= |s| && end == Find(s, '}', start)
    ensures Find(s[cursor..], '}', start - cursor) == end - cursor
  {
  }

  /** The cursor parser accepts the replacement language and nothing else. */
  method ParseReplacement(s: string) returns (r: Result<seq<Part>, TransformError>)
    ensures r.Success? <==> Parse(s).Some?
    ensures r.Success? ==> r.value == Parse(s).value
  {
    var parts: seq<Part> := [];
    var cursor: nat, literalStart: nat := 0, 0;
    ReadNothing(s);
    hide Parse, Value;
    while cursor < |s|
      invariant literalStart <= cursor <= |s| && NoDollar(s[literalStart..cursor])
      invariant Reading(s, parts, literalStart)
    {
      if s[cursor] != '$' {
        assert s[literalStart..cursor + 1] == s[literalStart..cursor] + [s[cursor]];
        cursor := cursor + 1;
        continue;
      }
      ReadLiteral(s, parts, literalStart, cursor);
      if literalStart < cursor { parts := parts + [Literal(s[literalStart..cursor])]; }
      var one := ReadDollar(s, cursor);
      if one.Failure? { return Failure(one.error); }
      ReadOne(s, parts, cursor, one.value.0, one.value.1);
      parts := parts + [one.value.0];
      cursor := one.value.1;
      literalStart := cursor;
    }
    ReadLiteral(s, parts, literalStart, cursor);
    if literalStart < |s| {
      assert s[literalStart..] == s[literalStart..cursor];
      parts := parts + [Literal(s[literalStart..])];
    }
    ParseEnd(s);
    assert parts + [] == parts;
    return Success(parts);
  }

  lemma ReadNothing(s: string)
    ensures Reading(s, [], 0)
  {
    assert s[0..] == s;
    if Parse(s).Some? { assert [] + Parse(s).value == Parse(s).value; }
  }

  lemma ParseEnd(s: string)
    ensures Parse(s[|s|..]) == Some([])
  {
  }

  // --------------------------------------------------------------- rewriting

  /** A match with its captures; capture 0 is the whole match. */
  datatype Match = Match(start: nat, end: nat, captures: seq<Option<string>>)

  predicate MatchOk(input: string, m: Match) {
    && m.start <= m.end <= |input|
    && |m.captures| > 0 && m.captures[0] == Some(input[m.start..m.end])
  }

  /** Matches in order, none overlapping the one before. */
  predicate MatchesOk(input: string, ms: seq<Match>) {
    && (forall i | 0 <= i < |ms| :: MatchOk(input, ms[i]))
    && forall i | 0 < i < |ms| :: ms[i - 1].end <= ms[i].start
  }

  function ExpandPart(p: Part, m: Match): string {
    match p
    case Literal(text) => text
    case Dollar => "$"
    case Capture(n) => if n < |m.captures| && m.captures[n].Some? then m.captures[n].value else ""
  }

  function Expand(parts: seq<Part>, m: Match): string {
    if parts == [] then "" else ExpandPart(parts[0], m) + Expand(parts[1..], m)
  }

  function EndOf(ms: seq<Match>): nat {
    if ms == [] then 0 else ms[|ms| - 1].end
  }

  /** The input up to the last match, every match replaced. */
  function Head(parts: seq<Part>, input: string, ms: seq<Match>): string
    requires MatchesOk(input, ms)
  {
    if ms == [] then ""
    else
      var front, m := ms[..|ms| - 1], ms[|ms| - 1];
      Head(parts, input, front) + input[EndOf(front)..m.start] + Expand(parts, m)
  }

  /** The input with every match replaced. */
  function Rewritten(parts: seq<Part>, input: string, ms: seq<Match>): string
    requires MatchesOk(input, ms)
  {
    Head(parts, input, ms) + input[EndOf(ms)..]
  }

  function Used(ms: seq<Match>, global: bool): seq<Match> {
    if global || ms == [] then ms else [ms[0]]
  }

  lemma ExpandWhole(parts: seq<Part>, input: string, m: Match)
    requires parts == [Capture(0)] && MatchOk(input, m)
    ensures Expand(parts, m) == input[m.start..m.end]
  {
    assert parts[1..] == [] && Expand([], m) == "";
  }

  lemma JoinSlices(s: string, a: nat, b: nat, c: nat)
    requires a <= b <= c <= |s|
    ensures s[..a] + s[a..b] + s[b..c] == s[..c]
  {
  }

  lemma {:induction false} WholeMatchHead(parts: seq<Part>, input: string, ms: seq<Match>)
    requires parts == [Capture(0)] && MatchesOk(input, ms)
    ensures EndOf(ms) <= |input| && Head(parts, input, ms) == input[..EndOf(ms)]
  {
    hide Expand;
    if ms != [] {
      var front, m := ms[..|ms| - 1], ms[|ms| - 1];
      WholeMatchHead(parts, input, front);
      ExpandWhole(parts, input, m);
      JoinSlices(input, EndOf(front), m.start, m.end);
    }
  }

  /** Replacing every match by itself changes nothing. */
  lemma WholeMatchIsIdentity(parts: seq<Part>, input: string, ms: seq<Match>)
    requires parts == [Capture(0)] && MatchesOk(input, ms)
    ensures Rewritten(parts, input, ms) == input
  {
    hide Head, MatchesOk;
    WholeMatchHead(parts, input, ms);
  }

  // ------------------------------------------------------------------- rules

  class TransformBudget {
    var scanned: nat
    var matches: nat

    constructor ()
      ensures scanned == 0 && matches == 0
    {
      scanned, matches := 0, 0;
    }

    method Charge(bytes: nat) returns (r: Result<(), TransformError>)
      modifies this`scanned
      ensures scanned == old(scanned) + bytes
      ensures r == if scanned <= MAX_CUMULATIVE_SCAN_BYTES then Success(()) else Failure(ScanLimit)
    {
      scanned := scanned + bytes;
      if scanned > MAX_CUMULATIVE_SCAN_BYTES { return Failure(ScanLimit); }
      return Success(());
    }

    method ChargeMatch() returns (r: Result<(), TransformError>)
      modifies this`matches
      ensures matches == old(matches) + 1
      ensures r == if matches <= MAX_CUMULATIVE_MATCHES then Success(()) else Failure(MatchLimit)
    {
      matches := matches + 1;
      if matches > MAX_CUMULATIVE_MATCHES { return Failure(MatchLimit); }
      return Success(());
    }
  }

  method AppendBounded(output: string, value: string) returns (r: Result<string, TransformError>)
    ensures r == if |output| + |value| <= MAX_TEXT_BYTES then Success(output + value) else Failure(TextTooLarge)
  {
    if |output| + |value| > MAX_TEXT_BYTES { return Failure(TextTooLarge); }
    return Success(output + value);
  }

  method ExpandReplacement(output: string, parts: seq<Part>, m: Match) returns (r: Result<string, TransformError>)
    requires |output| <= MAX_TEXT_BYTES
    ensures r.Success? <==> |output| + |Expand(parts, m)| <= MAX_TEXT_BYTES
    ensures r.Success? ==> r.value == output + Expand(parts, m)
    ensures r.Failure? ==> r.error == TextTooLarge
  {
    var text := output;
    assert parts[0..] == parts;
    for i := 0 to |parts|
      invariant |text| <= MAX_TEXT_BYTES
      invariant text + Expand(parts[i..], m) == output + Expand(parts, m)
    {
      hide ExpandPart;
      var value := ExpandPart(parts[i], m);
      assert parts[i..][1..] == parts[i + 1..];
      assert text + (value + Expand(parts[i + 1..], m)) == text + value + Expand(parts[i + 1..], m);
      var next := AppendBounded(text, value);
      if next.Failure? {
        assert |output + Expand(parts, m)| == |output| + |Expand(parts, m)|;
        return Failure(TextTooLarge);
      }
      text := next.value;
    }
    return Success(text);
  }

  /** The text up to a match and the match's replacement. */
  method Replace(output: string, parts: seq<Part>, input: string, from: nat, m: Match)
    returns (r: Result<string, TransformError>)
    requires |output| <= MAX_TEXT_BYTES && from <= m.start <= |input|
    ensures r.Success? <==> |output| + (m.start - from) + |Expand(parts, m)| <= MAX_TEXT_BYTES
    ensures r.Success? ==> r.value == output + input[from..m.start] + Expand(parts, m)
    ensures r.Failure? ==> r.error == TextTooLarge
  {
    hide Expand;
    var copied := AppendBounded(output, input[from..m.start]);
    if copied.Failure? { return Failure(TextTooLarge); }
    r := ExpandReplacement(copied.value, parts, m);
  }

  /** How many more matches a counter has room for. */
  function Room(limit: nat, used: nat): nat {
    if used <= limit then limit - used else 0
  }

  /**
   What a rule does to a text with `ms` the matches in use, when `total` matches were counted before over
   all rules and `own` for this one. The text limit is met at the first match that breaks it, unless a match
   limit is met before.
  */
  function RuleOutcome(parts: seq<Part>, input: string, ms: seq<Match>, total: nat, own: nat)
    : Result<string, TransformError>
    requires MatchesOk(input, ms)
  {
    var shared, rule := Room(MAX_CUMULATIVE_MATCHES, total), Room(MAX_MATCHES_PER_RULE, own);
    var room := if shared <= rule then shared else rule;
    if |ms| <= room then
      if |Rewritten(parts, input, ms)| <= MAX_TEXT_BYTES then Success(Rewritten(parts, input, ms))
      else Failure(TextTooLarge)
    else if |Head(parts, input, ms[..room])| > MAX_TEXT_BYTES then Failure(TextTooLarge)
    else if shared <= rule then Failure(MatchLimit)
    else Failure(RuleMatchLimit)
  }

  lemma {:induction false} HeadGrows(parts: seq<Part>, input: string, ms: seq<Match>, i: nat)
    requires MatchesOk(input, ms) && i <= |ms|
    ensures |Head(parts, input, ms[..i])| <= |Head(parts, input, ms)|
  {
    hide Expand, MatchOk;
    if i == |ms| {
      assert ms[..i] == ms;
    } else {
      var front := ms[..|ms| - 1];
      assert front[..i] == ms[..i];
      HeadGrows(parts, input, front, i);
    }
  }

  /** A text that is too large after `i` matches settles the outcome, if no match limit is met up to there. */
  lemma TooLargeAt(parts: seq<Part>, input: string, ms: seq<Match>, total: nat, own: nat, i: nat)
    requires MatchesOk(input, ms) && i <= |ms|
    requires i <= Room(MAX_CUMULATIVE_MATCHES, total) && i <= Room(MAX_MATCHES_PER_RULE, own)
    requires |Head(parts, input, ms[..i])| > MAX_TEXT_BYTES
    ensures RuleOutcome(parts, input, ms, total, own) == Failure(TextTooLarge)
  {
    hide Expand, MatchOk, Head;
    HeadGrows(parts, input, ms, i);
    var shared, rule := Room(MAX_CUMULATIVE_MATCHES, total), Room(MAX_MATCHES_PER_RULE, own);
    var room := if shared <= rule then shared else rule;
    if room < |ms| {
      HeadGrows(parts, input, ms[..room], i);
      assert ms[..room][..i] == ms[..i];
    }
  }

  /** One match counted, against the shared limit first and the rule's own next. */
  method CountMatch(matchCount: nat, own: nat, budget: TransformBudget)
    returns (r: Result<(), TransformError>, counted: nat)
    requires matchCount <= own
    modifies budget`matches
    ensures budget.matches == old(budget.matches) + 1
    ensures counted ==
      if old(budget.matches) >= MAX_CUMULATIVE_MATCHES || matchCount >= MAX_MATCHES_PER_RULE then own else own + 1
    ensures r ==
      if old(budget.matches) >= MAX_CUMULATIVE_MATCHES then Failure(MatchLimit)
      else if own >= MAX_MATCHES_PER_RULE then Failure(RuleMatchLimit)
      else Success(())
  {
    counted := own;
    r := budget.ChargeMatch();
    if r.Failure? { return; }
    if matchCount + 1 > MAX_MATCHES_PER_RULE { return Failure(RuleMatchLimit), own; }
    counted := own + 1;
    if counted > MAX_MATCHES_PER_RULE { return Failure(RuleMatchLimit), counted; }
  }

  /** One rule over one text: the input with the matches in use replaced, or the first limit that is met. */
  method ApplyRule(parts: seq<Part>, global: bool, input: string, ms: seq<Match>, own: nat, budget: TransformBudget)
    returns (r: Result<string, TransformError>, counted: nat)
    requires MatchesOk(input, ms) && MatchesOk(input, Used(ms, global))
    modifies budget`matches
    ensures r == RuleOutcome(parts, input, Used(ms, global), old(budget.matches), own)
    ensures r.Success? ==>
      budget.matches == old(budget.matches) + |Used(ms, global)| && counted == own + |Used(ms, global)|
    ensures old(budget.matches) <= budget.matches <= old(budget.matches) + |Used(ms, global)|
    ensures own <= counted <= own + |Used(ms, global)|
  {
    hide Expand, MatchOk, RuleOutcome, Head;
    var used := Used(ms, global);
    ghost var total := budget.matches;
    var output := "";
    counted := own;
    HeadEmpty(parts, input, used);
    for i := 0 to |used|
      invariant budget.matches == total + i && counted == own + i
      invariant i <= Room(MAX_CUMULATIVE_MATCHES, total) && i <= Room(MAX_MATCHES_PER_RULE, own)
      invariant output == Head(parts, input, used[..i]) && |output| <= MAX_TEXT_BYTES
    {
      var charged;
      charged, counted := CountMatch(i, counted, budget);
      if charged.Failure? {
        LimitAt(parts, input, used, total, own, i);
        return Failure(charged.error), counted;
      }
      NextHead(parts, input, used, i);
      var replaced := Replace(output, parts, input, EndOf(used[..i]), used[i]);
      if replaced.Failure? {
        TooLargeAt(parts, input, used, total, own, i + 1);
        return replaced, counted;
      }
      output := replaced.value;
    }
    LastHead(parts, input, used, total, own);
    r := AppendBounded(output, input[EndOf(used)..]);
  }

  lemma HeadEmpty(parts: seq<Part>, input: string, ms: seq<Match>)
    requires MatchesOk(input, ms)
    ensures Head(parts, input, ms[..0]) == ""
  {
  }

  lemma NextHead(parts: seq<Part>, input: string, ms: seq<Match>, i: nat)
    requires MatchesOk(input, ms) && i < |ms|
    ensures EndOf(ms[..i]) <= ms[i].start <= |input|
    ensures Head(parts, input, ms[..i + 1]) ==
      Head(parts, input, ms[..i]) + input[EndOf(ms[..i])..ms[i].start] + Expand(parts, ms[i])
  {
    hide Expand;
    assert ms[..i + 1][..i] == ms[..i];
  }

  /** The match after `i` good ones meets a match limit. */
  lemma LimitAt(parts: seq<Part>, input: string, ms: seq<Match>, total: nat, own: nat, i: nat)
    requires MatchesOk(input, ms) && i < |ms| && |Head(parts, input, ms[..i])| <= MAX_TEXT_BYTES
    requires i <= Room(MAX_CUMULATIVE_MATCHES, total) && i <= Room(MAX_MATCHES_PER_RULE, own)
    requires total + i >= MAX_CUMULATIVE_MATCHES || own + i >= MAX_MATCHES_PER_RULE
    ensures RuleOutcome(parts, input, ms, total, own) ==
      Failure(if total + i >= MAX_CUMULATIVE_MATCHES then MatchLimit else RuleMatchLimit)
  {
    hide Expand, MatchOk, Head;
  }

  lemma LastHead(parts: seq<Part>, input: string, ms: seq<Match>, total: nat, own: nat)
    requires MatchesOk(input, ms)
    requires |ms| <= Room(MAX_CUMULATIVE_MATCHES, total) && |ms| <= Room(MAX_MATCHES_PER_RULE, own)
    ensures EndOf(ms) <= |input| && ms[..|ms|] == ms
    ensures
      var text := Head(parts, input, ms) + input[EndOf(ms)..];
      RuleOutcome(parts, input, ms, total, own) ==
        if |text| <= MAX_TEXT_BYTES then Success(text) else Failure(TextTooLarge)
  {
    hide Head;
  }

  // ---------------------------------------------------------------- pipeline

  /** A compiled rule: its replacement, and where its regex matches in a text. */
  datatype Rule = Rule(parts: seq<Part>, global: bool, find: string -> seq<Match>)

  /** The regex engine reports well-formed matches in order. */
  ghost predicate RuleOk(rule: Rule) {
    forall text: string :: MatchesOk(text, rule.find(text))
  }

  ghost predicate RulesOk(rules: seq<Rule>) {
    forall i | 0 <= i < |rules| :: RuleOk(rules[i])
  }

  /** The matches a rule uses in a text. */
  ghost function UsedIn(rule: Rule, text: string): (ms: seq<Match>)
    requires RuleOk(rule)
    ensures MatchesOk(text, ms)
  {
    assert MatchesOk(text, rule.find(text));
    Used(rule.find(text), rule.global)
  }

  ghost function RunRule(rule: Rule, text: string): string
    requires RuleOk(rule)
  {
    Rewritten(rule.parts, text, UsedIn(rule, text))
  }

  /** The text that reaches rule `k` when `text` reaches rule `i`; no limits. */
  ghost function TextAt(rules: seq<Rule>, i: nat, text: string, k: nat): string
    requires RulesOk(rules) && i <= k <= |rules|
    decreases k - i
  {
    if k == i then text else TextAt(rules, i + 1, RunRule(rules[i], text), k)
  }

  /** A completed run: its text, and where it leaves the counters. */
  datatype Done = Done(text: string, scanned: nat, matches: nat, counts: seq<nat>)

  /** The limits of a pipeline, met in the order its rules run, from rule `i` on. */
  ghost function Outcome(rules: seq<Rule>, i: nat, text: string, scanned: nat, total: nat, counts: seq<nat>)
    : Result<Done, TransformError>
    requires RulesOk(rules) && i <= |rules| == |counts|
    decreases |rules| - i
  {
    if i == |rules| then Success(Done(text, scanned, total, counts))
    else if scanned + |text| > MAX_CUMULATIVE_SCAN_BYTES then Failure(ScanLimit)
    else
      var used := UsedIn(rules[i], text);
      var r := RuleOutcome(rules[i].parts, text, used, total, counts[i]);
      if r.Failure? then Failure(r.error)
      else Outcome(rules, i + 1, r.value, scanned + |text|, total + |used|, counts[i := counts[i] + |used|])
  }

  /** The bytes a run reads, over all rules. */
  ghost function Scanned(rules: seq<Rule>, i: nat, text: string): nat
    requires RulesOk(rules) && i <= |rules|
    decreases |rules| - i
  {
    if i == |rules| then 0 else |text| + Scanned(rules, i + 1, RunRule(rules[i], text))
  }

  /** The matches a run uses, over all rules. */
  ghost function Matched(rules: seq<Rule>, i: nat, text: string): nat
    requires RulesOk(rules) && i <= |rules|
    decreases |rules| - i
  {
    if i == |rules| then 0 else |UsedIn(rules[i], text)| + Matched(rules, i + 1, RunRule(rules[i], text))
  }

  /** The matches rule `k` uses. */
  ghost function MatchedBy(rules: seq<Rule>, i: nat, text: string, k: nat): nat
    requires RulesOk(rules) && i <= k < |rules|
  {
    |UsedIn(rules[k], TextAt(rules, i, text, k))|
  }

  /** A counter that is not advanced is not checked. */
  ghost predicate Fits(limit: nat, used: nat, more: nat) {
    more == 0 || used + more <= limit
  }

  /** The sums over a run, and every text it produces, stay within the limits. */
  ghost predicate WithinLimits(rules: seq<Rule>, i: nat, text: string, scanned: nat, total: nat, counts: seq<nat>)
    requires RulesOk(rules) && i <= |rules| == |counts|
  {
    && (i == |rules| || scanned + Scanned(rules, i, text) <= MAX_CUMULATIVE_SCAN_BYTES)
    && Fits(MAX_CUMULATIVE_MATCHES, total, Matched(rules, i, text))
    && forall k | i <= k < |rules| :: RuleFits(rules, i, text, counts[k], k)
  }

  ghost predicate RuleFits(rules: seq<Rule>, i: nat, text: string, own: nat, k: nat)
    requires RulesOk(rules) && i <= k < |rules|
  {
    && Fits(MAX_MATCHES_PER_RULE, own, MatchedBy(rules, i, text, k))
    && |TextAt(rules, i, text, k + 1)| <= MAX_TEXT_BYTES
  }

  lemma RuleSucceedsExactly(rule: Rule, text: string, total: nat, own: nat)
    requires RuleOk(rule)
    ensures
      var used, next := UsedIn(rule, text), RunRule(rule, text);
      var r := RuleOutcome(rule.parts, text, used, total, own);
      && (r.Success? <==>
            && Fits(MAX_CUMULATIVE_MATCHES, total, |used|) && Fits(MAX_MATCHES_PER_RULE, own, |used|)
            && |next| <= MAX_TEXT_BYTES)
      && (r.Success? ==> r.value == next)
  {
    hide Head, RuleOk, UsedIn, MatchesOk;
  }

  /** What reaches a later rule does not depend on where the count starts. */
  lemma LaterRule(rules: seq<Rule>, i: nat, text: string, own: nat, k: nat)
    requires RulesOk(rules) && i < k < |rules|
    ensures RuleFits(rules, i, text, own, k) == RuleFits(rules, i + 1, RunRule(rules[i], text), own, k)
  {
    hide RunRule, UsedIn, RuleOk;
  }

  lemma FirstRule(rules: seq<Rule>, i: nat, text: string, own: nat)
    requires RulesOk(rules) && i < |rules|
    ensures RuleFits(rules, i, text, own, i) <==>
      && Fits(MAX_MATCHES_PER_RULE, own, |UsedIn(rules[i], text)|) && |RunRule(rules[i], text)| <= MAX_TEXT_BYTES
  {
    hide RunRule, UsedIn, RuleOk;
    assert TextAt(rules, i, text, i + 1) == TextAt(rules, i + 1, RunRule(rules[i], text), i + 1);
  }

  lemma WithinStep(rules: seq<Rule>, i: nat, text: string, scanned: nat, total: nat, counts: seq<nat>)
    requires RulesOk(rules) && i < |rules| == |counts|
    ensures
      var used, next := UsedIn(rules[i], text), RunRule(rules[i], text);
      WithinLimits(rules, i, text, scanned, total, counts) <==>
        && scanned + |text| <= MAX_CUMULATIVE_SCAN_BYTES
        && RuleOutcome(rules[i].parts, text, used, total, counts[i]).Success?
        && WithinLimits(rules, i + 1, next, scanned + |text|, total + |used|, counts[i := counts[i] + |used|])
  {
    var used, next := UsedIn(rules[i], text), RunRule(rules[i], text);
    RuleSucceedsExactly(rules[i], text, total, counts[i]);
    FirstRule(rules, i, text, counts[i]);
    hide RuleOutcome, RulesOk, RuleOk, UsedIn, RunRule, RuleFits;
    var after := counts[i := counts[i] + |used|];
    forall k | i < k < |rules|
      ensures RuleFits(rules, i, text, counts[k], k) == RuleFits(rules, i + 1, next, after[k], k)
    {
      LaterRule(rules, i, text, counts[k], k);
    }
  }

  /**
   A run under limits succeeds exactly when the sums over the whole run stay within them: the bytes read,
   the matches of all rules, the matches of each rule, and every text in between. It then returns what
   the rules give without limits, and has counted exactly those sums.
  */
  lemma {:induction false} OutcomeExactly(
    rules: seq<Rule>, i: nat, text: string, scanned: nat, total: nat, counts: seq<nat>)
    requires RulesOk(rules) && i <= |rules| == |counts|
    ensures
      var r := Outcome(rules, i, text, scanned, total, counts);
      && (r.Success? <==> WithinLimits(rules, i, text, scanned, total, counts))
      && (r.Success? ==>
            && r.value.text == TextAt(rules, i, text, |rules|)
            && r.value.scanned == scanned + Scanned(rules, i, text)
            && r.value.matches == total + Matched(rules, i, text)
            && |r.value.counts| == |counts|
            && (forall k | 0 <= k < i :: r.value.counts[k] == counts[k])
            && (forall k | i <= k < |rules| :: r.value.counts[k] == counts[k] + MatchedBy(rules, i, text, k)))
    decreases |rules| - i
  {
    if i < |rules| {
      var used, next := UsedIn(rules[i], text), RunRule(rules[i], text);
      WithinStep(rules, i, text, scanned, total, counts);
      RuleSucceedsExactly(rules[i], text, total, counts[i]);
      var after := counts[i := counts[i] + |used|];
      OutcomeExactly(rules, i + 1, next, scanned + |text|, total + |used|, after);
      hide RuleOutcome, RulesOk, RuleOk, UsedIn, RunRule, WithinLimits, MatchesOk;
      assert MatchedBy(rules, i, text, i) == |used|;
      forall k | i < k < |rules| ensures MatchedBy(rules, i, text, k) == MatchedBy(rules, i + 1, next, k) {
      }
    }
  }

  class Pipeline {
    const rules: seq<Rule>
    var counts: seq<nat>
    var budget: TransformBudget

    ghost predicate Valid()
      reads this
    {
      |counts| == |rules| && RulesOk(rules)
    }

    constructor (rules: seq<Rule>)
      requires RulesOk(rules)
      ensures Valid() && this.rules == rules && counts == seq(|rules|, i => 0)
      ensures fresh(budget) && budget.scanned == 0 && budget.matches == 0
    {
      this.rules := rules;
      counts := seq(|rules|, i => 0);
      budget := new TransformBudget();
    }

    /** The outcome of a run that has come to rule `i` with `text`. */
    ghost function Left(i: nat, text: string): Result<Done, TransformError>
      requires Valid() && i <= |rules|
      reads this, budget
    {
      Outcome(rules, i, text, budget.scanned, budget.matches, counts)
    }

    /** No counter is below these. */
    ghost predicate NoneLower(scanned: nat, matches: nat, counts: seq<nat>)
      reads this, budget
    {
      && scanned <= budget.scanned && matches <= budget.matches
      && |counts| == |this.counts| && forall k | 0 <= k < |counts| :: counts[k] <= this.counts[k]
    }

    /** The text limit first, then the rules in order under the limits shared by all runs of the pipeline. */
    method Apply(input: string) returns (r: Result<string, TransformError>)
      requires Valid()
      modifies this, budget
      ensures Valid() && budget == old(budget)
      ensures |input| > MAX_TEXT_BYTES ==> r == Failure(TextTooLarge)
      ensures |input| <= MAX_TEXT_BYTES ==>
        match old(Left(0, input))
        case Success(d) =>
          r == Success(d.text) && budget.scanned == d.scanned && budget.matches == d.matches && counts == d.counts
        case Failure(e) => r == Failure(e)
      ensures NoneLower(old(budget.scanned), old(budget.matches), old(counts))
    {
      if |input| > MAX_TEXT_BYTES { return Failure(TextTooLarge); }
      var current := input;
      hide RulesOk;
      for i := 0 to |rules|
        invariant Valid() && budget == old(budget) && Left(i, current) == old(Left(0, input))
        invariant NoneLower(old(budget.scanned), old(budget.matches), old(counts))
      {
        hide Outcome;
        var next := ApplyNext(i, current);
        if next.Failure? { return next; }
        current := next.value;
      }
      return Success(current);
    }

    /** One turn of the loop. */
    method ApplyNext(i: nat, text: string) returns (r: Result<string, TransformError>)
      requires Valid() && i < |rules|
      modifies this, budget
      ensures Valid() && budget == old(budget)
      ensures r.Success? ==> Left(i + 1, r.value) == old(Left(i, text))
      ensures r.Failure? ==> old(Left(i, text)) == Failure(r.error)
      ensures NoneLower(old(budget.scanned), old(budget.matches), old(counts))
    {
      hide RulesOk, RuleOk, UsedIn, RuleOutcome;
      var charged := budget.Charge(|text|);
      if charged.Failure? { return Failure(charged.error); }
      r := Rewrite(i, text);
    }

    /** One rule, counted against the limits it shares and its own. */
    method Rewrite(i: nat, text: string) returns (r: Result<string, TransformError>)
      requires Valid() && i < |rules|
      modifies `counts, budget`matches
      ensures Valid() && |counts| == |old(counts)|
      ensures
        r == RuleOutcome(rules[i].parts, text, UsedIn(rules[i], text), old(budget.matches), old(counts)[i])
      ensures r.Success? ==>
        && budget.matches == old(budget.matches) + |UsedIn(rules[i], text)|
        && counts == old(counts)[i := old(counts)[i] + |UsedIn(rules[i], text)|]
      ensures NoneLower(budget.scanned, old(budget.matches), old(counts))
    {
      FindsMatches(rules[i], text);
      hide RulesOk, RuleOk, UsedIn, Used, MatchesOk, RuleOutcome;
      var rule := rules[i];
      var count: nat;
      r, count := ApplyRule(rule.parts, rule.global, text, rule.find(text), counts[i], budget);
      counts := counts[i := count];
    }
  }

  lemma FindsMatches(rule: Rule, text: string)
    requires RuleOk(rule)
    ensures MatchesOk(text, rule.find(text)) && UsedIn(rule, text) == Used(rule.find(text), rule.global)
  {
  }

  /** A pipeline whose every rule replaces by the whole match returns its input, however many matches there are. */
  lemma {:induction false} IdentityPipeline(rules: seq<Rule>, i: nat, text: string)
    requires RulesOk(rules) && i <= |rules| && forall k | 0 <= k < |rules| :: rules[k].parts == [Capture(0)]
    ensures TextAt(rules, i, text, |rules|) == text
    decreases |rules| - i
  {
    if i < |rules| {
      WholeMatchIsIdentity(rules[i].parts, text, UsedIn(rules[i], text));
      hide UsedIn, Rewritten;
      IdentityPipeline(rules, i + 1, text);
    }
  }

  lemma ParseWholeMatch()
    ensures Parse("${0}") == Some([Capture(0)])
  {
    assert Digits(0) == "0" && "${" + Digits(0) + "}" + "" == "${0}";
    ParseOfCapture(0, "");
    assert Parse("") == Some([]) && [Capture(0)] + [] == [Capture(0)];
  }
}
