/** The replacement language of text transforms: its parser, its printer, and rewriting with it. */
module Replacement {
  import opened Wrappers

  datatype Part = Literal(text: string) | Dollar | Capture(index: nat)

  const MAX_CAPTURE: nat := 63

  // ----------------------------------------------------------------- digits

  predicate IsDigit(c: char) { '0' <= c <= '9' }

  function DigitOf(n: nat): char
    requires n < 10
  {
    ('0' as int + n) as char
  }

  /** A capture number as it is written: no leading zero. */
  function Digits(n: nat): string
    requires n <= MAX_CAPTURE
  {
    if n < 10 then [DigitOf(n)] else [DigitOf(n / 10), DigitOf(n % 10)]
  }

  predicate AllDigits(s: string) { forall i | 0 <= i < |s| :: IsDigit(s[i]) }

  function Value(s: string): nat
    requires AllDigits(s)
  {
    if s == "" then 0 else 10 * Value(s[..|s| - 1]) + (s[|s| - 1] as int - '0' as int)
  }

  /** The digits between braces that name a capture. */
  predicate ValidDigits(s: string) {
    s != "" && AllDigits(s) && (|s| > 1 ==> s[0] != '0') && Value(s) <= MAX_CAPTURE
  }

  lemma {:induction false} LongNumbersAreLarge(s: string)
    requires AllDigits(s) && |s| >= 2 && s[0] != '0'
    ensures Value(s) >= if |s| == 2 then 10 else 100
  {
    if |s| == 2 {
      assert s[..1] == [s[0]] && s[..1][..0] == "";
    } else {
      LongNumbersAreLarge(s[..|s| - 1]);
    }
  }

  lemma DigitsOfValue(s: string)
    requires ValidDigits(s)
    ensures Digits(Value(s)) == s
  {
  }

  lemma ValueOfDigits(n: nat)
    requires n <= MAX_CAPTURE
    ensures ValidDigits(Digits(n)) && Value(Digits(n)) == n
  {
    var s := Digits(n);
    if n < 10 {
      OneDigit(n);
    } else {
      OneDigit(n / 10);
      assert s[..1] == [DigitOf(n / 10)];
    }
  }

  lemma OneDigit(n: nat)
    requires n < 10
    ensures AllDigits([DigitOf(n)]) && Value([DigitOf(n)]) == n
  {
  }

  // ------------------------------------------------------------------ print

  function PrintPart(p: Part): string
    requires p.Capture? ==> p.index <= MAX_CAPTURE
  {
    match p
    case Literal(text) => text
    case Dollar => "$$"
    case Capture(n) => "${" + Digits(n) + "}"
  }

  predicate NoDollar(s: string) { forall i | 0 <= i < |s| :: s[i] != '$' }

  predicate PartOk(p: Part) {
    match p
    case Literal(text) => text != "" && NoDollar(text)
    case Dollar => true
    case Capture(n) => n <= MAX_CAPTURE
  }

  /** Literals are non-empty, free of dollars and never adjacent; captures are in range. */
  predicate Canonical(parts: seq<Part>) {
    && (forall i | 0 <= i < |parts| :: PartOk(parts[i]))
    && forall i | 0 < i < |parts| :: !(parts[i - 1].Literal? && parts[i].Literal?)
  }

  function Print(parts: seq<Part>): string
    requires forall i | 0 <= i < |parts| :: PartOk(parts[i])
  {
    if parts == [] then "" else assert PartOk(parts[0]); PrintPart(parts[0]) + Print(parts[1..])
  }

  // ------------------------------------------------------------------ parse

  /** The first index of `c` from `k` on, or the length. */
  function Find(s: string, c: char, k: nat): (r: nat)
    requires k <= |s|
    ensures k <= r <= |s|
    ensures forall i | k <= i < r :: s[i] != c
    ensures r < |s| ==> s[r] == c
    decreases |s| - k
  {
    if k == |s| || s[k] == c then k else Find(s, c, k + 1)
  }

  function Prepend(p: Part, rest: Option<seq<Part>>): Option<seq<Part>> {
    if rest.None? then None else Some([p] + rest.value)
  }

  /** The replacement language, one part at a time. */
  function Parse(s: string): Option<seq<Part>> {
    if s == "" then Some([])
    else if s[0] != '$' then
      var k := Find(s, '$', 0);
      Prepend(Literal(s[..k]), Parse(s[k..]))
    else if |s| > 1 && s[1] == '$' then Prepend(Dollar, Parse(s[2..]))
    else if |s| > 1 && s[1] == '{' then
      var end := Find(s, '}', 2);
      if end < |s| && ValidDigits(s[2..end]) then Prepend(Capture(Value(s[2..end])), Parse(s[end + 1..]))
      else None
    else None
  }

  lemma Prefixed(p: Part, rest: seq<Part>)
    requires PartOk(p) && Canonical(rest) && !(p.Literal? && rest != [] && rest[0].Literal?)
    ensures Canonical([p] + rest) && Print([p] + rest) == PrintPart(p) + Print(rest)
  {
  }

  /** Accepted strings are printed back exactly, from a canonical part list. */
  lemma {:induction false} PrintOfParse(s: string)
    requires Parse(s).Some?
    ensures Canonical(Parse(s).value) && Print(Parse(s).value) == s
    ensures s != "" && s[0] == '$' ==> Parse(s).value != [] && !Parse(s).value[0].Literal?
    decreases |s|, 1
  {
    hide Print, PartOk, ValidDigits, Value;
    if s == "" {
      Nothing();
    } else if s[0] != '$' {
      var k := Find(s, '$', 0);
      PrintOfParse(s[k..]);
      LiteralOk(s, k);
      Prefixed(Literal(s[..k]), Parse(s[k..]).value);
      assert s == s[..k] + s[k..];
    } else if s[1] == '$' {
      PrintOfParse(s[2..]);
      LiteralOk(s, 0);
      Prefixed(Dollar, Parse(s[2..]).value);
      assert s == "$$" + s[2..];
    } else {
      PrintOfCapture(s);
    }
  }

  lemma Nothing()
    ensures Canonical([]) && Print([]) == ""
  {
  }

  lemma LiteralOk(s: string, k: nat)
    requires k <= |s| && forall i | 0 <= i < k :: s[i] != '$'
    ensures k > 0 ==> PartOk(Literal(s[..k]))
    ensures PartOk(Dollar)
  {
  }

  lemma PrintOfCapture(s: string)
    requires |s| > 1 && s[0] == '$' && s[1] == '{' && Parse(s).Some?
    ensures Canonical(Parse(s).value) && Print(Parse(s).value) == s
    ensures Parse(s).value != [] && !Parse(s).value[0].Literal?
    decreases |s|, 0
  {
    var end := Find(s, '}', 2);
    var d, t := s[2..end], s[end + 1..];
    var n := Value(d);
    assert Parse(s) == Prepend(Capture(n), Parse(t)) && ValidDigits(d) && PartOk(Capture(n));
    SplitCapture(s, end);
    hide Parse, Print, PartOk, ValidDigits, Value, Digits, Canonical;
    PrintOfParse(t);
    DigitsOfValue(d);
    Prefixed(Capture(n), Parse(t).value);
  }

  lemma SplitCapture(s: string, end: nat)
    requires 2 <= end < |s| && s[0] == '$' && s[1] == '{' && s[end] == '}'
    ensures s == "${" + s[2..end] + "}" + s[end + 1..]
  {
  }

  lemma FindFirst(s: string, c: char, k: nat, r: nat)
    requires k <= r < |s| && s[r] == c && forall i | k <= i < r :: s[i] != c
    ensures Find(s, c, k) == r
  {
  }

  /** Canonical part lists are read back exactly. */
  lemma {:induction false} ParseOfPrint(parts: seq<Part>)
    requires Canonical(parts)
    ensures Parse(Print(parts)) == Some(parts)
    ensures parts != [] && !parts[0].Literal? ==> Print(parts) != "" && Print(parts)[0] == '$'
  {
    if parts != [] {
      var rest := parts[1..];
      assert Canonical(rest);
      ParseOfPrint(rest);
      var s, t := Print(parts), Print(rest);
      assert parts == [parts[0]] + rest;
      hide Canonical, Print, Value, ValidDigits;
      match parts[0]
      case Literal(text) =>
        assert s[..|text|] == text && s[|text|..] == t;
        if rest == [] { assert s == text; } else { FindFirst(s, '$', 0, |text|); }
      case Dollar => assert s[2..] == t;
      case Capture(n) => ParseOfCapture(n, t);
    }
  }

  lemma ParseOfCapture(n: nat, t: string)
    requires n <= MAX_CAPTURE
    ensures Parse("${" + Digits(n) + "}" + t) == Prepend(Capture(n), Parse(t))
  {
    var d := Digits(n);
    var s := "${" + d + "}" + t;
    ValueOfDigits(n);
    assert s[2..2 + |d|] == d && s[|d| + 3..] == t;
    FindFirst(s, '}', 2, 2 + |d|);
  }
}
