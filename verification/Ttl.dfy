/**
 * `parseCCDirective`: lifetimes read from a `Cache-Control` line, in int64 arithmetic.
 */
module Ttl {
  import opened Strings

  const TWO_63: int := 0x8000_0000_0000_0000
  const TWO_64: int := 0x1_0000_0000_0000_0000
  const SECOND: int := 1_000_000_000
  /** The longest lifetime in seconds that a `time.Duration` can hold. */
  const MAX_SECONDS: int := 9_223_372_036

  /** The int64 that holds `x` modulo 2^64. */
  function Wrap64(x: int): (r: int)
    ensures -TWO_63 <= r < TWO_63
    ensures -TWO_63 <= x < TWO_63 ==> r == x
  {
    (x + TWO_63) % TWO_64 - TWO_63
  }

  /** `time.Duration(seconds) * time.Second`. */
  function Duration(seconds: int): int {
    Wrap64(seconds * SECOND)
  }

  /** What a directive worth `seconds` yields; zero means there is none. */
  function Lifetime(seconds: int): int {
    if seconds <= 0 then 0 else Duration(seconds)
  }

  predicate IsDigit(c: char) {
    '0' <= c <= '9'
  }

  predicate AllDigits(s: string) {
    forall c <- s :: IsDigit(c)
  }

  function DigitValue(c: char): nat
    requires IsDigit(c)
  {
    (c - '0') as nat
  }

  /** The number a digit string denotes. */
  function Value(digits: string): nat
    requires AllDigits(digits)
  {
    if digits == "" then 0
    else
      var n := |digits| - 1;
      10 * Value(digits[..n]) + DigitValue(digits[n])
  }

  /** The digits `s` starts with. */
  function DigitPrefix(s: string): (digits: string)
    ensures AllDigits(digits) && digits <= s
  {
    if s != "" && IsDigit(s[0]) then [s[0]] + DigitPrefix(s[1..]) else ""
  }

  /** What follows the first occurrence of `directive`. */
  function After(lower: string, directive: string): Option<string> {
    match IndexOf(lower, directive)
    case None => None
    case Some(at) => Some(lower[at + |directive|..])
  }

  /** The lifetime a directive gives: the digits after its first occurrence, in wrapped arithmetic. */
  function Directive(cc: string, directive: string): int {
    match After(ToLower(cc), directive)
    case None => 0
    case Some(text) => Lifetime(Wrap64(Value(DigitPrefix(text))))
  }

  // ----- the scanning loop

  lemma WrapShift(x: int, laps: int)
    ensures Wrap64(x + laps * TWO_64) == Wrap64(x)
  {
  }

  /** Wrapping at every digit gives what wrapping once at the end gives. */
  lemma WrapDigit(x: int, d: int)
    ensures Wrap64(Wrap64(x) * 10 + d) == Wrap64(10 * x + d)
  {
    var laps := (x + TWO_63) / TWO_64;
    assert Wrap64(x) == x - laps * TWO_64;
    WrapShift(10 * x + d, -10 * laps);
  }

  lemma {:induction false} DigitPrefixIs(s: string, n: nat)
    requires n <= |s| && AllDigits(s[..n]) && (n < |s| ==> !IsDigit(s[n]))
    ensures DigitPrefix(s) == s[..n]
  {
    if n > 0 {
      assert s[..n][0] == s[0] && s[..n] == [s[0]] + s[1..n];
      assert s[1..][..n - 1] == s[1..n];
      assert forall c <- s[1..n] :: c in s[..n];
      DigitPrefixIs(s[1..], n - 1);
    }
  }

  /** `strings.IndexAny(val, ", ")`. */
  function ListEnd(val: string): (end: nat)
    ensures end <= |val|
    ensures forall i | 0 <= i < end :: val[i] != ',' && val[i] != ' '
    ensures end < |val| ==> val[end] == ',' || val[end] == ' '
  {
    if val == "" || val[0] == ',' || val[0] == ' ' then 0 else 1 + ListEnd(val[1..])
  }

  lemma DigitPrefixCut(val: string)
    ensures DigitPrefix(val[..ListEnd(val)]) == DigitPrefix(val)
  {
    var cut := val[..ListEnd(val)];
    var n := |DigitPrefix(cut)|;
    assert cut[..n] == DigitPrefix(cut) == val[..n];
    DigitPrefixStops(cut);
    DigitPrefixIs(val, n);
  }

  lemma {:induction false} DigitPrefixStops(s: string)
    ensures var n := |DigitPrefix(s)|; n < |s| ==> !IsDigit(s[n])
  {
    if s != "" && IsDigit(s[0]) {
      DigitPrefixStops(s[1..]);
    }
  }

  /** The accumulating loop: it stops at the first character that is not a digit. */
  method ScanDigits(val: string) returns (seconds: int)
    ensures seconds == Wrap64(Value(DigitPrefix(val)))
  {
    seconds := 0;
    var i := 0;
    while i < |val| && IsDigit(val[i])
      invariant 0 <= i <= |val|
      invariant AllDigits(val[..i])
      invariant seconds == Wrap64(Value(val[..i]))
    {
      WrapDigit(Value(val[..i]), DigitValue(val[i]));
      assert val[..i + 1][..i] == val[..i];
      seconds := Wrap64(seconds * 10 + DigitValue(val[i]));
      i := i + 1;
    }
    DigitPrefixIs(val, i);
  }

  /** `parseCCDirective` as the program runs it: cut the value out, then accumulate its digits. */
  method ParseCCDirective(cc: string, directive: string) returns (ttl: int)
    ensures ttl == Directive(cc, directive)
  {
    var lower := ToLower(cc);
    var after := After(lower, directive);
    if after.None? {
      return 0;
    }
    var rest := after.value;
    DigitPrefixCut(rest);
    var seconds := ScanDigits(rest[..ListEnd(rest)]);
    if seconds <= 0 {
      return 0;
    }
    return Duration(seconds);
  }

  // ----- decimal numbers

  function Decimal(n: nat): string {
    var last := [('0' as int + n % 10) as char];
    if n < 10 then last else Decimal(n / 10) + last
  }

  lemma {:induction false} DecimalValue(n: nat)
    ensures AllDigits(Decimal(n)) && Value(Decimal(n)) == n
  {
    var last := ('0' as int + n % 10) as char;
    assert IsDigit(last) && DigitValue(last) == n % 10;
    if n < 10 {
      assert [last][..0] == "";
    } else {
      DecimalValue(n / 10);
      assert Decimal(n)[..|Decimal(n)| - 1] == Decimal(n / 10);
    }
  }

  /** `n` is printed right after the first occurrence of the directive, and no digit follows it. */
  ghost predicate Carries(cc: string, directive: string, n: nat, rest: string) {
    && After(ToLower(cc), directive) == Some(Decimal(n) + rest)
    && (rest == "" || !IsDigit(rest[0]))
  }

  lemma DigitsOf(n: nat, rest: string)
    requires rest == "" || !IsDigit(rest[0])
    ensures DigitPrefix(Decimal(n) + rest) == Decimal(n)
    ensures AllDigits(Decimal(n)) && Value(Decimal(n)) == n
  {
    DecimalValue(n);
    var text := Decimal(n) + rest;
    assert text[..|Decimal(n)|] == Decimal(n);
    DigitPrefixIs(text, |Decimal(n)|);
  }

  lemma DirectiveReads(cc: string, directive: string, n: nat, rest: string)
    requires Carries(cc, directive, n, rest)
    ensures Directive(cc, directive) == Lifetime(Wrap64(n))
  {
    DigitsOf(n, rest);
  }

  /**
   * A lifetime `n` printed after the directive is read as exactly `n` seconds if and only if it fits
   * a `time.Duration`.
   */
  lemma DirectiveExact(cc: string, directive: string, n: nat, rest: string)
    requires n >= 1 && Carries(cc, directive, n, rest)
    ensures Directive(cc, directive) == n * SECOND <==> n <= MAX_SECONDS
  {
    DirectiveReads(cc, directive, n, rest);
  }

  lemma HugeProduct()
    ensures Lifetime(Wrap64(18_446_744_074)) == 290_448_384
  {
  }

  /** Beyond that the product wraps: a lifetime of 18446744074 seconds is read as 0.29 seconds. */
  lemma {:induction false} HugeLifetimeWraps(cc: string, directive: string, n: nat, rest: string)
    requires n == 18_446_744_074 && Carries(cc, directive, n, rest)
    ensures Directive(cc, directive) == 290_448_384
  {
    HugeProduct();
    DirectiveReads(cc, directive, n, rest);
  }
}
