/**
 * Percent-encoding as the proxy uses it: `url.QueryEscape`, `url.QueryUnescape` and
 * `url.PathUnescape`, by their documented behaviour.
 */
module Escaping {
  import opened Strings

  function HexDigit(n: nat): char
    requires n < 16
  {
    "0123456789ABCDEF"[n]
  }

  predicate IsHex(c: char) {
    '0' <= c <= '9' || 'A' <= c <= 'F' || 'a' <= c <= 'f'
  }

  function HexValue(c: char): (v: nat)
    requires IsHex(c)
    ensures v < 16
  {
    if '0' <= c <= '9' then (c - '0') as nat
    else if 'A' <= c <= 'F' then (c - 'A') as nat + 10
    else (c - 'a') as nat + 10
  }

  /** Characters `url.QueryEscape` leaves alone. */
  predicate Unreserved(c: char) {
    || 'a' <= c <= 'z' || 'A' <= c <= 'Z' || '0' <= c <= '9'
    || c in "-_.~"
    || c as int >= 256
  }

  function EscapeChar(c: char): string {
    if Unreserved(c) then [c]
    else if c == ' ' then "+"
    else ['%', HexDigit(c as nat / 16), HexDigit(c as nat % 16)]
  }

  function QueryEscape(s: string): string {
    if s == "" then "" else EscapeChar(s[0]) + QueryEscape(s[1..])
  }

  /** Decodes `%XX`, and `+` as a space when `plusIsSpace`; a broken escape is an error. */
  function Unescape(s: string, plusIsSpace: bool): (r: Option<string>)
    ensures r.Some? ==> |r.value| <= |s|
  {
    if s == "" then Some("")
    else if s[0] == '%' then
      if |s| >= 3 && IsHex(s[1]) && IsHex(s[2]) then
        match Unescape(s[3..], plusIsSpace)
        case None => None
        case Some(rest) => Some([(16 * HexValue(s[1]) + HexValue(s[2])) as char] + rest)
      else None
    else
      match Unescape(s[1..], plusIsSpace)
      case None => None
      case Some(rest) => Some([if plusIsSpace && s[0] == '+' then ' ' else s[0]] + rest)
  }

  function QueryUnescape(s: string): Option<string> {
    Unescape(s, true)
  }

  function PathUnescape(s: string): Option<string> {
    Unescape(s, false)
  }

  lemma HexRoundTrip(n: nat)
    requires n < 16
    ensures IsHex(HexDigit(n)) && HexValue(HexDigit(n)) == n
  {
  }

  /** Decoding takes one encoded character off the front. */
  lemma {:induction false} UnescapeChar(c: char, tail: string)
    requires QueryUnescape(tail).Some?
    ensures QueryUnescape(EscapeChar(c) + tail) == Some([c] + QueryUnescape(tail).value)
  {
    var s := EscapeChar(c) + tail;
    assert s[|EscapeChar(c)|..] == tail;
    if !Unreserved(c) && c != ' ' {
      HexRoundTrip(c as nat / 16);
      HexRoundTrip(c as nat % 16);
      assert s[1] == HexDigit(c as nat / 16) && s[2] == HexDigit(c as nat % 16);
    }
  }

  /** Decoding undoes encoding, for every string. */
  lemma {:induction false} UnescapeEscape(s: string)
    ensures QueryUnescape(QueryEscape(s)) == Some(s)
  {
    if s != "" {
      UnescapeEscape(s[1..]);
      UnescapeChar(s[0], QueryEscape(s[1..]));
      assert s == [s[0]] + s[1..];
    }
  }

  predicate IsPlain(s: string) {
    '&' !in s && '=' !in s && ';' !in s && '?' !in s && '|' !in s
  }

  lemma EscapeCharIsPlain(c: char)
    ensures IsPlain(EscapeChar(c))
  {
    if !Unreserved(c) && c != ' ' {
      HexRoundTrip(c as nat / 16);
      HexRoundTrip(c as nat % 16);
    }
  }

  /** Encoded text is free of every character with a meaning in a query string. */
  lemma {:induction false} EscapeIsPlain(s: string)
    ensures IsPlain(QueryEscape(s))
  {
    if s != "" {
      EscapeIsPlain(s[1..]);
      EscapeCharIsPlain(s[0]);
    }
  }

  /** Path decoding fixes a string exactly when it holds no `%`; otherwise it fails or shortens the string. */
  lemma {:induction false} PathUnescapeFixed(s: string)
    ensures '%' !in s ==> PathUnescape(s) == Some(s)
    ensures '%' in s && PathUnescape(s).Some? ==> |PathUnescape(s).value| + 2 <= |s|
  {
    if s != "" {
      assert s == [s[0]] + s[1..];
      if s[0] != '%' {
        PathUnescapeFixed(s[1..]);
      }
    }
  }

  lemma ConsAppend(c: char, x: string, y: string)
    ensures [c] + (x + y) == ([c] + x) + y
  {
  }

  /** Two texts that decode can be decoded one after the other. */
  lemma {:induction false} PathUnescapeAppend(a: string, b: string)
    requires PathUnescape(a).Some? && PathUnescape(b).Some?
    ensures PathUnescape(a + b) == Some(PathUnescape(a).value + PathUnescape(b).value)
  {
    if a == "" {
      assert a + b == b && "" + PathUnescape(b).value == PathUnescape(b).value;
    } else {
      var n := if a[0] == '%' then 3 else 1;
      assert (a + b)[n..] == a[n..] + b;
      assert a[0] == '%' ==> (a + b)[1] == a[1] && (a + b)[2] == a[2];
      PathUnescapeAppend(a[n..], b);
      ConsAppend(PathUnescape(a).value[0], PathUnescape(a[n..]).value, PathUnescape(b).value);
    }
  }

  /** Writes `%25` for every `%`. */
  function EscapePercent(s: string): string {
    if s == "" then "" else (if s[0] == '%' then "%25" else [s[0]]) + EscapePercent(s[1..])
  }

  /** Path decoding undoes it, and it brings in or takes away no other character. */
  lemma {:induction false} UnescapePercent(s: string)
    ensures PathUnescape(EscapePercent(s)) == Some(s)
  {
    if s != "" {
      UnescapePercent(s[1..]);
      var rest := EscapePercent(s[1..]);
      assert s == [s[0]] + s[1..];
      if s[0] == '%' {
        assert ("%25" + rest)[3..] == rest && ("%25" + rest)[1] == '2' && ("%25" + rest)[2] == '5';
        assert (16 * HexValue('2') + HexValue('5')) as char == '%';
      } else {
        assert ([s[0]] + rest)[1..] == rest;
      }
    }
  }

  lemma {:induction false} EscapePercentAppend(a: string, b: string)
    ensures EscapePercent(a + b) == EscapePercent(a) + EscapePercent(b)
  {
    if a == "" {
      assert a + b == b && "" + EscapePercent(b) == EscapePercent(b);
    } else {
      EscapePercentAppend(a[1..], b);
      assert (a + b)[1..] == a[1..] + b;
      var head := if a[0] == '%' then "%25" else [a[0]];
      assert head + (EscapePercent(a[1..]) + EscapePercent(b)) == (head + EscapePercent(a[1..])) + EscapePercent(b);
    }
  }

  lemma {:induction false} EscapePercentKeeps(s: string, c: char)
    requires c !in "%25"
    ensures c in EscapePercent(s) <==> c in s
  {
    if s != "" {
      EscapePercentKeeps(s[1..], c);
      assert s == [s[0]] + s[1..];
    }
  }

  // ----- the spelling of bytes

  /** The hexadecimal digit of a number in capital or small letters. */
  function Digit(n: nat, small: bool): char
    requires n < 16
  {
    if small then "0123456789abcdef"[n] else "0123456789ABCDEF"[n]
  }

  lemma DigitIsHex(n: nat, small: bool)
    requires n < 16
    ensures IsHex(Digit(n, small)) && HexValue(Digit(n, small)) == n
  {
  }

  /** Every byte can be written with two hexadecimal digits of either case; both modes read it. */
  lemma {:induction false} EscapeReads(byte: char, small1: bool, small2: bool, tail: string, plusIsSpace: bool)
    requires byte as int < 256
    ensures var escape := ['%', Digit(byte as nat / 16, small1), Digit(byte as nat % 16, small2)];
      Unescape(escape + tail, plusIsSpace)
        == match Unescape(tail, plusIsSpace) case None => None case Some(rest) => Some([byte] + rest)
  {
    var n := byte as nat;
    var s := ['%', Digit(n / 16, small1), Digit(n % 16, small2)] + tail;
    DigitIsHex(n / 16, small1);
    DigitIsHex(n % 16, small2);
    assert s[0] == '%' && s[1] == Digit(n / 16, small1) && s[2] == Digit(n % 16, small2) && s[3..] == tail;
    assert (16 * (n / 16) + n % 16) as char == byte;
  }

  /** Any other character stands for itself, but a plus sign for a blank in queries. */
  lemma {:induction false} OtherReads(c: char, tail: string, plusIsSpace: bool)
    requires c != '%'
    ensures Unescape([c] + tail, plusIsSpace)
      == match Unescape(tail, plusIsSpace)
         case None => None
         case Some(rest) => Some([if c == '+' && plusIsSpace then ' ' else c] + rest)
  {
    assert ([c] + tail)[1..] == tail;
  }

  predicate IsHexDigit(c: char) {
    exists n, small | 0 <= n < 16 :: Digit(n, small) == c
  }

  lemma HexIsDigit(c: char)
    ensures IsHex(c) <==> IsHexDigit(c)
  {
    if IsHex(c) {
      assert Digit(HexValue(c), 'a' <= c <= 'f') == c;
    }
    if n, small :| 0 <= n < 16 && Digit(n, small) == c {
      DigitIsHex(n, small);
    }
  }

  /** A sign without two hexadecimal digits behind it is an error, whatever follows. */
  lemma BrokenFails(s: string, plusIsSpace: bool)
    requires s != "" && s[0] == '%' && (|s| < 3 || !IsHexDigit(s[1]) || !IsHexDigit(s[2]))
    ensures Unescape(s, plusIsSpace).None?
  {
    if |s| >= 3 {
      HexIsDigit(s[1]);
      HexIsDigit(s[2]);
    }
  }

  /** Letters, digits and the signs `-`, `.`, `_` and `~` by their codes: they are written as they are. */
  predicate WrittenPlain(c: char) {
    var n := c as int;
    65 <= n <= 90 || 97 <= n <= 122 || 48 <= n <= 57 || n in [45, 46, 95, 126]
  }

  lemma PlainIsUnreserved(c: char)
    requires c as int < 256
    ensures Unreserved(c) <==> WrittenPlain(c)
  {
  }

  /** How query escaping writes each byte: plain, as a plus sign, or with two capital digits. */
  lemma {:induction false} EscapeWrites(byte: char, tail: string)
    requires byte as int < 256
    ensures QueryEscape([byte] + tail)
      == (if WrittenPlain(byte) then [byte]
          else if byte == ' ' then "+"
          else ['%', Digit(byte as nat / 16, false), Digit(byte as nat % 16, false)]) + QueryEscape(tail)
  {
    assert ([byte] + tail)[1..] == tail;
    PlainIsUnreserved(byte);
  }
}
