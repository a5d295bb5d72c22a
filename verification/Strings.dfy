/**
 * The string operations the proxy takes from Go's `strings` package, over sequences of bytes.
 *
 * A `char` stands for one byte of a Go string. Characters above 255 cannot occur in the program;
 * the definitions pass them through, so the laws below hold for every Dafny string.
 */
module Strings {

  datatype Option<+T> = None | Some(value: T)

  // ----- splitting and joining

  function Split(s: string, sep: char): (parts: seq<string>)
    ensures |parts| >= 1
  {
    if s == "" then [""]
    else
      var rest := Split(s[1..], sep);
      if s[0] == sep then [""] + rest else [[s[0]] + rest[0]] + rest[1..]
  }

  function Join(parts: seq<string>, sep: char): string {
    if |parts| == 0 then ""
    else if |parts| == 1 then parts[0]
    else parts[0] + [sep] + Join(parts[1..], sep)
  }

  /** Joining the parts of a split gives the string back, and no part holds the separator. */
  lemma {:induction false} JoinSplit(s: string, sep: char)
    ensures Join(Split(s, sep), sep) == s
    ensures forall part <- Split(s, sep) :: sep !in part
  {
    if s != "" {
      JoinSplit(s[1..], sep);
      var rest := Split(s[1..], sep);
      var parts := Split(s, sep);
      if s[0] == sep {
        assert parts[1..] == rest;
      } else {
        assert parts[1..] == rest[1..];
      }
    }
  }

  /** A separator-free head is split off whole. */
  lemma {:induction false} SplitHead(head: string, sep: char, tail: string)
    requires sep !in head
    ensures Split(head, sep) == [head]
    ensures Split(head + [sep] + tail, sep) == [head] + Split(tail, sep)
  {
    var whole := head + [sep] + tail;
    if head == "" {
      assert whole[1..] == tail;
    } else {
      SplitHead(head[1..], sep, tail);
      assert head == [head[0]] + head[1..];
      assert whole[1..] == head[1..] + [sep] + tail;
    }
  }

  lemma GluePieces(head: string, front: seq<string>, back: seq<string>)
    requires front != []
    ensures [""] + (front + back) == ([""] + front) + back
    ensures [head + (front + back)[0]] + (front + back)[1..] == ([head + front[0]] + front[1..]) + back
  {
  }

  /** A separator splits a string into the pieces before it and the pieces behind it. */
  lemma {:induction false} SplitAppend(x: string, sep: char, y: string)
    ensures Split(x + [sep] + y, sep) == Split(x, sep) + Split(y, sep)
  {
    var whole := x + [sep] + y;
    if x == "" {
      assert whole[1..] == y;
    } else {
      SplitAppend(x[1..], sep, y);
      assert whole[0] == x[0] && whole[1..] == x[1..] + [sep] + y;
      GluePieces([x[0]], Split(x[1..], sep), Split(y, sep));
    }
  }

  /** Splitting undoes joining when no part holds the separator. */
  lemma {:induction false} SplitJoin(parts: seq<string>, sep: char)
    requires |parts| >= 1
    requires forall part <- parts :: sep !in part
    ensures Split(Join(parts, sep), sep) == parts
  {
    if |parts| == 1 {
      SplitHead(parts[0], sep, "");
    } else {
      SplitJoin(parts[1..], sep);
      SplitHead(parts[0], sep, Join(parts[1..], sep));
    }
  }

  /** The first part of a split is the longest separator-free prefix. */
  lemma {:induction false} SplitFirst(s: string, sep: char)
    ensures var head := Split(s, sep)[0]; sep !in head && head <= s
    ensures var head := Split(s, sep)[0]; head == s || head + [sep] <= s
  {
    if s != "" && s[0] != sep {
      SplitFirst(s[1..], sep);
      var head := Split(s[1..], sep)[0];
      assert Split(s, sep)[0] == [s[0]] + head;
      assert s == [s[0]] + s[1..];
      if head != s[1..] {
        assert s[1..] == head + [sep] + s[|head| + 2..];
        assert s == [s[0]] + head + [sep] + s[|head| + 2..];
      }
    }
  }

  /** The part of `s` before the first separator, and the part after it (empty when there is none). */
  function Cut(s: string, sep: char): (string, string) {
    if s == "" then ("", "")
    else if s[0] == sep then ("", s[1..])
    else var (before, after) := Cut(s[1..], sep); ([s[0]] + before, after)
  }

  lemma {:induction false} CutAt(before: string, sep: char, after: string)
    requires sep !in before
    ensures Cut(before + [sep] + after, sep) == (before, after)
  {
    var s := before + [sep] + after;
    if before == "" {
      assert s[1..] == after;
    } else {
      CutAt(before[1..], sep, after);
      assert before == [before[0]] + before[1..];
      assert s[1..] == before[1..] + [sep] + after;
    }
  }

  // ----- searching

  predicate HasPrefix(s: string, prefix: string) {
    prefix <= s
  }

  /** Whether `pattern` occurs in `s` at position `at`. */
  predicate OccursAt(s: string, pattern: string, at: nat) {
    at <= |s| && pattern <= s[at..]
  }

  /** The first position at which `pattern` occurs. */
  function IndexOf(s: string, pattern: string): (at: Option<nat>)
    ensures at.Some? ==> OccursAt(s, pattern, at.value)
    ensures forall i: nat | OccursAt(s, pattern, i) :: at.Some? && at.value <= i
  {
    if pattern <= s then
      assert s[0..] == s;
      Some(0)
    else if s == "" then
      None
    else
      assert s[0..] == s;
      var rest := IndexOf(s[1..], pattern);
      assert forall i: nat | 1 <= i <= |s| :: s[i..] == s[1..][i - 1..];
      assert forall i: nat | OccursAt(s, pattern, i) :: i >= 1 && OccursAt(s[1..], pattern, i - 1);
      assert rest.Some? ==> s[1..][rest.value..] == s[rest.value + 1..];
      match rest
      case None => None
      case Some(i) => Some(i + 1)
  }

  predicate Contains(s: string, pattern: string) {
    IndexOf(s, pattern).Some?
  }

  /** Containment is having the pattern as a middle piece. */
  lemma ContainsPiece(before: string, pattern: string, after: string)
    ensures Contains(before + pattern + after, pattern)
  {
    var s := before + pattern + after;
    assert s[|before|..] == pattern + after;
    assert OccursAt(s, pattern, |before|);
  }

  // ----- case and white space (ASCII)

  function LowerChar(c: char): char {
    if 'A' <= c <= 'Z' then c + ('a' - 'A') else c
  }

  function UpperChar(c: char): char {
    if 'a' <= c <= 'z' then c - ('a' - 'A') else c
  }

  function ToLower(s: string): (r: string)
    ensures |r| == |s|
    ensures forall i | 0 <= i < |s| :: r[i] == LowerChar(s[i])
  {
    seq(|s|, i requires 0 <= i < |s| => LowerChar(s[i]))
  }

  function ToUpper(s: string): (r: string)
    ensures |r| == |s|
    ensures forall i | 0 <= i < |s| :: r[i] == UpperChar(s[i])
  {
    seq(|s|, i requires 0 <= i < |s| => UpperChar(s[i]))
  }

  predicate IsSpace(c: char) {
    c == ' ' || '\t' <= c <= '\r'
  }

  function TrimLeft(s: string): string {
    if s != "" && IsSpace(s[0]) then TrimLeft(s[1..]) else s
  }

  function TrimRight(s: string): string {
    if s != "" && IsSpace(s[|s| - 1]) then TrimRight(s[..|s| - 1]) else s
  }

  function TrimSpace(s: string): string {
    TrimRight(TrimLeft(s))
  }

  /** Trimming only cuts at the two ends. */
  lemma {:induction false} TrimLeftPiece(s: string)
    ensures exists before :: s == before + TrimLeft(s)
  {
    if s != "" && IsSpace(s[0]) {
      TrimLeftPiece(s[1..]);
      var before :| s[1..] == before + TrimLeft(s[1..]);
      assert s == ([s[0]] + before) + TrimLeft(s);
    } else {
      assert s == "" + TrimLeft(s);
    }
  }

  lemma {:induction false} TrimRightPiece(s: string)
    ensures exists after :: s == TrimRight(s) + after
  {
    if s != "" && IsSpace(s[|s| - 1]) {
      TrimRightPiece(s[..|s| - 1]);
      var after :| s[..|s| - 1] == TrimRight(s[..|s| - 1]) + after;
      assert s == TrimRight(s) + (after + [s[|s| - 1]]);
    } else {
      assert s == TrimRight(s) + "";
    }
  }

  lemma TrimSpacePiece(s: string) returns (before: string, after: string)
    ensures s == before + TrimSpace(s) + after
  {
    TrimLeftPiece(s);
    before :| s == before + TrimLeft(s);
    TrimRightPiece(TrimLeft(s));
    after :| TrimLeft(s) == TrimSpace(s) + after;
  }

  // ----- the byte order of strings

  predicate LexLeq(a: string, b: string) {
    a == "" || (b != "" && (a[0] < b[0] || (a[0] == b[0] && LexLeq(a[1..], b[1..]))))
  }

  lemma {:induction false} LexTotal(a: string, b: string)
    ensures LexLeq(a, b) || LexLeq(b, a)
    ensures LexLeq(a, b) && LexLeq(b, a) ==> a == b
  {
    if a != "" && b != "" && a[0] == b[0] {
      LexTotal(a[1..], b[1..]);
      assert a == [a[0]] + a[1..] && b == [b[0]] + b[1..];
    }
  }

  lemma {:induction false} LexTransitive(a: string, b: string, c: string)
    requires LexLeq(a, b) && LexLeq(b, c)
    ensures LexLeq(a, c)
  {
    if a != "" && a[0] == b[0] == c[0] {
      LexTransitive(a[1..], b[1..], c[1..]);
    }
  }

  /** The two strings agree up to position `i`, where one of them ends or has the smaller byte. */
  predicate FirstDifference(a: string, b: string, i: nat) {
    && i <= |a| && i <= |b| && a[..i] == b[..i]
    && (i == |a| || (i < |b| && a[i] < b[i]))
  }

  lemma SameStart(a: string, b: string, i: nat)
    requires FirstDifference(a, b, i) && i > 0
    ensures a != "" && b != "" && a[0] == b[0]
  {
    assert a[0] == a[..i][0] && b[0] == b[..i][0];
  }

  ghost predicate NotAfter(a: string, b: string) {
    exists i: nat :: FirstDifference(a, b, i)
  }

  /** The order is that of the first byte in which the strings differ; a string comes after its prefixes. */
  lemma {:induction false} LexByFirstDifference(a: string, b: string)
    ensures LexLeq(a, b) <==> NotAfter(a, b)
  {
    forall i: nat | FirstDifference(a, b, i) && i > 0 ensures a != "" && b != "" && a[0] == b[0] {
      SameStart(a, b, i);
    }
    if a == "" || b == "" || a[0] != b[0] {
      assert a[..0] == b[..0];
      if LexLeq(a, b) {
        assert FirstDifference(a, b, 0);
      }
    } else {
      LexByFirstDifference(a[1..], b[1..]);
      if i: nat :| FirstDifference(a[1..], b[1..], i) {
        var n := i + 1;
        assert a[..n] == [a[0]] + a[1..][..i] && b[..n] == [b[0]] + b[1..][..i];
        assert FirstDifference(a, b, n);
      }
      if i: nat :| FirstDifference(a, b, i) {
        var n := i - 1;
        assert i > 0;
        assert a[1..][..n] == a[..i][1..] && b[1..][..n] == b[..i][1..];
        assert FirstDifference(a[1..], b[1..], n);
      }
    }
  }

  /** The letters of ASCII change case, and no other character. */
  lemma CaseOf(c: char)
    ensures LowerChar(c) as int == c as int + (if 65 <= c as int <= 90 then 32 else 0)
    ensures UpperChar(c) as int == c as int - (if 97 <= c as int <= 122 then 32 else 0)
  {
  }

  /** White space is the blank, tab, line feed, vertical tab, form feed and carriage return. */
  lemma SpaceIs(c: char)
    ensures IsSpace(c) <==> c in [' ', '\t', '\n', 11 as char, 12 as char, '\r']
  {
  }

  predicate AllSpace(s: string) {
    forall c <- s :: IsSpace(c)
  }

  /** Trimming takes away all the white space at both ends, and nothing else. */
  lemma TrimSpaceIs(before: string, middle: string, after: string)
    requires AllSpace(before) && AllSpace(after)
    requires middle != "" ==> !IsSpace(middle[0]) && !IsSpace(middle[|middle| - 1])
    ensures TrimSpace(before + middle + after) == middle
  {
    TrimLeftSkips(before, middle + after);
    assert before + (middle + after) == before + middle + after;
    if middle == "" {
      TrimLeftSkips(after, "");
      assert after + "" == after == middle + after;
    } else {
      TrimRightSkips(middle, after);
    }
  }

  lemma {:induction false} TrimLeftSkips(before: string, rest: string)
    requires AllSpace(before)
    ensures TrimLeft(before + rest) == TrimLeft(rest)
  {
    if before == "" {
      assert before + rest == rest;
    } else {
      assert before[0] in before && forall c <- before[1..] :: c in before;
      assert (before + rest)[1..] == before[1..] + rest;
      TrimLeftSkips(before[1..], rest);
    }
  }

  lemma {:induction false} TrimRightSkips(rest: string, after: string)
    requires AllSpace(after)
    ensures TrimRight(rest + after) == TrimRight(rest)
  {
    if after == "" {
      assert rest + after == rest;
    } else {
      var n := |after| - 1;
      assert after[n] in after && forall c <- after[..n] :: c in after;
      assert (rest + after)[..|rest| + n] == rest + after[..n];
      TrimRightSkips(rest, after[..n]);
    }
  }
}
