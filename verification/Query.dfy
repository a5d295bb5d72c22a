/**
 * `normalize.Query`: the canonical form of a query string.
 */
module Query {
  import opened Strings
  import opened Sorting
  import opened Escaping

  type Pair = (string, string)

  // ----- parsing (url.ParseQuery)

  /** One `&`-separated segment: nothing, a decoded pair, or an error. */
  function ParseSegment(segment: string): Option<seq<Pair>> {
    if ';' in segment then None
    else if segment == "" then Some([])
    else
      var (key, value) := Cut(segment, '=');
      match (QueryUnescape(key), QueryUnescape(value))
      case (Some(k), Some(v)) => Some([(k, v)])
      case _ => None
  }

  function ParseSegments(segments: seq<string>): Option<seq<Pair>> {
    if segments == [] then Some([])
    else
      match (ParseSegment(segments[0]), ParseSegments(segments[1..]))
      case (Some(first), Some(rest)) => Some(first + rest)
      case _ => None
  }

  function ParseQuery(q: string): Option<seq<Pair>> {
    ParseSegments(Split(q, '&'))
  }

  // ----- printing

  function PrintPair(p: Pair): string {
    QueryEscape(p.0) + "=" + QueryEscape(p.1)
  }

  function PrintPairs(pairs: seq<Pair>): (parts: seq<string>)
    ensures |parts| == |pairs|
    ensures forall i | 0 <= i < |pairs| :: parts[i] == PrintPair(pairs[i])
  {
    seq(|pairs|, i requires 0 <= i < |pairs| => PrintPair(pairs[i]))
  }

  function PrintQuery(pairs: seq<Pair>): string {
    Join(PrintPairs(pairs), '&')
  }

  predicate PairLeq(a: Pair, b: Pair) {
    if a.0 == b.0 then LexLeq(a.1, b.1) else LexLeq(a.0, b.0)
  }

  function TrimQuestion(q: string): string {
    if HasPrefix(q, "?") then q[1..] else q
  }

  /** What `normalize.Query` returns: sorted and re-encoded pairs, or the input when it does not parse. */
  function Canonical(q: string): string {
    match ParseQuery(TrimQuestion(q))
    case None => TrimQuestion(q)
    case Some(pairs) => PrintQuery(Sort(pairs, PairLeq))
  }

  // ----- printing and parsing are inverse

  lemma ParsePrintedPair(p: Pair)
    ensures ParseSegment(PrintPair(p)) == Some([p])
    ensures '&' !in PrintPair(p) && '?' !in PrintPair(p) && '|' !in PrintPair(p)
  {
    var (k, v) := (QueryEscape(p.0), QueryEscape(p.1));
    EscapeIsPlain(p.0);
    EscapeIsPlain(p.1);
    UnescapeEscape(p.0);
    UnescapeEscape(p.1);
    assert PrintPair(p) == k + ['='] + v;
    CutAt(k, '=', v);
  }

  lemma {:induction false} ParsePrintedPairs(pairs: seq<Pair>)
    ensures ParseSegments(PrintPairs(pairs)) == Some(pairs)
  {
    if pairs != [] {
      ParsePrintedPair(pairs[0]);
      ParsePrintedPairs(pairs[1..]);
      assert PrintPairs(pairs)[1..] == PrintPairs(pairs[1..]);
      assert pairs == [pairs[0]] + pairs[1..];
    }
  }

  lemma ParseEmpty()
    ensures ParseQuery("") == Some([])
  {
    var none: seq<Pair> := [];
    assert Split("", '&')[1..] == [];
    assert none + none == none;
  }

  /** A printed query parses back to the pairs it was printed from, for every list of pairs. */
  lemma ParsePrint(pairs: seq<Pair>)
    ensures ParseQuery(PrintQuery(pairs)) == Some(pairs)
  {
    if pairs == [] {
      assert PrintQuery(pairs) == "";
      ParseEmpty();
    } else {
      forall part <- PrintPairs(pairs) ensures '&' !in part {
        var i :| 0 <= i < |pairs| && part == PrintPair(pairs[i]);
        ParsePrintedPair(pairs[i]);
      }
      SplitJoin(PrintPairs(pairs), '&');
      ParsePrintedPairs(pairs);
    }
  }

  lemma {:induction false} PrintedIsPlain(pairs: seq<Pair>)
    ensures '?' !in PrintQuery(pairs) && '|' !in PrintQuery(pairs)
  {
    if pairs != [] {
      ParsePrintedPair(pairs[0]);
      PrintedIsPlain(pairs[1..]);
      assert PrintPairs(pairs)[1..] == PrintPairs(pairs[1..]);
    }
  }

  // ----- the canonical-form theorems

  lemma PairOrder()
    ensures TotalOrder(PairLeq)
  {
    LexOrder();
  }

  /**
   * For query strings that parse, the outputs are equal exactly when the inputs denote the same
   * multiset of decoded pairs.
   */
  lemma {:induction false} CanonicalForm(q1: string, q2: string, p1: seq<Pair>, p2: seq<Pair>)
    requires ParseQuery(TrimQuestion(q1)) == Some(p1)
    requires ParseQuery(TrimQuestion(q2)) == Some(p2)
    ensures Canonical(q1) == Canonical(q2) <==> multiset(p1) == multiset(p2)
  {
    PairOrder();
    SortCanonical(p1, p2, PairLeq);
    ParsePrint(Sort(p1, PairLeq));
    ParsePrint(Sort(p2, PairLeq));
  }

  /** The output of a query that parses denotes the pairs of the input. */
  lemma {:induction false} CanonicalKeepsMeaning(q: string, pairs: seq<Pair>)
    requires ParseQuery(TrimQuestion(q)) == Some(pairs)
    ensures ParseQuery(TrimQuestion(Canonical(q))).Some?
    ensures multiset(ParseQuery(TrimQuestion(Canonical(q))).value) == multiset(pairs)
  {
    ParsePrint(Sort(pairs, PairLeq));
    PrintedIsPlain(Sort(pairs, PairLeq));
  }

  /** The output of a query that parses holds no bar. */
  lemma CanonicalFree(q: string)
    requires ParseQuery(TrimQuestion(q)).Some?
    ensures '|' !in Canonical(q)
  {
    PrintedIsPlain(Sort(ParseQuery(TrimQuestion(q)).value, PairLeq));
  }

  /** A single printed pair is its own canonical form. */
  lemma {:induction false} OnePair(pair: Pair)
    ensures ParseQuery(PrintPair(pair)) == ParseQuery(TrimQuestion(PrintPair(pair))) == Some([pair])
    ensures Canonical(PrintPair(pair)) == PrintPair(pair)
  {
    ParsePrintedPair(pair);
    ParsePrint([pair]);
    assert PrintQuery([pair]) == PrintPair(pair);
    assert Sort([pair][1..], PairLeq) == [];
  }

  /**
   * `Query` is idempotent exactly on the inputs that parse or do not start with `??`: each call
   * strips one leading question mark from text it cannot parse.
   */
  lemma {:induction false} Idempotent(q: string)
    ensures Canonical(Canonical(q)) == Canonical(q)
      <==> ParseQuery(TrimQuestion(q)).Some? || !HasPrefix(q, "??")
  {
    var t := TrimQuestion(q);
    match ParseQuery(t) {
      case Some(pairs) =>
        CanonicalKeepsMeaning(q, pairs);
        var again := ParseQuery(TrimQuestion(Canonical(q))).value;
        CanonicalForm(q, Canonical(q), pairs, again);
      case None =>
        ParseEmpty();
        assert HasPrefix(t, "?") == HasPrefix(q, "??") || t == q by {
          if HasPrefix(q, "?") { assert q == "?" + t; }
        }
        if HasPrefix(t, "?") {
          var again := ParseQuery(TrimQuestion(t));
          if again.Some? {
            PrintedIsPlain(Sort(again.value, PairLeq));
          }
        }
    }
  }

  lemma {:induction false} QuestionInFront(segment: string)
    ensures ParseSegment("?" + segment).Some? <==> ParseSegment(segment).Some?
  {
    var longer := "?" + segment;
    assert longer[1..] == segment;
    if segment != "" {
      var (key, value) := Cut(segment, '=');
      assert Cut(longer, '=') == (['?'] + key, value);
      assert (['?'] + key)[1..] == key;
    } else {
      assert Cut("", '=') == ("", "") && Cut(longer, '=') == (['?'] + "", "");
      assert QueryUnescape("?") == Some("?" + "");
    }
  }

  /** A question mark in front of a query does not decide whether it parses. */
  lemma {:induction false} QuestionParses(q: string)
    ensures ParseQuery("?" + q).Some? <==> ParseQuery(q).Some?
  {
    var longer, segments := "?" + q, Split(q, '&');
    assert longer[1..] == q;
    assert Split(longer, '&') == ["?" + segments[0]] + segments[1..];
    QuestionInFront(segments[0]);
    assert (["?" + segments[0]] + segments[1..])[1..] == segments[1..];
  }

  /** A second call never makes a result longer. */
  lemma {:induction false} CanonicalShortens(q: string)
    ensures |Canonical(Canonical(q))| <= |Canonical(q)|
  {
    Idempotent(q);
    var t := TrimQuestion(q);
    if ParseQuery(t).None? && HasPrefix(t, "?") {
      QuestionParses(t[1..]);
      assert t == "?" + t[1..];
    }
  }

  // ----- what a query in any spelling denotes

  lemma {:induction false} SegmentsAppend(a: seq<string>, b: seq<string>)
    ensures ParseSegments(a + b)
      == match (ParseSegments(a), ParseSegments(b))
         case (Some(x), Some(y)) => Some(x + y)
         case _ => None
  {
    if a == [] {
      var none: seq<Pair> := [];
      assert a + b == b;
      assert ParseSegments(b).Some? ==> none + ParseSegments(b).value == ParseSegments(b).value;
    } else {
      assert (a + b)[1..] == a[1..] + b;
      SegmentsAppend(a[1..], b);
      if ParseSegment(a[0]).Some? && ParseSegments(a[1..]).Some? && ParseSegments(b).Some? {
        JoinPairs(ParseSegment(a[0]).value, ParseSegments(a[1..]).value, ParseSegments(b).value);
      }
    }
  }

  lemma JoinPairs(x: seq<Pair>, y: seq<Pair>, z: seq<Pair>)
    ensures x + (y + z) == (x + y) + z
  {
  }

  /** Two stretches joined by `&` denote the pairs of the first followed by those of the second. */
  lemma StretchesDenote(x: string, y: string)
    ensures ParseQuery(x + "&" + y)
      == match (ParseQuery(x), ParseQuery(y))
         case (Some(a), Some(b)) => Some(a + b)
         case _ => None
  {
    SplitAppend(x, '&', y);
    SegmentsAppend(Split(x, '&'), Split(y, '&'));
  }

  lemma OneSegment(segment: string)
    requires '&' !in segment
    ensures ParseQuery(segment) == ParseSegment(segment)
  {
    SplitHead(segment, '&', "");
    var none: seq<Pair> := [];
    assert [segment][1..] == [] && ParseSegments([]) == Some(none);
    if ParseSegment(segment).Some? {
      assert ParseSegment(segment).value + none == ParseSegment(segment).value;
    }
  }

  lemma {:induction false} CutNothing(s: string, sep: char)
    requires sep !in s
    ensures Cut(s, sep) == (s, "")
  {
    if s != "" {
      CutNothing(s[1..], sep);
      assert s == [s[0]] + s[1..];
    }
  }

  /**
   * One stretch: nothing denotes nothing; a text without `=` a name with the empty value; otherwise the
   * first `=` parts name and value. A `;` or an escape that does not decode is an error.
   */
  lemma SegmentDenotes(name: string, value: string)
    requires '&' !in name && '&' !in value && '=' !in name
    ensures ParseQuery("") == Some([])
    ensures name != "" ==>
      ParseQuery(name)
        == if ';' in name || QueryUnescape(name).None? then None else Some([(QueryUnescape(name).value, "")])
    ensures ParseQuery(name + "=" + value)
      == if ';' in name || ';' in value || QueryUnescape(name).None? || QueryUnescape(value).None? then None
         else Some([(QueryUnescape(name).value, QueryUnescape(value).value)])
  {
    ParseEmpty();
    OneSegment(name);
    CutNothing(name, '=');
    var whole := name + "=" + value;
    OneSegment(whole);
    assert whole == name + ['='] + value;
    CutAt(name, '=', value);
    assert ';' in whole <==> ';' in name || ';' in value;
  }

  /** A question mark in front of a query that does not start with one changes nothing. */
  lemma QuestionIgnored(q: string)
    requires !HasPrefix(q, "?")
    ensures Canonical("?" + q) == Canonical(q)
  {
    assert ("?" + q)[1..] == q;
  }

  lemma EscapedHolds(k: string)
    requires k != ""
    ensures var e := QueryEscape(k);
      e != "" && '&' !in e && '=' !in e && ';' !in e && '?' !in e && QueryUnescape(e) == Some(k)
  {
    EscapeIsPlain(k);
    UnescapeEscape(k);
  }

  /** A lone name keeps its name: it is written with an equals sign and no value. */
  lemma LoneName(k: string)
    requires k != ""
    ensures Canonical(QueryEscape(k)) == QueryEscape(k) + "="
  {
    var e := QueryEscape(k);
    EscapedHolds(k);
    SegmentDenotes(e, "");
    var pairs := [(k, "")];
    assert ParseQuery(TrimQuestion(e)) == Some(pairs);
    assert Sort(pairs[1..], PairLeq) == [];
    assert PrintQuery(Sort(pairs, PairLeq)) == PrintPair((k, "")) == e + "=" + "";
    assert e + "=" + "" == e + "=";
  }

  /** The pairs of the output ascend by name and, under one name, by value, byte by byte. */
  lemma CanonicalAscends(q: string, pairs: seq<Pair>)
    requires ParseQuery(TrimQuestion(q)) == Some(pairs)
    ensures ParseQuery(Canonical(q)).Some?
    ensures var out := ParseQuery(Canonical(q)).value;
      forall i, j | 0 <= i < j < |out| ::
        || out[i] == out[j]
        || (out[i].0 == out[j].0 && NotAfter(out[i].1, out[j].1))
        || (out[i].0 != out[j].0 && NotAfter(out[i].0, out[j].0))
  {
    var out := Sort(pairs, PairLeq);
    PairOrder();
    SortSorted(pairs, PairLeq);
    ParsePrint(out);
    forall i, j | 0 <= i < j < |out|
      ensures
        || out[i] == out[j]
        || (out[i].0 == out[j].0 && NotAfter(out[i].1, out[j].1))
        || (out[i].0 != out[j].0 && NotAfter(out[i].0, out[j].0))
    {
      assert PairLeq(out[i], out[j]);
      LexByFirstDifference(out[i].0, out[j].0);
      LexByFirstDifference(out[i].1, out[j].1);
    }
  }

  // ----- the loop form

  /** The map `url.ParseQuery` returns: the values of each key, in order of appearance. */
  function Group(pairs: seq<Pair>): map<string, seq<string>> {
    if pairs == [] then map[]
    else
      var last := pairs[|pairs| - 1];
      var before := Group(pairs[..|pairs| - 1]);
      before[last.0 := Values(before, last.0) + [last.1]]
  }

  function Values(values: map<string, seq<string>>, key: string): seq<string> {
    if key in values then values[key] else []
  }

  /** Grouping keeps every pair with its multiplicity. */
  lemma {:induction false} GroupCount(pairs: seq<Pair>, key: string, value: string)
    ensures multiset(pairs)[(key, value)] == multiset(Values(Group(pairs), key))[value]
  {
    if pairs != [] {
      var n := |pairs| - 1;
      GroupCount(pairs[..n], key, value);
      LastCount(pairs, (key, value));
      if pairs[n].0 == key {
        LastCount(Values(Group(pairs[..n]), key) + [pairs[n].1], value);
      }
    }
  }

  lemma LastCount<T>(s: seq<T>, x: T)
    requires s != []
    ensures multiset(s)[x] == multiset(s[..|s| - 1])[x] + (if s[|s| - 1] == x then 1 else 0)
  {
    assert s == s[..|s| - 1] + [s[|s| - 1]];
  }

  function Tag(key: string, values: seq<string>): (pairs: seq<Pair>)
    ensures |pairs| == |values|
    ensures forall i | 0 <= i < |values| :: pairs[i] == (key, values[i])
  {
    seq(|values|, i requires 0 <= i < |values| => (key, values[i]))
  }

  /** The pairs the nested loops print for the keys `keys`. */
  function Flatten(keys: seq<string>, values: map<string, seq<string>>): seq<Pair> {
    if keys == [] then []
    else
      var n := |keys| - 1;
      Flatten(keys[..n], values) + Tag(keys[n], Sort(Values(values, keys[n]), LexLeq))
  }

  lemma {:induction false} TagCount(key: string, values: seq<string>, k: string, v: string)
    ensures multiset(Tag(key, values))[(k, v)] == if k == key then multiset(values)[v] else 0
  {
    if values != [] {
      var n := |values| - 1;
      TagCount(key, values[..n], k, v);
      assert values == values[..n] + [values[n]];
      assert Tag(key, values) == Tag(key, values[..n]) + [(key, values[n])];
    }
  }

  ghost predicate Distinct<T>(s: seq<T>) {
    forall i, j | 0 <= i < j < |s| :: s[i] != s[j]
  }

  lemma LastKey(keys: seq<string>, k: string)
    requires keys != [] && Distinct(keys)
    ensures var n := |keys| - 1;
      Distinct(keys[..n]) && (k in keys <==> k in keys[..n] || k == keys[n]) && keys[n] !in keys[..n]
  {
    assert keys == keys[..|keys| - 1] + [keys[|keys| - 1]];
  }

  lemma {:induction false} FlattenCount(keys: seq<string>, values: map<string, seq<string>>, k: string, v: string)
    requires Distinct(keys)
    ensures multiset(Flatten(keys, values))[(k, v)] == if k in keys then multiset(Values(values, k))[v] else 0
  {
    if keys != [] {
      var n := |keys| - 1;
      FlattenCount(keys[..n], values, k, v);
      TagCount(keys[n], Sort(Values(values, keys[n]), LexLeq), k, v);
      LastKey(keys, k);
    }
  }

  /** Sorted keys with sorted values come out in pair order. */
  lemma {:induction false} FlattenSorted(keys: seq<string>, values: map<string, seq<string>>)
    requires Sorted(keys, LexLeq) && Distinct(keys)
    ensures Sorted(Flatten(keys, values), PairLeq)
    ensures forall p <- Flatten(keys, values) :: p.0 in keys
  {
    if keys != [] {
      var n := |keys| - 1;
      FlattenSorted(keys[..n], values);
      LexOrder();
      var vals := Sort(Values(values, keys[n]), LexLeq);
      SortSorted(Values(values, keys[n]), LexLeq);
      var front, back := Flatten(keys[..n], values), Tag(keys[n], vals);
      forall p <- front, q <- back ensures PairLeq(p, q) {
        var i :| 0 <= i < n && keys[i] == p.0;
      }
      assert Sorted(back, PairLeq);
    }
  }

  /** Having no duplicates is a property of the multiset of elements. */
  lemma {:induction false} DistinctCount<T(!new)>(s: seq<T>)
    ensures Distinct(s) <==> forall x :: multiset(s)[x] <= 1
  {
    if s != [] {
      var head, tail := s[0], s[1..];
      DistinctCount(tail);
      assert s == [head] + tail;
      assert forall x :: multiset(s)[x] == multiset(tail)[x] + if x == head then 1 else 0;
      assert head in tail <==> multiset(tail)[head] >= 1;
      assert Distinct(s) <==> Distinct(tail) && head !in tail;
    }
  }

  lemma {:induction false} SortKeepsKeys(keys: seq<string>)
    requires Distinct(keys)
    ensures var sorted := Sort(keys, LexLeq); Distinct(sorted) && Sorted(sorted, LexLeq)
    ensures forall k :: k in Sort(keys, LexLeq) <==> k in keys
  {
    LexOrder();
    SortSorted(keys, LexLeq);
    var sorted := Sort(keys, LexLeq);
    DistinctCount(keys);
    DistinctCount(sorted);
    forall k ensures k in sorted <==> k in keys {
      assert k in sorted <==> k in multiset(sorted);
      assert k in keys <==> k in multiset(keys);
    }
  }

  /** The grouped and key-sorted order is the sorted order of the pairs. */
  lemma {:induction false} FlattenIsSort(pairs: seq<Pair>, keys: seq<string>)
    requires Distinct(keys) && Sorted(keys, LexLeq)
    requires forall k :: k in keys <==> k in Group(pairs)
    ensures Flatten(keys, Group(pairs)) == Sort(pairs, PairLeq)
  {
    var flat := Flatten(keys, Group(pairs));
    FlattenSorted(keys, Group(pairs));
    PairOrder();
    SortSorted(pairs, PairLeq);
    forall p: Pair ensures multiset(flat)[p] == multiset(pairs)[p] {
      FlattenCount(keys, Group(pairs), p.0, p.1);
      GroupCount(pairs, p.0, p.1);
    }
    assert multiset(flat) == multiset(pairs);
    SortedUnique(flat, Sort(pairs, PairLeq), PairLeq);
  }

  /** The keys of a map, in whatever order the map gives them. */
  method CollectKeys(values: map<string, seq<string>>) returns (keys: seq<string>)
    ensures Distinct(keys) && forall k :: k in keys <==> k in values
  {
    keys := [];
    var todo := values.Keys;
    while todo != {}
      invariant todo <= values.Keys
      invariant Distinct(keys)
      invariant forall k :: k in keys <==> k in values && k !in todo
    {
      var k :| k in todo;
      keys := keys + [k];
      todo := todo - {k};
    }
  }

  lemma PrintPairsAppend(a: seq<Pair>, b: seq<Pair>)
    ensures PrintPairs(a + b) == PrintPairs(a) + PrintPairs(b)
  {
  }

  /** The inner loop: one printed part per value. */
  method PrintValues(key: string, vals: seq<string>) returns (parts: seq<string>)
    ensures parts == PrintPairs(Tag(key, vals))
  {
    parts := [];
    for j := 0 to |vals|
      invariant |parts| == j
      invariant forall i | 0 <= i < j :: parts[i] == PrintPair((key, vals[i]))
    {
      parts := parts + [QueryEscape(key) + "=" + QueryEscape(vals[j])];
    }
  }

  /** The outer loop: print the sorted values of each key in turn. */
  method PrintGroups(keys: seq<string>, values: map<string, seq<string>>) returns (parts: seq<string>)
    ensures parts == PrintPairs(Flatten(keys, values))
  {
    parts := [];
    for i := 0 to |keys|
      invariant parts == PrintPairs(Flatten(keys[..i], values))
    {
      var vals := Sort(Values(values, keys[i]), LexLeq);
      var more := PrintValues(keys[i], vals);
      PrintPairsAppend(Flatten(keys[..i], values), Tag(keys[i], vals));
      assert keys[..i + 1][..i] == keys[..i];
      parts := parts + more;
    }
    assert keys[..|keys|] == keys;
  }

  /**
   * `normalize.Query` as the program runs it: collect the keys of the parsed map in whatever order
   * the map gives them, sort them, and print the sorted values of each.
   */
  method NormalizeQuery(q: string) returns (r: string)
    ensures r == Canonical(q)
  {
    if q == "" {
      ParseEmpty();
      return "";
    }
    var trimmed := TrimQuestion(q);
    var parsed := ParseQuery(trimmed);
    if parsed.None? {
      return trimmed;
    }
    var values := Group(parsed.value);
    var keys := CollectKeys(values);
    SortKeepsKeys(keys);
    keys := Sort(keys, LexLeq);
    var parts := PrintGroups(keys, values);
    FlattenIsSort(parsed.value, keys);
    r := Join(parts, '&');
  }
}
