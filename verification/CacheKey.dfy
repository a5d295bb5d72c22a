/**
 * Cache keys: how `normalize.CacheKey` prints them, how the backend splits them again, and which
 * keys a path or prefix purge selects.
 */
module CacheKey {
  import opened Strings
  import opened Sorting
  import Path
  import Query

  // ----- normalize.AcceptEncoding

  function EncodingName(part: string): string {
    TrimSpace(Split(part, ';')[0])
  }

  function EncodingNames(parts: seq<string>): seq<string> {
    if parts == [] then []
    else
      var n := |parts| - 1;
      var name := EncodingName(parts[n]);
      EncodingNames(parts[..n]) + if name != "" then [name] else []
  }

  /** The encodings a header names; a missing header names `identity`. */
  function Encodings(ae: string): seq<string> {
    if ae == "" then ["identity"] else EncodingNames(Split(ToLower(ae), ','))
  }

  function AcceptEncoding(ae: string): string {
    Join(Sort(Encodings(ae), LexLeq), ',')
  }

  method NormalizeAcceptEncoding(ae: string) returns (r: string)
    ensures r == AcceptEncoding(ae)
  {
    if ae == "" {
      assert Sort(["identity"][1..], LexLeq) == [];
      return "identity";
    }
    var parts := Split(ToLower(ae), ',');
    var encodings: seq<string> := [];
    for i := 0 to |parts|
      invariant encodings == EncodingNames(parts[..i])
    {
      var enc := TrimSpace(Split(parts[i], ';')[0]);
      if enc != "" {
        encodings := encodings + [enc];
      }
      assert parts[..i + 1][..i] == parts[..i];
    }
    assert parts[..|parts|] == parts;
    encodings := Sort(encodings, LexLeq);
    r := Join(encodings, ',');
  }

  // ----- what a header names

  function NamesIn(ae: string): seq<string> {
    EncodingNames(Split(ToLower(ae), ','))
  }

  function NameOf(part: string): seq<string> {
    if EncodingName(part) != "" then [EncodingName(part)] else []
  }

  lemma NamesLast(parts: seq<string>)
    requires parts != []
    ensures EncodingNames(parts) == EncodingNames(parts[..|parts| - 1]) + NameOf(parts[|parts| - 1])
  {
  }

  lemma {:induction false} NamesAppend(a: seq<string>, b: seq<string>)
    ensures EncodingNames(a + b) == EncodingNames(a) + EncodingNames(b)
  {
    if b == [] {
      assert a + b == a;
    } else {
      var n := |b| - 1;
      NamesAppend(a, b[..n]);
      NamesLast(a + b);
      NamesLast(b);
      assert (a + b)[..|a| + n] == a + b[..n] && (a + b)[|a| + n] == b[n];
      ListAppend(EncodingNames(a), EncodingNames(b[..n]), NameOf(b[n]));
    }
  }

  lemma ListAppend(x: seq<string>, y: seq<string>, z: seq<string>)
    ensures (x + y) + z == x + (y + z)
  {
  }

  lemma LowerAppend(x: string, c: char, y: string)
    ensures ToLower(x + [c] + y) == ToLower(x) + [LowerChar(c)] + ToLower(y)
  {
  }

  /** Two stretches joined by a comma name what the first names followed by what the second names. */
  lemma HeaderLists(x: string, y: string)
    ensures NamesIn(x + "," + y) == NamesIn(x) + NamesIn(y) && Encodings(x + "," + y) == NamesIn(x) + NamesIn(y)
  {
    LowerAppend(x, ',', y);
    SplitAppend(ToLower(x), ',', ToLower(y));
    NamesAppend(Split(ToLower(x), ','), Split(ToLower(y), ','));
  }

  lemma LowerSpace(s: string)
    requires AllSpace(s)
    ensures ToLower(s) == s
  {
    forall i | 0 <= i < |s| ensures ToLower(s)[i] == s[i] {
      assert IsSpace(s[i]);
    }
  }

  lemma LowerPart(before: string, name: string, after: string, parameters: string)
    requires AllSpace(before) && AllSpace(after)
    ensures ToLower(before + name + after + parameters) == before + ToLower(name) + after + ToLower(parameters)
  {
    LowerSpace(before);
    LowerSpace(after);
  }

  /**
   * One stretch names what it holds before the first semicolon, in small letters and without the
   * white space around it; nothing if nothing is left.
   */
  lemma PartNames(before: string, name: string, after: string, parameters: string)
    requires AllSpace(before) && AllSpace(after) && (parameters == "" || parameters[0] == ';')
    requires ',' !in name && ';' !in name && ',' !in parameters
    requires name != "" ==> !IsSpace(name[0]) && !IsSpace(name[|name| - 1])
    ensures NamesIn(before + name + after + parameters) == if name == "" then [] else [ToLower(name)]
  {
    LowerPart(before, name, after, parameters);
    LowerFree(name, ',');
    LowerFree(name, ';');
    LowerFree(parameters, ',');
    assert name != "" ==> IsSpace(ToLower(name)[0]) == IsSpace(name[0]);
    LowerNames(before, ToLower(name), after, ToLower(parameters));
  }

  lemma SpaceFree(s: string, c: char)
    requires AllSpace(s) && !IsSpace(c)
    ensures c !in s
  {
  }

  lemma HeadOf(head: string, parameters: string)
    requires ';' !in head && (parameters == "" || parameters[0] == ';')
    ensures Split(head + parameters, ';')[0] == head
  {
    if parameters == "" {
      SplitHead(head, ';', "");
      assert head + parameters == head;
    } else {
      SplitHead(head, ';', parameters[1..]);
      assert head + parameters == head + [';'] + parameters[1..];
    }
  }

  /** The same of a stretch in small letters. */
  lemma LowerNames(before: string, name: string, after: string, parameters: string)
    requires AllSpace(before) && AllSpace(after) && (parameters == "" || parameters[0] == ';')
    requires ',' !in name && ';' !in name && ',' !in parameters
    requires name != "" ==> !IsSpace(name[0]) && !IsSpace(name[|name| - 1])
    ensures EncodingNames(Split(before + name + after + parameters, ',')) == if name == "" then [] else [name]
  {
    var head := before + name + after;
    SpaceFree(before, ',');
    SpaceFree(before, ';');
    SpaceFree(after, ',');
    SpaceFree(after, ';');
    SplitHead(head + parameters, ',', "");
    HeadOf(head, parameters);
    TrimSpaceIs(before, name, after);
    OnePart(head + parameters);
  }

  lemma OnePart(part: string)
    ensures EncodingNames([part]) == NameOf(part)
  {
    NamesLast([part]);
    assert [part][..0] == [] && EncodingNames([]) + NameOf(part) == NameOf(part);
  }

  lemma LowerFree(s: string, c: char)
    requires c !in s && LowerChar(c) == UpperChar(c) == c
    ensures c !in ToLower(s)
  {
    forall i | 0 <= i < |s| ensures ToLower(s)[i] != c {
      assert s[i] in s;
    }
  }

  /** A request without the header is kept apart under a name of its own. */
  lemma NoHeader()
    ensures AcceptEncoding("") == "identity"
  {
    assert Sort(["identity"][1..], LexLeq) == [];
  }

  /** The names come in the order of their bytes. */
  lemma NamesAscend(ae: string) returns (names: seq<string>)
    ensures AcceptEncoding(ae) == Join(names, ',') && multiset(names) == multiset(Encodings(ae))
    ensures Ascending(names)
  {
    names := Sort(Encodings(ae), LexLeq);
    SortAscends(Encodings(ae));
  }

  lemma NameFree(part: string, c: char)
    requires c !in part
    ensures c !in EncodingName(part)
  {
    SplitFirst(part, ';');
    var head := Split(part, ';')[0];
    var before, after := TrimSpacePiece(head);
    assert forall d <- TrimSpace(head) :: d in before + TrimSpace(head) + after;
  }

  lemma {:induction false} NamesFree(parts: seq<string>)
    requires forall part <- parts :: ',' !in part
    ensures forall name <- EncodingNames(parts) :: ',' !in name && name != ""
  {
    if parts != [] {
      NamesFree(parts[..|parts| - 1]);
      NameFree(parts[|parts| - 1], ',');
    }
  }

  lemma {:induction false} JoinNamesInjective(a: seq<string>, b: seq<string>)
    requires forall name <- a + b :: ',' !in name && name != ""
    requires Join(a, ',') == Join(b, ',')
    ensures a == b
  {
    assert forall name <- a :: name in a + b;
    assert forall name <- b :: name in a + b;
    if a != [] {
      SplitJoin(a, ',');
      assert a[0] in a;
    }
    if b != [] {
      SplitJoin(b, ',');
      assert b[0] in b;
    }
  }

  lemma SortedNames(ae: string)
    ensures forall name <- Sort(Encodings(ae), LexLeq) :: ',' !in name && name != ""
  {
    if ae != "" {
      JoinSplit(ToLower(ae), ',');
      NamesFree(Split(ToLower(ae), ','));
    }
    forall name <- Sort(Encodings(ae), LexLeq) ensures name in Encodings(ae) {
      assert name in multiset(Sort(Encodings(ae), LexLeq));
    }
  }

  /** Two headers normalise alike exactly when they name the same encodings, in any order. */
  lemma AcceptEncodingCanonical(a: string, b: string)
    ensures AcceptEncoding(a) == AcceptEncoding(b) <==> multiset(Encodings(a)) == multiset(Encodings(b))
  {
    LexOrder();
    SortCanonical(Encodings(a), Encodings(b), LexLeq);
    SortedNames(a);
    SortedNames(b);
    if AcceptEncoding(a) == AcceptEncoding(b) {
      JoinNamesInjective(Sort(Encodings(a), LexLeq), Sort(Encodings(b), LexLeq));
    }
  }

  // ----- printing a key

  function KeyMethod(method_: string): string {
    if ToUpper(method_) == "HEAD" then "GET" else ToUpper(method_)
  }

  /** Verbs are told apart without case, and HEAD counts as GET. */
  predicate SameVerb(a: string, b: string) {
    ToUpper(a) == ToUpper(b) || (ToUpper(a) in ["GET", "HEAD"] && ToUpper(b) in ["GET", "HEAD"])
  }

  lemma KeyMethodIff(a: string, b: string)
    ensures KeyMethod(a) == KeyMethod(b) <==> SameVerb(a, b)
  {
  }

  function Print(m: string, h: string, p: string, q: string, ae: string): string {
    m + "|" + h + "|" + p + "|" + q + "|" + ae
  }

  /** The parts of a key. */
  datatype Parts = Parts(m: string, h: string, p: string, q: string, ae: string)

  function KeyFrom(parts: Parts): string {
    Print(parts.m, parts.h, parts.p, parts.q, parts.ae)
  }

  function CacheKey(method_: string, host: string, path: string, query: string, ae: string): string {
    Print(KeyMethod(method_), ToLower(host), Path.Normal(path), Query.Canonical(query), AcceptEncoding(ae))
  }

  /** What `ServeHTTP` leaves in the URL before the key is built. */
  function RewrittenQuery(query: string): string {
    if query != "" then Query.Canonical(query) else query
  }

  /** Whether rewriting the URL again would change nothing. */
  predicate Stable(path: string, query: string) {
    Path.Settled(path) && (Query.ParseQuery(Query.TrimQuestion(query)).Some? || !HasPrefix(query, "??"))
  }

  lemma PrintCancel(m: string, h: string, ae: string, p: string, q: string, p': string, q': string)
    requires |p'| <= |p| && |q'| <= |q|
    ensures Print(m, h, p', q', ae) == Print(m, h, p, q, ae) <==> p' == p && q' == q
  {
    if Print(m, h, p', q', ae) == Print(m, h, p, q, ae) {
      var (key, front) := (Print(m, h, p, q, ae), m + "|" + h + "|");
      var i, j := |front|, |front| + |p| + 1;
      assert |key| == j + |q| + 1 + |ae|;
      assert |p'| == |p| && |q'| == |q|;
      assert key == front + p + "|" + q + "|" + ae == front + p' + "|" + q' + "|" + ae;
      assert key[i..i + |p|] == p && key[j..j + |q|] == q;
      assert key[i..i + |p|] == p' && key[j..j + |q|] == q';
    }
  }

  /**
   * The key built from the rewritten URL is the key of the original request exactly if the path is
   * settled and the query parses or is not `??...`.
   */
  lemma {:induction false} KeyStable(method_: string, host: string, path: string, query: string, ae: string)
    ensures CacheKey(method_, host, Path.Normal(path), RewrittenQuery(query), ae) == CacheKey(method_, host, path, query, ae)
      <==> Stable(path, query)
  {
    Path.IdempotentIff(path);
    Path.NormalShortens(path);
    Query.Idempotent(query);
    Query.CanonicalShortens(query);
    Query.ParseEmpty();
    PrintCancel(KeyMethod(method_), ToLower(host), AcceptEncoding(ae),
      Path.Normal(path), Query.Canonical(query), Path.Normal(Path.Normal(path)), Query.Canonical(RewrittenQuery(query)));
  }

  /** A lower-case name without separators or space around it. */
  predicate IsName(name: string) {
    && name != "" && ToLower(name) == name && ',' !in name && ';' !in name
    && !IsSpace(name[0]) && !IsSpace(name[|name| - 1])
  }

  /** Such a name is its own normal form. */
  lemma {:induction false} OneEncoding(name: string)
    requires IsName(name)
    ensures Encodings(name) == [name] && AcceptEncoding(name) == name
  {
    SplitHead(name, ',', "");
    SplitHead(name, ';', "");
    assert EncodingName(name) == name;
    assert [name][..0] == [] && EncodingNames([]) == [];
    assert EncodingNames([name]) == [] + [name] == [name];
    assert [name][1..] == [] && Sort<string>([], LexLeq) == [];
    assert Sort([name], LexLeq) == Insert(name, [], LexLeq) == [name];
  }

  /** A bar does not spoil it. */
  lemma BarredName(name: string)
    requires IsName(name)
    ensures IsName("|" + name)
  {
    var barred := "|" + name;
    forall i | 0 <= i < |barred| ensures ToLower(barred)[i] == barred[i] {
      assert i > 0 ==> ToLower(name)[i - 1] == name[i - 1] == barred[i];
    }
    assert barred[|barred| - 1] == name[|name| - 1];
  }

  // ----- splitting a key

  /** What the scan has done: cut off `parts`, and seen no bar since `start`. */
  ghost predicate Scanned(key: string, parts: seq<string>, start: int, i: int) {
    && 0 <= start <= i <= |key|
    && '|' !in key[start..i]
    && Split(key, '|') == parts + Split(key[start..], '|')
  }

  lemma ScanBar(key: string, parts: seq<string>, start: int, i: int)
    requires Scanned(key, parts, start, i) && i < |key| && key[i] == '|'
    ensures Scanned(key, parts + [key[start..i]], i + 1, i + 1)
  {
    SplitHead(key[start..i], '|', key[i + 1..]);
    assert key[start..] == key[start..i] + ['|'] + key[i + 1..];
    var rest := Split(key[i + 1..], '|');
    assert parts + ([key[start..i]] + rest) == parts + [key[start..i]] + rest;
  }

  lemma ScanOther(key: string, parts: seq<string>, start: int, i: int)
    requires Scanned(key, parts, start, i) && i < |key| && key[i] != '|'
    ensures Scanned(key, parts, start, i + 1)
  {
    assert key[start..i + 1] == key[start..i] + [key[i]];
  }

  lemma ScanEnd(key: string, parts: seq<string>, start: int)
    requires Scanned(key, parts, start, |key|)
    ensures Split(key, '|') == parts + [key[start..]]
  {
    assert key[start..|key|] == key[start..];
    SplitHead(key[start..], '|', "");
  }

  /** `splitCacheKey`, a scan over a local slice. */
  method SplitCacheKey(key: string) returns (parts: seq<string>)
    ensures parts == Split(key, '|')
    ensures Join(parts, '|') == key
  {
    parts := [];
    var start := 0;
    var i := 0;
    assert key[0..] == key;
    while i < |key|
      invariant Scanned(key, parts, start, i)
    {
      if key[i] == '|' {
        ScanBar(key, parts, start, i);
        parts := parts + [key[start..i]];
        start := i + 1;
      } else {
        ScanOther(key, parts, start, i);
      }
      i := i + 1;
    }
    ScanEnd(key, parts, start);
    JoinSplit(key, '|');
    parts := parts + [key[start..]];
  }

  /** `containsPrefix`: the third part of the key starts with `prefix`. */
  predicate MatchesPrefix(key: string, prefix: string) {
    var parts := Split(key, '|');
    |parts| >= 3 && HasPrefix(parts[2], prefix)
  }

  /** The test of `DeleteByPath`: the third part of the key is `path`. */
  predicate MatchesPath(key: string, path: string) {
    var parts := Split(key, '|');
    |parts| >= 3 && parts[2] == path
  }

  lemma {:induction false} SplitFirstAppend(p: string, rest: string)
    ensures Split(p + "|" + rest, '|')[0] == Split(p, '|')[0]
  {
    var whole := p + "|" + rest;
    if p == "" {
      assert whole[0] == '|';
    } else {
      SplitFirstAppend(p[1..], rest);
      assert whole[1..] == p[1..] + "|" + rest;
    }
  }

  /** The pieces between the bars, behind method and host. */
  function Pieces(p: string, q: string, ae: string): seq<string> {
    Split(p, '|') + Split(q, '|') + Split(ae, '|')
  }

  lemma PrintPieces(m: string, h: string, p: string, q: string, ae: string)
    requires '|' !in m && '|' !in h
    ensures Split(Print(m, h, p, q, ae), '|') == [m] + ([h] + Pieces(p, q, ae))
  {
    var front := p + ['|'] + q;
    var tail := front + ['|'] + ae;
    assert Print(m, h, p, q, ae) == m + ['|'] + (h + ['|'] + tail);
    SplitHead(m, '|', h + ['|'] + tail);
    SplitHead(h, '|', tail);
    SplitAppend(front, '|', ae);
    SplitAppend(p, '|', q);
  }

  lemma TwoAndRest(a: seq<string>, b: seq<string>, m: string, h: string, m': string, h': string)
    requires [m] + ([h] + a) == [m'] + ([h'] + b)
    ensures m == m' && h == h' && a == b
  {
    var whole := [m] + ([h] + a);
    assert whole[0] == m && whole[1] == h && whole[2..] == a;
    assert whole[0] == m' && whole[1] == h' && whole[2..] == b;
  }

  /** With bar-free methods and hosts, keys are equal exactly if these and the pieces are. */
  lemma KeyFromIff(x: Parts, y: Parts)
    requires Barless(x.m, y.m) && Barless(x.h, y.h)
    ensures KeyFrom(x) == KeyFrom(y)
      <==> x.m == y.m && x.h == y.h && Pieces(x.p, x.q, x.ae) == Pieces(y.p, y.q, y.ae)
  {
    PrintPieces(x.m, x.h, x.p, x.q, x.ae);
    PrintPieces(y.m, y.h, y.p, y.q, y.ae);
    if KeyFrom(x) == KeyFrom(y) {
      TwoAndRest(Pieces(x.p, x.q, x.ae), Pieces(y.p, y.q, y.ae), x.m, x.h, y.m, y.h);
    }
    JoinSplit(KeyFrom(x), '|');
    JoinSplit(KeyFrom(y), '|');
  }

  /** Neither string holds a bar. */
  predicate Barless(a: string, b: string) {
    '|' !in a && '|' !in b
  }

  lemma BarlessSplit(a: string, b: string)
    requires Barless(a, b)
    ensures Split(a, '|') == [a] && Split(b, '|') == [b]
  {
    SplitHead(a, '|', "");
    SplitHead(b, '|', "");
  }

  /** At most one of path, query and encodings may hold a bar, the same in both. */
  predicate OneBarred(x: Parts, y: Parts) {
    || (Barless(x.p, y.p) && Barless(x.q, y.q))
    || (Barless(x.p, y.p) && Barless(x.ae, y.ae))
    || (Barless(x.q, y.q) && Barless(x.ae, y.ae))
  }

  /** Then the pieces tell the parts. */
  lemma PiecesTell(x: Parts, y: Parts)
    requires OneBarred(x, y) && Pieces(x.p, x.q, x.ae) == Pieces(y.p, y.q, y.ae)
    ensures x.p == y.p && x.q == y.q && x.ae == y.ae
  {
    if Barless(x.p, y.p) { BarlessSplit(x.p, y.p); }
    if Barless(x.q, y.q) { BarlessSplit(x.q, y.q); }
    if Barless(x.ae, y.ae) { BarlessSplit(x.ae, y.ae); }
    ThreeSame(Split(x.p, '|'), Split(x.q, '|'), Split(x.ae, '|'), Split(y.p, '|'), Split(y.q, '|'), Split(y.ae, '|'));
    SplitTells(x.p, y.p);
    SplitTells(x.q, y.q);
    SplitTells(x.ae, y.ae);
  }

  lemma SplitTells(a: string, b: string)
    requires Split(a, '|') == Split(b, '|')
    ensures a == b
  {
    JoinSplit(a, '|');
    JoinSplit(b, '|');
  }

  lemma ThreeSame(a: seq<string>, b: seq<string>, c: seq<string>, a': seq<string>, b': seq<string>, c': seq<string>)
    requires a + b + c == a' + b' + c'
    requires (|a| == |a'| && |b| == |b'|) || (|a| == |a'| && |c| == |c'|) || (|b| == |b'| && |c| == |c'|)
    ensures a == a' && b == b' && c == c'
  {
    var whole, n, m := a + b + c, |a|, |a| + |b|;
    assert |a'| == n && |b'| == |b| && |c'| == |c|;
    assert whole[..n] == a && whole[n..m] == b && whole[m..] == c;
    assert whole[..n] == a' && whole[n..m] == b' && whole[m..] == c';
  }

  /** The third part of a printed key is the path up to its first bar. */
  lemma PathPart(m: string, h: string, p: string, q: string, ae: string)
    requires '|' !in m && '|' !in h
    ensures var parts := Split(Print(m, h, p, q, ae), '|');
      |parts| >= 3 && parts[0] == m && parts[2] == Split(p, '|')[0]
  {
    var rest := p + "|" + (q + "|" + ae);
    assert Print(m, h, p, q, ae) == m + ['|'] + (h + ['|'] + rest);
    SplitHead(m, '|', h + ['|'] + rest);
    SplitHead(h, '|', rest);
    SplitFirstAppend(p, q + "|" + ae);
  }

  lemma PrefixBeforeBar(p: string, head: string, prefix: string)
    requires head <= p && (head == p || head + "|" <= p)
    requires '|' !in prefix && prefix <= p
    ensures prefix <= head
  {
    if head != p {
      assert p[|head|] == (head + "|")[|head|];
      assert forall i | 0 <= i < |prefix| :: prefix[i] == p[i];
    }
  }

  /**
   * With bar-free method and host, a bar-free prefix selects exactly the paths that start with it, and
   * a prefix that holds a bar selects nothing.
   */
  lemma PrefixExact(m: string, h: string, p: string, q: string, ae: string, prefix: string)
    requires '|' !in m && '|' !in h
    ensures MatchesPrefix(Print(m, h, p, q, ae), prefix) <==> '|' !in prefix && HasPrefix(p, prefix)
  {
    PathPart(m, h, p, q, ae);
    SplitFirst(p, '|');
    if '|' !in prefix && HasPrefix(p, prefix) {
      PrefixBeforeBar(p, Split(p, '|')[0], prefix);
    }
    if HasPrefix(Split(p, '|')[0], prefix) {
      assert forall i | 0 <= i < |prefix| :: prefix[i] == Split(p, '|')[0][i];
    }
  }

  /**
   * A path purge selects the entries whose path is the given one, and also those whose path
   * continues it with a bar; a path that holds a bar selects nothing.
   */
  lemma PathExact(m: string, h: string, p: string, q: string, ae: string, path: string)
    requires '|' !in m && '|' !in h
    ensures MatchesPath(Print(m, h, p, q, ae), path)
      <==> '|' !in path && (p == path || HasPrefix(p, path + "|"))
  {
    PathPart(m, h, p, q, ae);
    SplitFirst(p, '|');
    var head := Split(p, '|')[0];
    if '|' !in path && p == path {
      SplitHead(p, '|', "");
    } else if '|' !in path && HasPrefix(p, path + "|") {
      assert p == path + ['|'] + p[|path| + 1..];
      SplitHead(path, '|', p[|path| + 1..]);
    }
  }

  lemma KeyMethodGet(method_: string)
    requires method_ == "GET" || method_ == "HEAD"
    ensures KeyMethod(method_) == "GET"
  {
    assert ToUpper("GET") == "GET" && ToUpper("HEAD") == "HEAD";
  }

  lemma PrintStart(m: string, h: string, p: string, q: string, ae: string)
    ensures m + "|" <= Print(m, h, p, q, ae)
  {
  }

  /** Keys of GET and HEAD requests start with `GET|`, so no path is ever a key of the handler. */
  lemma {:induction false} HandlerKey(method_: string, host: string, path: string, query: string, ae: string)
    requires method_ == "GET" || method_ == "HEAD"
    ensures "GET|" <= CacheKey(method_, host, path, query, ae)
  {
    KeyMethodGet(method_);
    PrintStart(KeyMethod(method_), ToLower(host), Path.Normal(path), Query.Canonical(query), AcceptEncoding(ae));
  }
}
