/**
 * Which requests share a cache key once `ServeHTTP` has rewritten their URLs: when a key tells its
 * parts, and when requests that the origin is asked for separately share an entry.
 */
module KeySharing {
  import opened Strings
  import opened Http
  import opened CacheKey
  import opened Handler
  import CacheFill
  import CacheFillWitness
  import Escaping
  import Path
  import Policy
  import Query

  /** What `ServeHTTP` makes of a client's request; the origin is asked for its path and query. */
  function Rewrite(req: Request): Request {
    req.(path := Path.Normal(req.path), query := RewrittenQuery(req.query))
  }

  /** The verb and the host hold no bar. */
  predicate BarFree(req: Request) {
    '|' !in req.verb && '|' !in req.host
  }

  predicate IsStable(req: Request) {
    Stable(req.path, req.query)
  }

  // ----- equal keys

  lemma BarFreeParts(req: Request)
    requires BarFree(req)
    ensures '|' !in PartsOf(req).m && '|' !in PartsOf(req).h
  {
    assert forall i | 0 <= i < |req.verb| :: ToUpper(req.verb)[i] == UpperChar(req.verb[i]) != '|';
    assert forall i | 0 <= i < |req.host| :: ToLower(req.host)[i] == LowerChar(req.host[i]) != '|';
  }

  /**
   * Two requests share a key exactly if method, host and the pieces between the bars of path, query
   * and encodings are the same; and, as long as only one of these three holds bars, exactly if all
   * the parts are.
   */
  lemma SameKeyIff(a: Request, b: Request)
    requires BarFree(a) && BarFree(b)
    ensures var (x, y) := (PartsOf(a), PartsOf(b));
      && (KeyOf(a) == KeyOf(b) <==> x.m == y.m && x.h == y.h && Pieces(x.p, x.q, x.ae) == Pieces(y.p, y.q, y.ae))
      && (OneBarred(x, y) ==> (KeyOf(a) == KeyOf(b) <==> x == y))
  {
    BarFreeParts(a);
    BarFreeParts(b);
    KeyFromIff(PartsOf(a), PartsOf(b));
    if OneBarred(PartsOf(a), PartsOf(b)) && KeyOf(a) == KeyOf(b) {
      PiecesTell(PartsOf(a), PartsOf(b));
    }
  }

  // ----- one resource

  /** The decoded pairs are the same in some order; text that does not parse is compared as it is. */
  predicate SameQuery(a: string, b: string) {
    match (Query.ParseQuery(Query.TrimQuestion(a)), Query.ParseQuery(Query.TrimQuestion(b)))
    case (Some(p1), Some(p2)) => multiset(p1) == multiset(p2)
    case (None, None) => Query.TrimQuestion(a) == Query.TrimQuestion(b)
    case _ => false
  }

  lemma QueryCanonical(a: string, b: string)
    requires Query.ParseQuery(Query.TrimQuestion(a)).Some? || !HasPrefix(a, "??")
    requires Query.ParseQuery(Query.TrimQuestion(b)).Some? || !HasPrefix(b, "??")
    ensures Query.Canonical(a) == Query.Canonical(b) <==> SameQuery(a, b)
  {
    match (Query.ParseQuery(Query.TrimQuestion(a)), Query.ParseQuery(Query.TrimQuestion(b))) {
      case (Some(p1), Some(p2)) => Query.CanonicalForm(a, b, p1, p2);
      case (None, None) =>
      case (Some(p1), None) => ParsedIsNotRaw(a, b);
      case (None, Some(p2)) => ParsedIsNotRaw(b, a);
    }
  }

  /** The form of a query that parses parses, so it is not the text of one that does not. */
  lemma ParsedIsNotRaw(a: string, b: string)
    requires Query.ParseQuery(Query.TrimQuestion(a)).Some?
    requires Query.ParseQuery(Query.TrimQuestion(b)).None? && !HasPrefix(b, "??")
    ensures Query.Canonical(a) != Query.Canonical(b)
  {
    Query.CanonicalKeepsMeaning(a, Query.ParseQuery(Query.TrimQuestion(a)).value);
    if HasPrefix(b, "?") {
      assert b == "?" + Query.TrimQuestion(b);
    }
  }

  /** The two requests ask for one thing, up to letter case, detours, order of parameters and encodings. */
  predicate SameResource(a: Request, b: Request) {
    && SameVerb(a.verb, b.verb)
    && ToLower(a.host) == ToLower(b.host)
    && Path.SamePath(a.path, b.path)
    && SameQuery(a.query, b.query)
    && multiset(Encodings(AcceptOf(a))) == multiset(Encodings(AcceptOf(b)))
  }

  lemma StableParts(req: Request)
    requires IsStable(req)
    ensures KeyOf(Rewrite(req)) == KeyOf(req) && PartsOf(Rewrite(req)) == PartsOf(req)
  {
    KeyStable(req.verb, req.host, req.path, req.query, AcceptOf(req));
    Path.IdempotentIff(req.path);
    Query.Idempotent(req.query);
  }

  lemma SamePartsIff(a: Request, b: Request)
    requires IsStable(a) && IsStable(b)
    ensures PartsOf(a) == PartsOf(b) <==> SameResource(a, b)
  {
    KeyMethodIff(a.verb, b.verb);
    Path.CanonicalPath(a.path, b.path);
    QueryCanonical(a.query, b.query);
    AcceptEncodingCanonical(AcceptOf(a), AcceptOf(b));
  }

  /**
   * The key is a canonical form: two stable requests, of whose paths, queries and encodings only one
   * holds bars, share an entry exactly when method, host, path, decoded query pairs and named
   * encodings are the same.
   */
  lemma KeyCanonical(a: Request, b: Request)
    requires BarFree(a) && BarFree(b) && IsStable(a) && IsStable(b)
    requires OneBarred(PartsOf(a), PartsOf(b))
    ensures KeyOf(Rewrite(a)) == KeyOf(Rewrite(b)) <==> SameResource(a, b)
  {
    StableParts(a);
    StableParts(b);
    SameKeyIff(a, b);
    SamePartsIff(a, b);
  }

  // ----- what the origin is asked for

  predicate SameOriginUrl(a: Request, b: Request) {
    Rewrite(a).path == Rewrite(b).path && Rewrite(a).query == Rewrite(b).query
  }

  lemma StableIff(req: Request)
    ensures IsStable(req) <==> PartsOf(Rewrite(req)).p == Rewrite(req).path && PartsOf(Rewrite(req)).q == Rewrite(req).query
  {
    Path.IdempotentIff(req.path);
    Query.Idempotent(req.query);
    Query.ParseEmpty();
  }

  /**
   * A request that shares a key with a stable one makes the origin see the same path and query
   * exactly if it is stable itself. So equal keys of stable requests mean one URL at the origin.
   */
  lemma SameOriginUrlIff(a: Request, b: Request)
    requires BarFree(a) && BarFree(b) && OneBarred(PartsOf(Rewrite(a)), PartsOf(Rewrite(b)))
    requires IsStable(a) && KeyOf(Rewrite(a)) == KeyOf(Rewrite(b))
    ensures SameOriginUrl(a, b) <==> IsStable(b)
  {
    SameKeyIff(Rewrite(a), Rewrite(b));
    StableIff(a);
    StableIff(b);
  }

  // ----- every key is shared

  function EscapeAll(place: seq<string>): seq<string> {
    if place == [] then [] else [Escaping.EscapePercent(place[0])] + EscapeAll(place[1..])
  }

  lemma {:induction false} EscapePlain(s: string)
    requires Path.Plain(s)
    ensures Path.Plain(Escaping.EscapePercent(s))
  {
    Escaping.EscapePercentKeeps(s, '/');
    Escaping.UnescapePercent(s);
    Escaping.PathUnescapeFixed(".");
    Escaping.PathUnescapeFixed("..");
    Escaping.PathUnescapeFixed("");
  }

  lemma {:induction false} EscapeAllPlain(place: seq<string>)
    requires Path.AllPlain(place)
    ensures Path.AllPlain(EscapeAll(place))
  {
    if place != [] {
      EscapePlain(place[0]);
      EscapeAllPlain(place[1..]);
    }
  }

  lemma {:induction false} EscapeJoin(place: seq<string>)
    ensures Escaping.EscapePercent(Join(place, '/')) == Join(EscapeAll(place), '/')
  {
    if |place| == 1 {
      assert EscapeAll(place[1..]) == [];
    } else if |place| > 1 {
      EscapeJoin(place[1..]);
      Escaping.EscapePercentAppend(place[0] + "/", Join(place[1..], '/'));
      Escaping.EscapePercentAppend(place[0], "/");
      EscapeSlash();
      assert EscapeAll(place)[1..] == EscapeAll(place[1..]);
    }
  }

  lemma EscapeSlash()
    ensures Escaping.EscapePercent("/") == "/"
  {
    assert "/"[1..] == "" && "/" + "" == "/";
  }

  /** A dot segment in disguise in front of an escaped spelling. */
  function Detour(dot: string, n: string): string {
    "/" + dot + Escaping.EscapePercent(n)
  }

  predicate IsDot(dot: string) {
    dot == "%2E" || dot == "%2e"
  }

  lemma EscapeSpell(place: seq<string>, trailing: bool)
    requires place != []
    ensures Escaping.EscapePercent(Path.Spell(place, trailing))
      == "/" + Join(EscapeAll(place), '/') + (if trailing then "/" else "")
  {
    var j := Join(place, '/');
    EscapeSlash();
    EscapeJoin(place);
    Escaping.EscapePercentAppend("/", j);
    Escaping.EscapePercentAppend("/" + j, if trailing then "/" else "");
  }

  lemma InFront(dot: string, e: string, tail: string)
    ensures "/" + dot + ("/" + e + tail) == "/" + (dot + "/" + e) + tail
  {
  }

  lemma DetourSpells(dot: string, place: seq<string>, trailing: bool)
    requires IsDot(dot) && Path.AllPlain(place)
    ensures Path.AllPlain([dot] + EscapeAll(place))
    ensures Detour(dot, Path.Spell(place, trailing)) == Path.Spell([dot] + EscapeAll(place), place == [] || trailing)
  {
    EscapeAllPlain(place);
    var all := EscapeAll(place);
    if place == [] {
      EscapeSlash();
      assert [dot] + all == [dot];
    } else {
      EscapeSpell(place, trailing);
      assert ([dot] + all)[1..] == all && all != [];
      InFront(dot, Join(all, '/'), if trailing then "/" else "");
    }
  }

  /** Escaping the signs of a spelling gives a path that `Path` makes into that spelling. */
  lemma EscapedArrives(place: seq<string>, trailing: bool)
    requires Path.AllPlain(place)
    ensures var r := Path.Spell(place, trailing); Path.Normal(Escaping.EscapePercent(r)) == r
  {
    var r := Path.Spell(place, trailing);
    var p := Escaping.EscapePercent(r);
    Escaping.UnescapePercent(r);
    Path.NormalSpells(p);
    Path.PlaceSpell(place, trailing);
    EscapedSlash(r);
  }

  lemma {:induction false} EscapedSlash(s: string)
    ensures Path.EndsWithSlash(Escaping.EscapePercent(s)) <==> Path.EndsWithSlash(s)
  {
    if |s| == 1 {
      assert s[1..] == "";
    } else if |s| > 1 {
      EscapedSlash(s[1..]);
    }
  }

  lemma DotDecodes(dot: string)
    requires IsDot(dot)
    ensures Escaping.PathUnescape("/" + dot) == Some("/.")
  {
    assert ("/" + dot)[1..] == dot && dot[3..] == "";
    if dot == "%2E" {
      assert 16 * Escaping.HexValue('2') + Escaping.HexValue('E') == '.' as nat;
    } else {
      assert 16 * Escaping.HexValue('2') + Escaping.HexValue('e') == '.' as nat;
    }
    assert Escaping.PathUnescape("") == Some("");
    assert Escaping.PathUnescape(dot) == Some(['.'] + "");
    assert ['/'] + (['.'] + "") == "/.";
  }

  /** Behind a dot segment the same place is reached. */
  lemma PlaceBehindDot(rest: string)
    ensures Path.Place("/." + ("/" + rest)) == Path.Place("/" + rest)
  {
    var segments := Split(rest, '/');
    SplitHead(".", '/', rest);
    SplitHead("", '/', "." + ['/'] + rest);
    SplitHead("", '/', rest);
    assert "/." + ("/" + rest) == "" + ['/'] + ("." + ['/'] + rest);
    assert "/" + rest == "" + ['/'] + rest;
    Path.ResolveAppend([""], ["."] + segments, true, []);
    Path.ResolveAppend(["."], segments, true, []);
    Path.ResolveAppend([""], segments, true, []);
    assert [""][1..] == [] && ["."][1..] == [];
  }

  /** Normalising the detour ends where it started from. */
  lemma DetourLeadsBack(dot: string, place: seq<string>, trailing: bool)
    requires IsDot(dot) && Path.AllPlain(place)
    ensures var n := Path.Spell(place, trailing); Path.Normal(Detour(dot, n)) == n
  {
    var n := Path.Spell(place, trailing);
    var r := Detour(dot, n);
    DotDecodes(dot);
    Escaping.UnescapePercent(n);
    Escaping.PathUnescapeAppend("/" + dot, Escaping.EscapePercent(n));
    assert Path.Decoded(r) == "/." + n;
    assert n == "/" + n[1..];
    PlaceBehindDot(n[1..]);
    Path.PlaceSpell(place, trailing);
    Path.NormalSpells(r);
    EscapedSlash(n);
    assert n != "" && Path.EndsWithSlash(r) == Path.EndsWithSlash(Escaping.EscapePercent(n));
  }

  /** The received form of a path, after a second normalisation, spells a place. */
  lemma SecondSpells(p: string) returns (place: seq<string>, trailing: bool)
    ensures Path.AllPlain(place) && Path.Normal(Path.Normal(p)) == Path.Spell(place, trailing)
  {
    var r := Path.Normal(p);
    if p != "" {
      Path.NormalFormIff(p);
    }
    Path.DecodedRooted(r);
    Path.PlacePlain(Path.Decoded(r));
    Path.NormalSpells(r);
    place, trailing := Path.Place(Path.Decoded(r)), Path.EndsWithSlash(r);
  }

  /**
   * For every request there is another one that differs only in its path, shares its key, and makes
   * the origin see a different path: it goes through a dot segment that is escaped twice.
   */
  lemma EveryKeyShared(req: Request) returns (other: Request)
    ensures other == req.(path := other.path)
    ensures KeyOf(Rewrite(other)) == KeyOf(Rewrite(req))
    ensures Rewrite(other).path != Rewrite(req).path
  {
    var place, trailing := SecondSpells(req.path);
    var n := Path.Spell(place, trailing);
    var dot := if Path.Normal(req.path) == Detour("%2E", n) then "%2e" else "%2E";
    assert Detour("%2E", n)[3] != Detour("%2e", n)[3];
    DetourSpells(dot, place, trailing);
    EscapedArrives([dot] + EscapeAll(place), place == [] || trailing);
    DetourLeadsBack(dot, place, trailing);
    other := req.(path := Escaping.EscapePercent(Detour(dot, n)));
  }

  /**
   * So a request can be served with what the origin said about another path: for every request that
   * the policy lets into the cache whatever its path, under any limits and for every storable answer
   * with a non-negative lifetime, there is a run in which that happens.
   */
  lemma OtherPathServed(policy: Policy.Policy, maxEntries: int, maxBytes: int, req: Request, origin: CacheFill.Origin)
    returns (s: CacheFill.State, other: Request)
    requires maxEntries >= 1 && maxBytes >= 0
    requires forall path :: !BypassesCache(policy, Rewrite(req).(path := path))
    requires origin.Reply? && Policy.Storable(policy, origin.status, origin.headers)
    requires Policy.TtlOf(policy, Rewrite(req).path, origin.headers) >= 0
    ensures CacheFill.Reachable(Configured(policy), s) && CacheFillWitness.Within(s, maxEntries, maxBytes)
    ensures 1 in s.procs && s.procs[1].req == Rewrite(other) && Rewrite(other).path != Rewrite(req).path
    ensures s.procs[1].stage.Done? && s.procs[1].stage.response.Hit?
    ensures s.procs[1].stage.response.entry.body == origin.body
  {
    other := EveryKeyShared(req);
    var (first, second) := (Rewrite(req), Rewrite(other));
    assert first == Rewrite(req).(path := first.path) && second == Rewrite(req).(path := second.path);
    s := CacheFillWitness.SharedEntry(Configured(policy), maxEntries, maxBytes, 0, first, second, origin);
  }

  // ----- which parts may hold bars

  /** A client's request in whose key only these parts may hold bars. */
  predicate Allowed(path: bool, query: bool, codings: bool, req: Request) {
    var parts := PartsOf(Rewrite(req));
    && BarFree(req)
    && (path || '|' !in parts.p) && (query || '|' !in parts.q) && (codings || '|' !in parts.ae)
  }

  /** Equal keys of such requests have equal parts. */
  ghost predicate TellsApart(path: bool, query: bool, codings: bool) {
    forall a, b | Allowed(path, query, codings, a) && Allowed(path, query, codings, b) && KeyOf(Rewrite(a)) == KeyOf(Rewrite(b)) ::
      PartsOf(Rewrite(a)) == PartsOf(Rewrite(b))
  }

  predicate FixedPath(path: string) {
    Path.Normal(path) == path
  }

  predicate FixedQuery(query: string) {
    Query.Canonical(query) == query
  }

  predicate FixedCodings(ae: string) {
    AcceptEncoding(ae) == ae
  }

  /** Not changed by either normalisation. */
  predicate Fixed(path: string, query: string, ae: string) {
    FixedPath(path) && FixedQuery(query) && FixedCodings(ae)
  }

  function Asking(verb: string, host: string, path: string, query: string, ae: string): (req: Request)
    ensures AcceptOf(req) == ae
  {
    Request(verb, host, path, query, map["Accept-Encoding" := [ae]])
  }

  lemma FixedParts(verb: string, host: string, path: string, query: string, ae: string)
    requires Fixed(path, query, ae)
    ensures var req := Asking(verb, host, path, query, ae);
      Rewrite(req) == req && PartsOf(req) == Parts(KeyMethod(verb), ToLower(host), path, query, ae)
  {
  }

  lemma PrintMoves(m: string, h: string, x: string, y: string, z: string, w: string)
    ensures Print(m, h, x + "|" + y, z, w) == Print(m, h, x, y + "|" + z, w) == Print(m, h, x, y, z + "|" + w)
  {
    var front := m + "|" + h + "|" + x;
    assert Print(m, h, x + "|" + y, z, w) == front + "|" + y + "|" + z + "|" + w;
    assert Print(m, h, x, y + "|" + z, w) == front + "|" + y + "|" + z + "|" + w;
    assert Print(m, h, x, y, z + "|" + w) == front + "|" + y + "|" + z + "|" + w;
  }

  /** The path takes the front of the query. */
  lemma PathAndQueryCollide(verb: string, host: string, x: string, y: string, z: string, w: string)
    requires Fixed(x + "|" + y, z, w) && Fixed(x, y + "|" + z, w)
    ensures var (a, b) := (Asking(verb, host, x + "|" + y, z, w), Asking(verb, host, x, y + "|" + z, w));
      && Rewrite(a) == a && Rewrite(b) == b && KeyOf(a) == KeyOf(b)
      && PartsOf(a).p != PartsOf(b).p && PartsOf(a).q != PartsOf(b).q
  {
    FixedParts(verb, host, x + "|" + y, z, w);
    FixedParts(verb, host, x, y + "|" + z, w);
    PrintMoves(KeyMethod(verb), ToLower(host), x, y, z, w);
    assert |x + "|" + y| > |x| && |y + "|" + z| > |z|;
  }

  /** The query takes the front of the encodings. */
  lemma QueryAndCodingsCollide(verb: string, host: string, x: string, y: string, z: string, w: string)
    requires Fixed(x, y + "|" + z, w) && Fixed(x, y, z + "|" + w)
    ensures var (a, b) := (Asking(verb, host, x, y + "|" + z, w), Asking(verb, host, x, y, z + "|" + w));
      && Rewrite(a) == a && Rewrite(b) == b && KeyOf(a) == KeyOf(b)
      && PartsOf(a).q != PartsOf(b).q && PartsOf(a).ae != PartsOf(b).ae
  {
    FixedParts(verb, host, x, y + "|" + z, w);
    FixedParts(verb, host, x, y, z + "|" + w);
    PrintMoves(KeyMethod(verb), ToLower(host), x, y, z, w);
    assert |y + "|" + z| > |y| && |z + "|" + w| > |w|;
  }

  /** The path takes the query, and the query the front of the encodings. */
  lemma PathAndCodingsCollide(verb: string, host: string, x: string, y: string, z: string, w: string)
    requires Fixed(x + "|" + y, z, w) && Fixed(x, y, z + "|" + w)
    ensures var (a, b) := (Asking(verb, host, x + "|" + y, z, w), Asking(verb, host, x, y, z + "|" + w));
      && Rewrite(a) == a && Rewrite(b) == b && KeyOf(a) == KeyOf(b)
      && PartsOf(a).p != PartsOf(b).p && PartsOf(a).ae != PartsOf(b).ae
  {
    FixedParts(verb, host, x + "|" + y, z, w);
    FixedParts(verb, host, x, y, z + "|" + w);
    PrintMoves(KeyMethod(verb), ToLower(host), x, y, z, w);
    assert |x + "|" + y| > |x| && |z + "|" + w| > |w|;
  }

  // ----- one collision of each kind

  lemma SomePath(name: string)
    requires Path.Plain(name) && '%' !in name
    ensures Path.Normal("/" + name) == "/" + name
  {
    assert "/" + name == Path.Spell([name], false);
    Path.SpellingFixed([name], false);
  }

  /** A segment that does not decode: a query that is left alone. */
  predicate Raw(q: string) {
    '&' !in q && '=' !in q && !HasPrefix(q, "?") && Escaping.QueryUnescape(q).None?
  }

  lemma {:induction false} RawQuery(q: string)
    requires Raw(q)
    ensures Query.Canonical(q) == q
  {
    SplitHead(q, '&', "");
    Query.CutNothing(q, '=');
  }

  /** A text that does not parse, and one that can go in front of it. */
  lemma SomeRaw() returns (front: string, back: string)
    ensures Raw(back) && Raw(front + "|" + back) && Raw(back + "|" + "")
    ensures '|' !in front + back && '%' !in front && '/' !in front
  {
    front, back := "x", "%";
    assert front + "|" + back == "x|%" && back + "|" + "" == "%|";
    assert "%"[0] != '?' && "x|%"[0] != '?' && "%|"[0] != '?';
    assert "x|%"[1..] == "|%" && "|%"[1..] == "%";
    assert Escaping.QueryUnescape("|%").None?;
  }

  lemma RawQueries() returns (front: string, back: string)
    ensures '|' !in front && '%' !in front && '/' !in front && '|' !in back
    ensures FixedQuery("") && FixedQuery(back) && FixedQuery(front + "|" + back) && FixedQuery(back + "|" + "")
  {
    Query.ParseEmpty();
    front, back := SomeRaw();
    assert forall c <- front :: c in front + back;
    assert forall c <- back :: c in front + back;
    RawQuery(back);
    RawQuery(front + "|" + back);
    RawQuery(back + "|" + "");
  }

  lemma SomeName() returns (name: string)
    ensures IsName(name) && '|' !in name
  {
    name := "br";
    assert ToLower(name) == name;
  }

  /** An encoding, and the same behind a bar. */
  lemma SomeCodings() returns (ae: string)
    ensures FixedCodings(ae) && FixedCodings("|" + ae) && '|' !in ae
  {
    ae := SomeName();
    OneEncoding(ae);
    BarredName(ae);
    OneEncoding("|" + ae);
  }

  lemma SomeSegment() returns (name: string)
    ensures Path.Plain(name) && '%' !in name && '|' !in name
  {
    name := "a";
  }

  lemma LongPlain(name: string, more: string)
    requires Path.Plain(name) && '%' !in name && '%' !in more && '/' !in more
    ensures var long := name + "|" + more; Path.Plain(long) && '%' !in long
  {
    var long := name + "|" + more;
    assert long[|name|] == '|' && |long| > 1 && long[0] == name[0];
  }

  lemma SlashInFront(x: string, y: string)
    ensures "/" + (x + "|" + y) == ("/" + x) + "|" + y
  {
  }

  lemma SomePaths(name: string, more: string)
    requires Path.Plain(name) && '%' !in name && '%' !in more && '/' !in more
    ensures Path.Normal("/" + name) == "/" + name
    ensures Path.Normal(("/" + name) + "|" + more) == ("/" + name) + "|" + more
  {
    SomePath(name);
    LongPlain(name, more);
    SomePath(name + "|" + more);
    SlashInFront(name, more);
  }

  lemma BarInPathAndQuery(codings: bool, verb: string, host: string, x: string, y: string, z: string, w: string)
    requires Fixed(x + "|" + y, z, w) && Fixed(x, y + "|" + z, w)
    requires '|' !in verb && '|' !in host && '|' !in w
    ensures !TellsApart(true, true, codings)
  {
    PathAndQueryCollide(verb, host, x, y, z, w);
    FixedParts(verb, host, x + "|" + y, z, w);
    FixedParts(verb, host, x, y + "|" + z, w);
    Collided(true, true, codings, Asking(verb, host, x + "|" + y, z, w), Asking(verb, host, x, y + "|" + z, w));
  }

  lemma BarInPathAndCodings(query: bool, verb: string, host: string, x: string, y: string, z: string, w: string)
    requires Fixed(x + "|" + y, z, w) && Fixed(x, y, z + "|" + w)
    requires '|' !in verb && '|' !in host && '|' !in y && '|' !in z
    ensures !TellsApart(true, query, true)
  {
    PathAndCodingsCollide(verb, host, x, y, z, w);
    FixedParts(verb, host, x + "|" + y, z, w);
    FixedParts(verb, host, x, y, z + "|" + w);
    Collided(true, query, true, Asking(verb, host, x + "|" + y, z, w), Asking(verb, host, x, y, z + "|" + w));
  }

  lemma BarInQueryAndCodings(path: bool, verb: string, host: string, x: string, y: string, z: string, w: string)
    requires Fixed(x, y + "|" + z, w) && Fixed(x, y, z + "|" + w)
    requires '|' !in verb && '|' !in host && '|' !in x
    ensures !TellsApart(path, true, true)
  {
    QueryAndCodingsCollide(verb, host, x, y, z, w);
    FixedParts(verb, host, x, y + "|" + z, w);
    FixedParts(verb, host, x, y, z + "|" + w);
    Collided(path, true, true, Asking(verb, host, x, y + "|" + z, w), Asking(verb, host, x, y, z + "|" + w));
  }

  lemma SomeBarredPaths(more: string) returns (p: string)
    requires '%' !in more && '/' !in more
    ensures '|' !in p && FixedPath(p) && FixedPath(p + "|" + more) && FixedPath(p + "|" + "")
  {
    var name := SomeSegment();
    p := "/" + name;
    SomePaths(name, more);
    SomePaths(name, "");
  }

  lemma NothingInFront(x: string)
    ensures "" + "|" + x == "|" + x
  {
  }

  /** Enough of both kinds for the three collisions. */
  lemma SomeFixed() returns (p: string, y: string, z: string, w: string)
    ensures '|' !in p && '|' !in z && '|' !in w
    ensures Fixed(p + "|" + y, z, w) && Fixed(p, y + "|" + z, w)
    ensures Fixed(p + "|" + "", "", w) && Fixed(p, "", "" + "|" + w)
    ensures Fixed(p, z + "|" + "", w) && Fixed(p, z, "" + "|" + w)
  {
    y, z := RawQueries();
    w := SomeCodings();
    p := SomeBarredPaths(y);
    NothingInFront(w);
  }

  lemma BarsCollide(path: bool, query: bool, codings: bool)
    requires (path && query) || (path && codings) || (query && codings)
    ensures !TellsApart(path, query, codings)
  {
    var p, y, z, w := SomeFixed();
    if path && query {
      BarInPathAndQuery(codings, "", "", p, y, z, w);
    } else if path {
      BarInPathAndCodings(query, "", "", p, "", "", w);
    } else {
      BarInQueryAndCodings(path, "", "", p, z, "", w);
    }
  }

  lemma Collided(path: bool, query: bool, codings: bool, a: Request, b: Request)
    requires Allowed(path, query, codings, a) && Allowed(path, query, codings, b)
    requires Rewrite(a) == a && Rewrite(b) == b && KeyOf(a) == KeyOf(b) && PartsOf(a) != PartsOf(b)
    ensures !TellsApart(path, query, codings)
  {
    assert !(KeyOf(Rewrite(a)) == KeyOf(Rewrite(b)) ==> PartsOf(Rewrite(a)) == PartsOf(Rewrite(b)));
  }

  lemma AllowedTells(path: bool, query: bool, codings: bool, a: Request, b: Request)
    requires !(path && query) && !(path && codings) && !(query && codings)
    requires Allowed(path, query, codings, a) && Allowed(path, query, codings, b)
    requires KeyOf(Rewrite(a)) == KeyOf(Rewrite(b))
    ensures PartsOf(Rewrite(a)) == PartsOf(Rewrite(b))
  {
    SameKeyIff(Rewrite(a), Rewrite(b));
  }

  /**
   * With bar-free verbs and hosts, keys of rewritten requests tell their parts apart exactly if at
   * most one of path, query and encodings may hold a bar.
   */
  lemma TellsApartIff(path: bool, query: bool, codings: bool)
    ensures TellsApart(path, query, codings) <==> !(path && query) && !(path && codings) && !(query && codings)
  {
    if (path && query) || (path && codings) || (query && codings) {
      BarsCollide(path, query, codings);
    } else {
      forall a, b | Allowed(path, query, codings, a) && Allowed(path, query, codings, b) && KeyOf(Rewrite(a)) == KeyOf(Rewrite(b))
        ensures PartsOf(Rewrite(a)) == PartsOf(Rewrite(b))
      {
        AllowedTells(path, query, codings, a, b);
      }
    }
  }
}
