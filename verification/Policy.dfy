/**
 * `cache.Policy`: which requests may use the cache, which responses may be stored, and for how long.
 */
module Policy {
  import opened Strings
  import opened Http
  import opened Ttl

  /** A cache rule; the compiled regular expression is an arbitrary predicate on paths. */
  datatype Rule = Rule(
    id: string,
    pathExact: string,
    pathPrefix: string,
    pathRegex: Option<string -> bool>,
    methods: seq<string>,
    eligible: bool,
    ttlSeconds: int)

  datatype Policy = Policy(
    rules: seq<Rule>,
    defaultTtlSeconds: int,
    respectOriginCC: bool,
    bypassOnCookie: bool,
    bypassOnAuthorization: bool,
    neverStoreOnSetCookie: bool)

  // ----- matching

  predicate MatchPath(rule: Rule, path: string) {
    if rule.pathExact != "" then path == rule.pathExact
    else if rule.pathPrefix != "" then HasPrefix(path, rule.pathPrefix)
    else rule.pathRegex.Some? && rule.pathRegex.value(path)
  }

  predicate EqualFold(a: string, b: string) {
    ToLower(a) == ToLower(b)
  }

  predicate MatchVerb(rule: Rule, verb: string) {
    rule.methods == [] || exists m <- rule.methods :: EqualFold(m, verb)
  }

  predicate MatchRule(rule: Rule, req: Request) {
    MatchPath(rule, req.path) && MatchVerb(rule, req.verb)
  }

  method MatchRuleMethod(rule: Rule, verb: string) returns (matches: bool)
    ensures matches == MatchVerb(rule, verb)
  {
    if |rule.methods| == 0 {
      return true;
    }
    for i := 0 to |rule.methods|
      invariant forall j | 0 <= j < i :: !EqualFold(rule.methods[j], verb)
    {
      if EqualFold(rule.methods[i], verb) {
        return true;
      }
    }
    return false;
  }

  /** Of path, prefix and regular expression only the first that is set counts; verbs are compared without case. */
  lemma RuleMatchesIff(rule: Rule, req: Request)
    ensures MatchRule(rule, req) <==>
      && (rule.pathExact != "" ==> req.path == rule.pathExact)
      && (rule.pathExact == "" && rule.pathPrefix != "" ==> rule.pathPrefix <= req.path)
      && (rule.pathExact == "" && rule.pathPrefix == "" ==> rule.pathRegex.Some? && rule.pathRegex.value(req.path))
      && (|rule.methods| > 0 ==> exists i | 0 <= i < |rule.methods| :: ToLower(rule.methods[i]) == ToLower(req.verb))
  {
    if i :| 0 <= i < |rule.methods| && ToLower(rule.methods[i]) == ToLower(req.verb) {
      assert rule.methods[i] in rule.methods && EqualFold(rule.methods[i], req.verb);
    }
  }

  // ----- IsRequestCacheable

  /** The first rule that matches the request. */
  function FirstMatch(rules: seq<Rule>, req: Request): (i: nat)
    ensures i <= |rules|
    ensures i < |rules| ==> MatchRule(rules[i], req)
    ensures forall j | 0 <= j < i :: !MatchRule(rules[j], req)
  {
    if rules == [] || MatchRule(rules[0], req) then 0 else 1 + FirstMatch(rules[1..], req)
  }

  predicate Cacheable(policy: Policy, req: Request) {
    && (req.verb == "GET" || req.verb == "HEAD")
    && !(policy.bypassOnAuthorization && HeaderGet(req.headers, "Authorization") != "")
    && !(policy.bypassOnCookie && HeaderGet(req.headers, "Cookie") != "")
    && var i := FirstMatch(policy.rules, req); (i == |policy.rules| || policy.rules[i].eligible)
  }

  /** The request carries a header that the policy does not cache. */
  predicate CarriesSecret(policy: Policy, req: Request) {
    || (policy.bypassOnAuthorization && HeaderGet(req.headers, "Authorization") != "")
    || (policy.bypassOnCookie && HeaderGet(req.headers, "Cookie") != "")
  }

  /** The `i`-th rule is the first that matches the request. */
  ghost predicate MatchesFirst(rules: seq<Rule>, i: nat, req: Request) {
    i < |rules| && MatchRule(rules[i], req) && forall j | 0 <= j < i :: !MatchRule(rules[j], req)
  }

  /**
   * Exactly the GETs and HEADs are cacheable that carry no such header and whose first matching rule,
   * if there is one, lets them.
   */
  lemma CacheableIff(policy: Policy, req: Request)
    ensures Cacheable(policy, req) <==>
      && req.verb in ["GET", "HEAD"] && !CarriesSecret(policy, req)
      && forall i: nat | MatchesFirst(policy.rules, i, req) :: policy.rules[i].eligible
  {
    var first := FirstMatch(policy.rules, req);
    assert forall i: nat | MatchesFirst(policy.rules, i, req) :: i == first;
    if first < |policy.rules| {
      assert MatchesFirst(policy.rules, first, req);
    }
  }

  /** `IsRequestCacheable`: the answer and the reason for a refusal, the first that applies. */
  method IsRequestCacheable(policy: Policy, req: Request) returns (cacheable: bool, reason: string)
    ensures cacheable == Cacheable(policy, req)
    ensures cacheable <==> reason == ""
    ensures req.verb !in ["GET", "HEAD"] <==> reason == "method_not_cacheable"
    ensures req.verb in ["GET", "HEAD"] && CarriesSecret(policy, req) ==>
      reason == if policy.bypassOnAuthorization && HeaderGet(req.headers, "Authorization") != ""
                then "authorization_header" else "cookie_header"
    ensures req.verb in ["GET", "HEAD"] && !CarriesSecret(policy, req) ==>
      forall i: nat | MatchesFirst(policy.rules, i, req) ::
        reason == if policy.rules[i].eligible then "" else "rule_" + policy.rules[i].id
  {
    CacheableIff(policy, req);
    if req.verb != "GET" && req.verb != "HEAD" {
      return false, "method_not_cacheable";
    }
    if policy.bypassOnAuthorization && HeaderGet(req.headers, "Authorization") != "" {
      return false, "authorization_header";
    }
    if policy.bypassOnCookie && HeaderGet(req.headers, "Cookie") != "" {
      return false, "cookie_header";
    }
    for i := 0 to |policy.rules|
      invariant forall j | 0 <= j < i :: !MatchRule(policy.rules[j], req)
    {
      if MatchRule(policy.rules[i], req) {
        if !policy.rules[i].eligible {
          reason := "rule_" + policy.rules[i].id;
          assert reason[0] == 'r';
          return false, reason;
        }
        return true, "";
      }
    }
    return true, "";
  }

  // ----- IsResponseStorable

  predicate Storable(policy: Policy, status: int, headers: Headers) {
    var cc := ToLower(HeaderGet(headers, "Cache-Control"));
    && 200 <= status < 300
    && !Contains(cc, "no-store")
    && !Contains(cc, "private")
    && !Contains(cc, "no-cache")
    && !(policy.neverStoreOnSetCookie && HeaderGet(headers, "Set-Cookie") != "")
  }

  /** The word occurs in the line, in capital or small letters. */
  ghost predicate Mentions(line: string, word: string) {
    exists at: nat :: OccursAt(ToLower(line), word, at)
  }

  /** The words that keep a response out of the cache, in the order in which they are looked for. */
  const FORBIDDEN: seq<string> := ["no-store", "private", "no-cache"]

  /** Exactly the 2xx responses are storable that mention none of the words and set no cookie, if that counts. */
  lemma StorableIff(policy: Policy, status: int, headers: Headers)
    ensures Storable(policy, status, headers) <==>
      && 200 <= status <= 299
      && (forall word <- FORBIDDEN :: !Mentions(HeaderGet(headers, "Cache-Control"), word))
      && (policy.neverStoreOnSetCookie ==> HeaderGet(headers, "Set-Cookie") == "")
  {
    var line := HeaderGet(headers, "Cache-Control");
    forall word: string ensures Contains(ToLower(line), word) <==> Mentions(line, word) {
    }
    assert FORBIDDEN[0] == "no-store" && FORBIDDEN[1] == "private" && FORBIDDEN[2] == "no-cache";
  }

  /** `IsResponseStorable`: the answer and the reason for a refusal, the first that applies. */
  method IsResponseStorable(policy: Policy, status: int, headers: Headers) returns (storable: bool, reason: string)
    ensures storable == Storable(policy, status, headers)
    ensures storable <==> reason == ""
    ensures !(200 <= status <= 299) <==> reason == "non_2xx_status"
    ensures reason == "set_cookie_header" ==> policy.neverStoreOnSetCookie && HeaderGet(headers, "Set-Cookie") != ""
    ensures reason == "cache_control_no_store" ==> Mentions(HeaderGet(headers, "Cache-Control"), "no-store")
    ensures reason == "cache_control_private" ==> Mentions(HeaderGet(headers, "Cache-Control"), "private")
    ensures reason == "cache_control_no_cache" ==> Mentions(HeaderGet(headers, "Cache-Control"), "no-cache")
  {
    if status < 200 || status >= 300 {
      return false, "non_2xx_status";
    }
    var lower := ToLower(HeaderGet(headers, "Cache-Control"));
    if Contains(lower, "no-store") {
      return false, "cache_control_no_store";
    }
    if Contains(lower, "private") {
      return false, "cache_control_private";
    }
    if Contains(lower, "no-cache") {
      return false, "cache_control_no_cache";
    }
    if policy.neverStoreOnSetCookie && HeaderGet(headers, "Set-Cookie") != "" {
      return false, "set_cookie_header";
    }
    return true, "";
  }

  /** The name of a directive in a comma-separated list: up to `=`, without surrounding space. */
  function DirectiveName(part: string): string {
    TrimSpace(Cut(part, '=').0)
  }

  /** Whether the `Cache-Control` line holds the directive, read as a comma-separated list. */
  ghost predicate HasDirective(headers: Headers, name: string) {
    exists part <- Split(ToLower(HeaderGet(headers, "Cache-Control")), ',') :: DirectiveName(part) == name
  }

  lemma {:induction false} SplitPiece(s: string, sep: char, part: string) returns (before: string, after: string)
    requires part in Split(s, sep)
    ensures s == before + part + after
  {
    var rest := if s == "" then [""] else Split(s[1..], sep);
    if s == "" {
      before, after := "", "";
    } else if s[0] == sep {
      if part == "" {
        before, after := "", s;
      } else {
        before, after := SplitPiece(s[1..], sep, part);
        before := [s[0]] + before;
      }
    } else if part == [s[0]] + rest[0] {
      SplitFirst(s[1..], sep);
      before, after := "", s[|part|..];
    } else {
      assert part in rest;
      before, after := SplitPiece(s[1..], sep, part);
      before := [s[0]] + before;
    }
  }

  lemma {:induction false} CutPiece(s: string, sep: char)
    ensures Cut(s, sep).0 <= s
  {
    if s != "" && s[0] != sep {
      CutPiece(s[1..], sep);
    }
  }

  /** The middle of a middle piece is a middle piece. */
  lemma NestPieces(b1: string, b2: string, name: string, a2: string, rest: string, a1: string)
    ensures b1 + ((b2 + name + a2) + rest) + a1 == (b1 + b2) + name + (a2 + rest + a1)
  {
  }

  /** A directive of the list occurs in the line as text. */
  lemma DirectiveOccurs(cc: string, part: string)
    requires part in Split(cc, ',')
    ensures Contains(cc, DirectiveName(part))
  {
    var b1, a1 := SplitPiece(cc, ',', part);
    CutPiece(part, '=');
    var cut, rest := Cut(part, '=').0, part[|Cut(part, '=').0|..];
    assert part == cut + rest;
    var b2, a2 := TrimSpacePiece(cut);
    NestPieces(b1, b2, DirectiveName(part), a2, rest, a1);
    ContainsPiece(b1 + b2, DirectiveName(part), a2 + rest + a1);
  }

  /**
   * A storable response is a 2xx without `no-store`, `private` or `no-cache`, under a proper reading
   * of the directive list: the textual test never lets one through.
   */
  lemma StorableIsSafe(policy: Policy, status: int, headers: Headers)
    requires Storable(policy, status, headers)
    ensures 200 <= status < 300
    ensures forall name <- ["no-store", "private", "no-cache"] :: !HasDirective(headers, name)
  {
    var cc := ToLower(HeaderGet(headers, "Cache-Control"));
    forall part <- Split(cc, ',') ensures Contains(cc, DirectiveName(part)) {
      DirectiveOccurs(cc, part);
    }
  }

  // ----- DetermineTTL

  predicate GivesTtl(rule: Rule, path: string) {
    MatchPath(rule, path) && rule.ttlSeconds > 0
  }

  /** The first rule that matches the path and sets a lifetime. */
  function FirstTtl(rules: seq<Rule>, path: string): (i: nat)
    ensures i <= |rules|
    ensures i < |rules| ==> GivesTtl(rules[i], path)
    ensures forall j | 0 <= j < i :: !GivesTtl(rules[j], path)
  {
    if rules == [] || GivesTtl(rules[0], path) then 0 else 1 + FirstTtl(rules[1..], path)
  }

  function DefaultTtl(policy: Policy): int {
    Duration(policy.defaultTtlSeconds)
  }

  /** The lifetime of a response: rule, then `s-maxage`, then `max-age`, then the default. */
  function TtlOf(policy: Policy, path: string, headers: Headers): int {
    var i := FirstTtl(policy.rules, path);
    var cc := HeaderGet(headers, "Cache-Control");
    if i < |policy.rules| then Duration(policy.rules[i].ttlSeconds)
    else if policy.respectOriginCC && Directive(cc, "s-maxage=") > 0 then Directive(cc, "s-maxage=")
    else if policy.respectOriginCC && Directive(cc, "max-age=") > 0 then Directive(cc, "max-age=")
    else DefaultTtl(policy)
  }

  method DetermineTTL(policy: Policy, path: string, headers: Headers) returns (ttl: int)
    ensures ttl == TtlOf(policy, path, headers)
  {
    for i := 0 to |policy.rules|
      invariant forall j | 0 <= j < i :: !GivesTtl(policy.rules[j], path)
    {
      if MatchPath(policy.rules[i], path) && policy.rules[i].ttlSeconds > 0 {
        return Duration(policy.rules[i].ttlSeconds);
      }
    }
    if policy.respectOriginCC {
      var cc := HeaderGet(headers, "Cache-Control");
      ttl := ParseCCDirective(cc, "s-maxage=");
      if ttl > 0 {
        return ttl;
      }
      ttl := ParseCCDirective(cc, "max-age=");
      if ttl > 0 {
        return ttl;
      }
    }
    return DefaultTtl(policy);
  }

  /** A lifetime set by a rule is exact if and only if it fits a `time.Duration`. */
  lemma RuleLifetimeExact(policy: Policy, path: string, headers: Headers)
    requires FirstTtl(policy.rules, path) < |policy.rules|
    ensures var seconds := policy.rules[FirstTtl(policy.rules, path)].ttlSeconds;
      TtlOf(policy, path, headers) == seconds * SECOND <==> seconds <= MAX_SECONDS
  {
  }

  /** Whether the `time.Duration` of so many seconds is positive: their nanoseconds modulo 2^64 fit an int64. */
  predicate StaysPositive(seconds: int) {
    0 < (seconds * SECOND) % TWO_64 < TWO_63
  }

  lemma DurationSign(seconds: int)
    ensures Duration(seconds) > 0 <==> StaysPositive(seconds)
    ensures Duration(seconds) < 0 <==> TWO_63 <= (seconds * SECOND) % TWO_64
  {
  }

  /** The sign of a lifetime set by a rule, for every number of seconds. */
  lemma RuleLifetimeSign(policy: Policy, path: string, headers: Headers)
    requires FirstTtl(policy.rules, path) < |policy.rules|
    ensures var seconds := policy.rules[FirstTtl(policy.rules, path)].ttlSeconds;
      && (TtlOf(policy, path, headers) > 0 <==> StaysPositive(seconds))
      && (TtlOf(policy, path, headers) < 0 <==> TWO_63 <= (seconds * SECOND) % TWO_64)
  {
    DurationSign(policy.rules[FirstTtl(policy.rules, path)].ttlSeconds);
  }

  lemma NoDirectives()
    ensures Directive("", "s-maxage=") == 0 && Directive("", "max-age=") == 0
  {
    assert ToLower("") == "";
  }

  /** What comes from the origin or from the default: the former is only obeyed when positive. */
  lemma OtherLifetimeSign(policy: Policy, path: string, headers: Headers)
    requires FirstTtl(policy.rules, path) == |policy.rules|
    ensures StaysPositive(policy.defaultTtlSeconds) ==> TtlOf(policy, path, headers) > 0
    ensures TtlOf(policy, path, map[]) > 0 <==> StaysPositive(policy.defaultTtlSeconds)
  {
    DurationSign(policy.defaultTtlSeconds);
    NoDirectives();
  }

  /** Some path gets its lifetime from this rule, or, behind the last one, from no rule. */
  ghost predicate Decides(rules: seq<Rule>, i: nat) {
    exists path :: FirstTtl(rules, path) == i
  }

  /** No response is ever given a lifetime that has passed when it is stored. */
  ghost predicate AlwaysPositive(policy: Policy) {
    forall path, headers :: TtlOf(policy, path, headers) > 0
  }

  /**
   * Lifetimes are always positive exactly if those of the rules that decide some path are, and the
   * default, unless the rules decide every path.
   */
  lemma AlwaysPositiveIff(policy: Policy)
    ensures AlwaysPositive(policy) <==>
      && (forall i | 0 <= i < |policy.rules| && Decides(policy.rules, i) :: StaysPositive(policy.rules[i].ttlSeconds))
      && (Decides(policy.rules, |policy.rules|) ==> StaysPositive(policy.defaultTtlSeconds))
  {
    forall path, headers: Headers
      ensures var i := FirstTtl(policy.rules, path);
        if i < |policy.rules| then TtlOf(policy, path, headers) > 0 <==> StaysPositive(policy.rules[i].ttlSeconds)
        else
          && (StaysPositive(policy.defaultTtlSeconds) ==> TtlOf(policy, path, headers) > 0)
          && (TtlOf(policy, path, map[]) > 0 <==> StaysPositive(policy.defaultTtlSeconds))
    {
      var i := FirstTtl(policy.rules, path);
      assert Decides(policy.rules, i);
      if i < |policy.rules| {
        RuleLifetimeSign(policy, path, headers);
      } else {
        OtherLifetimeSign(policy, path, headers);
      }
    }
    if AlwaysPositive(policy) {
      forall i | 0 <= i <= |policy.rules| && Decides(policy.rules, i)
        ensures StaysPositive(if i < |policy.rules| then policy.rules[i].ttlSeconds else policy.defaultTtlSeconds)
      {
        var path :| FirstTtl(policy.rules, path) == i;
        assert TtlOf(policy, path, map[]) > 0;
      }
    }
  }

  /** From one second above the bound up to 2^64 nanoseconds: such entries have expired when they are stored. */
  lemma HugeRuleLifetimeIsNegative(policy: Policy, path: string, headers: Headers)
    requires FirstTtl(policy.rules, path) < |policy.rules|
    requires MAX_SECONDS < policy.rules[FirstTtl(policy.rules, path)].ttlSeconds <= 2 * MAX_SECONDS + 1
    ensures TtlOf(policy, path, headers) < 0 && !AlwaysPositive(policy)
  {
    RuleLifetimeSign(policy, path, headers);
  }

  /** Lifetimes up to `MAX_SECONDS` are exact, so with them the lifetime is always positive. */
  lemma TtlPositive(policy: Policy)
    requires 0 < policy.defaultTtlSeconds <= MAX_SECONDS
    requires forall rule <- policy.rules :: rule.ttlSeconds <= MAX_SECONDS
    ensures AlwaysPositive(policy)
    ensures forall path, headers | FirstTtl(policy.rules, path) < |policy.rules| ::
      TtlOf(policy, path, headers) == policy.rules[FirstTtl(policy.rules, path)].ttlSeconds * SECOND
  {
    forall i | 0 <= i < |policy.rules| && Decides(policy.rules, i)
      ensures StaysPositive(policy.rules[i].ttlSeconds)
    {
      var path :| FirstTtl(policy.rules, path) == i;
      assert policy.rules[i] in policy.rules && GivesTtl(policy.rules[i], path);
    }
    AlwaysPositiveIff(policy);
    forall path, headers: Headers | FirstTtl(policy.rules, path) < |policy.rules|
      ensures TtlOf(policy, path, headers) == policy.rules[FirstTtl(policy.rules, path)].ttlSeconds * SECOND
    {
      RuleLifetimeExact(policy, path, headers);
    }
  }

  /** The line says nothing about the lifetime: it does not mention the directive, or gives it no seconds. */
  ghost predicate Silent(cc: string, directive: string) {
    !Mentions(cc, directive) || exists rest: string :: Carries(cc, directive, 0, rest)
  }

  lemma SilentIsZero(cc: string, directive: string)
    requires Silent(cc, directive)
    ensures Directive(cc, directive) == 0
  {
    if rest: string :| Carries(cc, directive, 0, rest) {
      DirectiveReads(cc, directive, 0, rest);
    }
  }

  /**
   * With no rule lifetime and `Cache-Control` respected, a lifetime the origin prints is obeyed, that
   * for shared caches first.
   */
  lemma OriginLifetime(policy: Policy, path: string, headers: Headers, n: nat, rest: string)
    requires FirstTtl(policy.rules, path) == |policy.rules| && policy.respectOriginCC
    requires 1 <= n <= MAX_SECONDS
    ensures var cc := HeaderGet(headers, "Cache-Control");
      && (Carries(cc, "s-maxage=", n, rest) ==> TtlOf(policy, path, headers) == n * SECOND)
      && (Carries(cc, "max-age=", n, rest) && Silent(cc, "s-maxage=") ==> TtlOf(policy, path, headers) == n * SECOND)
  {
    var cc := HeaderGet(headers, "Cache-Control");
    if Carries(cc, "s-maxage=", n, rest) {
      DirectiveExact(cc, "s-maxage=", n, rest);
    }
    if Carries(cc, "max-age=", n, rest) && Silent(cc, "s-maxage=") {
      DirectiveExact(cc, "max-age=", n, rest);
      SilentIsZero(cc, "s-maxage=");
    }
  }

  /**
   * With no rule lifetime, a line that is not respected or says nothing leads to the default lifetime,
   * which is exact up to the bound.
   */
  lemma DefaultLifetime(policy: Policy, path: string, headers: Headers)
    requires FirstTtl(policy.rules, path) == |policy.rules|
    requires policy.respectOriginCC ==>
      var cc := HeaderGet(headers, "Cache-Control"); Silent(cc, "s-maxage=") && Silent(cc, "max-age=")
    requires 0 <= policy.defaultTtlSeconds <= MAX_SECONDS
    ensures TtlOf(policy, path, headers) == policy.defaultTtlSeconds * SECOND
  {
    if policy.respectOriginCC {
      SilentIsZero(HeaderGet(headers, "Cache-Control"), "s-maxage=");
      SilentIsZero(HeaderGet(headers, "Cache-Control"), "max-age=");
    }
  }

  // ----- the two scans over the rules

  /** When the rule that decides a request's eligibility sets a lifetime, the response gets that one. */
  predicate Agree(rules: seq<Rule>, req: Request) {
    var i := FirstMatch(rules, req);
    i < |rules| && rules[i].ttlSeconds > 0 ==> FirstTtl(rules, req.path) == i
  }

  ghost predicate AlwaysAgree(rules: seq<Rule>) {
    forall req: Request | req.verb in ["GET", "HEAD"] :: Agree(rules, req)
  }

  /** For one request: no earlier rule for its path, which must exclude its verb, sets a lifetime. */
  lemma AgreeIff(rules: seq<Rule>, req: Request)
    requires var i := FirstMatch(rules, req); i < |rules| && rules[i].ttlSeconds > 0
    ensures Agree(rules, req)
      <==> forall j | 0 <= j < FirstMatch(rules, req) :: MatchPath(rules[j], req.path) ==> rules[j].ttlSeconds <= 0
  {
  }

  /** Some rule before `i` matches both path and verb. */
  predicate Shadowed(rules: seq<Rule>, i: nat, verb: string, path: string)
    requires i <= |rules|
  {
    exists k | 0 <= k < i :: MatchPath(rules[k], path) && MatchVerb(rules[k], verb)
  }

  /**
   * Two rules with lifetimes conflict on a path and verb if both match the path, only the later one
   * takes the verb, and no rule before that one takes both.
   */
  predicate Conflict(rules: seq<Rule>, j: nat, i: nat, verb: string, path: string)
    requires j < i < |rules|
  {
    && rules[j].ttlSeconds > 0 && rules[i].ttlSeconds > 0
    && MatchPath(rules[j], path) && MatchPath(rules[i], path)
    && !MatchVerb(rules[j], verb) && MatchVerb(rules[i], verb)
    && !Shadowed(rules, i, verb, path)
  }

  /** The two scans agree on every GET and HEAD if and only if no two rules conflict. */
  lemma ScansAgreeIff(rules: seq<Rule>)
    ensures AlwaysAgree(rules)
      <==> forall i: nat, j: nat, verb, path | j < i < |rules| && verb in ["GET", "HEAD"] ::
             !Conflict(rules, j, i, verb, path)
  {
    if AlwaysAgree(rules) {
      forall i: nat, j: nat, verb, path | j < i < |rules| && verb in ["GET", "HEAD"]
        ensures !Conflict(rules, j, i, verb, path)
      {
        if Conflict(rules, j, i, verb, path) {
          ConflictShows(rules, j, i, Request(verb, "", path, "", map[]));
        }
      }
    } else {
      var req: Request :| req.verb in ["GET", "HEAD"] && !Agree(rules, req);
      AgreeIff(rules, req);
      var i := FirstMatch(rules, req);
      var j :| 0 <= j < i && MatchPath(rules[j], req.path) && rules[j].ttlSeconds > 0;
      assert !MatchRule(rules[j], req);
      assert Conflict(rules, j, i, req.verb, req.path);
    }
  }

  lemma ConflictShows(rules: seq<Rule>, j: nat, i: nat, req: Request)
    requires j < i < |rules| && Conflict(rules, j, i, req.verb, req.path)
    ensures FirstMatch(rules, req) == i && !Agree(rules, req)
  {
    assert MatchRule(rules[i], req);
    assert GivesTtl(rules[j], req.path);
  }

  /** The rule does not tell GET from HEAD. */
  predicate VerbBlind(rule: Rule) {
    rule.methods == [] || (MatchVerb(rule, "GET") && MatchVerb(rule, "HEAD"))
  }

  /**
   * In particular they agree if no rule tells GET from HEAD: the first rule for the path decides
   * eligibility, and when it sets a lifetime the stored response gets it.
   */
  lemma ScansAgree(policy: Policy, req: Request, headers: Headers)
    requires forall rule <- policy.rules :: VerbBlind(rule)
    requires req.verb == "GET" || req.verb == "HEAD"
    ensures AlwaysAgree(policy.rules)
    ensures var i := FirstMatch(policy.rules, req);
      && (forall j | 0 <= j < i :: !MatchPath(policy.rules[j], req.path))
      && (i < |policy.rules| && policy.rules[i].ttlSeconds > 0 ==>
            TtlOf(policy, req.path, headers) == Duration(policy.rules[i].ttlSeconds))
  {
    forall i: nat, j: nat, verb, path | j < i < |policy.rules| && verb in ["GET", "HEAD"]
      ensures !Conflict(policy.rules, j, i, verb, path)
    {
      assert policy.rules[j] in policy.rules;
    }
    ScansAgreeIff(policy.rules);
    assert Agree(policy.rules, req);
    var i := FirstMatch(policy.rules, req);
    forall j | 0 <= j < i ensures !MatchPath(policy.rules[j], req.path) {
      assert policy.rules[j] in policy.rules;
    }
  }

  /**
   * And they disagree whenever the first of two rules for a path sets a lifetime but leaves out one
   * of the two verbs: that verb is decided by the second rule and its response kept for the lifetime
   * of the first.
   */
  lemma ScansDisagree(first: Rule, second: Rule, policy: Policy, req: Request, headers: Headers)
    requires policy.rules == [first, second] && req.verb in ["GET", "HEAD"]
    requires GivesTtl(first, req.path) && !MatchVerb(first, req.verb)
    requires GivesTtl(second, req.path) && MatchVerb(second, req.verb)
    ensures FirstMatch(policy.rules, req) == 1 && !AlwaysAgree(policy.rules)
    ensures TtlOf(policy, req.path, headers) == Duration(first.ttlSeconds)
  {
    assert Conflict(policy.rules, 0, 1, req.verb, req.path);
    ConflictShows(policy.rules, 0, 1, req);
    ScansAgreeIff(policy.rules);
    assert GivesTtl(policy.rules[0], req.path);
  }
}
