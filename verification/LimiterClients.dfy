/**
 * Whose requests share a bucket, and that the limiter treats every client as if it were alone.
 */
module LimiterClients {
  import opened Strings
  import opened TokenBucket
  import opened Limiter
  import opened LimiterTheorems

  // ----- whose requests share a bucket

  /** What a rule counts by; an unknown kind of key is the client's address. */
  datatype Kind = ByAddress | ByAddressAndPath | ByApiKey

  function KindOf(rule: Rule): Kind {
    if rule.key == "api_key" then ByApiKey else if rule.key == "ip_path" then ByAddressAndPath else ByAddress
  }

  /** Requests without an API key count as one client, `anonymous`. */
  function ApiClient(req: Request): string {
    if req.apiKey == "" then "anonymous" else req.apiKey
  }

  /** For this rule the two requests come from one client. */
  predicate SameClient(rule: Rule, q1: Request, q2: Request) {
    match KindOf(rule)
    case ByApiKey => ApiClient(q1) == ApiClient(q2)
    case _ => q1.clientIP == q2.clientIP
  }

  lemma CancelFront(front: string, x: string, y: string)
    ensures front + x == front + y <==> x == y
  {
    if front + x == front + y {
      assert (front + x)[|front|..] == x && (front + y)[|front|..] == y;
    }
  }

  lemma CancelBack(x: string, y: string, back: string)
    ensures x + back == y + back <==> x == y
  {
    if x + back == y + back {
      assert |x| == |y|;
      assert (x + back)[..|x|] == x && (y + back)[..|y|] == y;
    }
  }

  lemma FrontOfKey(rule: Rule, req: Request)
    ensures BuildKey(rule, req) == ("rl:" + rule.id + ":") + KeySuffix(rule, req)
  {
  }

  /** A rule charges two requests to one bucket exactly if they come from one client. */
  lemma SameBucketIff(rule: Rule, q1: Request, q2: Request)
    ensures BuildKey(rule, q1) == BuildKey(rule, q2) <==> SameClient(rule, q1, q2)
  {
    FrontOfKey(rule, q1);
    FrontOfKey(rule, q2);
    CancelFront("rl:" + rule.id + ":", KeySuffix(rule, q1), KeySuffix(rule, q2));
    SameSuffixIff(rule, q1, q2);
  }

  lemma SameSuffixIff(rule: Rule, q1: Request, q2: Request)
    ensures KeySuffix(rule, q1) == KeySuffix(rule, q2) <==> SameClient(rule, q1, q2)
  {
    match KindOf(rule) {
      case ByApiKey =>
        CancelFront("api_key:", ApiClient(q1), ApiClient(q2));
      case ByAddressAndPath =>
        var tail := ":" + rule.pathPrefix;
        PathSuffix(rule, q1);
        PathSuffix(rule, q2);
        CancelFront("ip_path:", q1.clientIP + tail, q2.clientIP + tail);
        CancelBack(q1.clientIP, q2.clientIP, tail);
      case ByAddress =>
        CancelFront("ip:", q1.clientIP, q2.clientIP);
    }
  }

  lemma PathSuffix(rule: Rule, req: Request)
    requires KindOf(rule).ByAddressAndPath?
    ensures KeySuffix(rule, req) == "ip_path:" + (req.clientIP + (":" + rule.pathPrefix))
  {
  }

  /** Rules with one colon-free id share a bucket only if they count by the same thing. */
  lemma SharedBucketsIff(r1: Rule, q1: Request, r2: Rule, q2: Request)
    requires ':' !in r1.id && ':' !in r2.id
    ensures BuildKey(r1, q1) == BuildKey(r2, q2) <==>
      && r1.id == r2.id && KindOf(r1) == KindOf(r2)
      && match KindOf(r1)
         case ByAddress => q1.clientIP == q2.clientIP
         case ByApiKey => ApiClient(q1) == ApiClient(q2)
         case ByAddressAndPath => q1.clientIP + ":" + r1.pathPrefix == q2.clientIP + ":" + r2.pathPrefix
  {
    FrontOfKey(r1, q1);
    FrontOfKey(r2, q2);
    if BuildKey(r1, q1) == BuildKey(r2, q2) {
      KeyTellsId(r1, q1, r2, q2);
    }
    if r1.id == r2.id {
      CancelFront("rl:" + r1.id + ":", KeySuffix(r1, q1), KeySuffix(r2, q2));
      SharedSuffixIff(r1, q1, r2, q2);
    }
  }

  lemma SharedSuffixIff(r1: Rule, q1: Request, r2: Rule, q2: Request)
    ensures KeySuffix(r1, q1) == KeySuffix(r2, q2) <==>
      && KindOf(r1) == KindOf(r2)
      && match KindOf(r1)
         case ByAddress => q1.clientIP == q2.clientIP
         case ByApiKey => ApiClient(q1) == ApiClient(q2)
         case ByAddressAndPath => q1.clientIP + ":" + r1.pathPrefix == q2.clientIP + ":" + r2.pathPrefix
  {
    KindShows(r1, q1);
    KindShows(r2, q2);
    if KindOf(r1) == KindOf(r2) {
      match KindOf(r1) {
        case ByApiKey => CancelFront("api_key:", ApiClient(q1), ApiClient(q2));
        case ByAddressAndPath =>
          PathSuffix(r1, q1);
          PathSuffix(r2, q2);
          assert q1.clientIP + (":" + r1.pathPrefix) == q1.clientIP + ":" + r1.pathPrefix;
          assert q2.clientIP + (":" + r2.pathPrefix) == q2.clientIP + ":" + r2.pathPrefix;
          CancelFront("ip_path:", q1.clientIP + ":" + r1.pathPrefix, q2.clientIP + ":" + r2.pathPrefix);
        case ByAddress => CancelFront("ip:", q1.clientIP, q2.clientIP);
      }
    }
  }

  lemma KindShows(rule: Rule, req: Request)
    ensures var suffix := KeySuffix(rule, req);
      && |suffix| >= 3
      && (suffix[0] == 'a' <==> KindOf(rule).ByApiKey?)
      && (suffix[2] == '_' <==> KindOf(rule).ByAddressAndPath?)
  {
    if KindOf(rule).ByApiKey? {
      assert KeySuffix(rule, req) == "api_key:" + ApiClient(req);
    } else if KindOf(rule).ByAddressAndPath? {
      PathSuffix(rule, req);
    } else {
      assert KeySuffix(rule, req) == "ip:" + req.clientIP;
    }
  }

  // ----- leaving requests out of a trace

  /** The trace without the requests that are not kept. */
  function Only(events: seq<Event>, keep: Request -> bool): seq<Event> {
    if events == [] then []
    else if events[0].Ask? && !keep(events[0].req) then Only(events[1..], keep)
    else [events[0]] + Only(events[1..], keep)
  }

  /** The answers to the events that are kept. */
  function AnswersTo(events: seq<Event>, answers: seq<Option<Rule>>, keep: Request -> bool): seq<Option<Rule>>
    requires |answers| == |events|
  {
    if events == [] then []
    else if events[0].Ask? && !keep(events[0].req) then AnswersTo(events[1..], answers[1..], keep)
    else [answers[0]] + AnswersTo(events[1..], answers[1..], keep)
  }

  /** Requests that are kept and requests that are not use different buckets. */
  ghost predicate Divides(config: Config, keep: Request -> bool, mine: string -> bool) {
    forall i, req: Request | Asked(config, i, req) :: mine(BuildKey(config.rules[i], req)) == keep(req)
  }

  /** The two limiters have the same buckets among these. */
  ghost predicate Agree(f: Buckets, n: Buckets, mine: string -> bool) {
    forall key | mine(key) :: Entry(f, key) == Entry(n, key)
  }

  /** The request uses only buckets of the one side. */
  ghost predicate Uses(rules: seq<Rule>, req: Request, mine: string -> bool, side: bool) {
    forall rule <- rules | Matches(rule, req) :: mine(BuildKey(rule, req)) == side
  }

  lemma DividesUses(config: Config, keep: Request -> bool, mine: string -> bool, req: Request)
    requires Divides(config, keep, mine) && !config.exempt(req.clientIP, req.path)
    ensures Uses(config.rules, req, mine, keep(req))
  {
    forall rule <- config.rules | Matches(rule, req) ensures mine(BuildKey(rule, req)) == keep(req) {
      var i :| 0 <= i < |config.rules| && config.rules[i] == rule;
      assert Asked(config, i, req);
    }
  }

  /** A charge depends on its bucket alone, and changes no other. */
  lemma ChargeAgrees(f: Buckets, n: Buckets, mine: string -> bool, key: string, rule: Rule, now: int)
    requires Agree(f, n, mine) && mine(key)
    ensures Charge(f, key, rule, now).1 == Charge(n, key, rule, now).1
    ensures Agree(Charge(f, key, rule, now).0, Charge(n, key, rule, now).0, mine)
  {
    assert Entry(f, key) == Entry(n, key);
    forall k | mine(k) ensures Entry(Charge(f, key, rule, now).0, k) == Entry(Charge(n, key, rule, now).0, k) {
      assert Entry(f, k) == Entry(n, k);
    }
  }

  lemma {:induction false} AllowAgrees(rules: seq<Rule>, f: Buckets, n: Buckets, mine: string -> bool, req: Request, now: int)
    requires Agree(f, n, mine) && Uses(rules, req, mine, true)
    ensures AllowRules(rules, f, req, now).1 == AllowRules(rules, n, req, now).1
    ensures Agree(AllowRules(rules, f, req, now).0, AllowRules(rules, n, req, now).0, mine)
    decreases |rules|
  {
    if rules != [] {
      assert rules[0] in rules && forall rule <- rules[1..] :: rule in rules;
      if Matches(rules[0], req) {
        var key := BuildKey(rules[0], req);
        ChargeAgrees(f, n, mine, key, rules[0], now);
        AllowAgrees(rules[1..], Charge(f, key, rules[0], now).0, Charge(n, key, rules[0], now).0, mine, req, now);
      } else {
        AllowAgrees(rules[1..], f, n, mine, req, now);
      }
    }
  }

  lemma {:induction false} AllowElsewhere(rules: seq<Rule>, f: Buckets, n: Buckets, mine: string -> bool, req: Request, now: int)
    requires Agree(f, n, mine) && Uses(rules, req, mine, false)
    ensures Agree(AllowRules(rules, f, req, now).0, n, mine)
    decreases |rules|
  {
    if rules != [] {
      assert rules[0] in rules && forall rule <- rules[1..] :: rule in rules;
      var charged := Charge(f, BuildKey(rules[0], req), rules[0], now).0;
      if Matches(rules[0], req) {
        assert Agree(charged, n, mine);
      }
      AllowElsewhere(rules[1..], if Matches(rules[0], req) then charged else f, n, mine, req, now);
    }
  }

  lemma SweepAgrees(f: Buckets, n: Buckets, mine: string -> bool, now: int)
    requires Agree(f, n, mine)
    ensures Agree(Sweep(f, now), Sweep(n, now), mine)
  {
    forall key | mine(key) ensures Entry(Sweep(f, now), key) == Entry(Sweep(n, now), key) {
      assert Entry(f, key) == Entry(n, key);
    }
  }

  /** A request that is kept gets the same answer; one that is not changes nothing of ours. */
  lemma StepAgrees(config: Config, keep: Request -> bool, mine: string -> bool, f: Buckets, n: Buckets, e: Event, forgets: bool)
    requires Divides(config, keep, mine) && Agree(f, n, mine)
    ensures e.Ask? && !keep(e.req) ==> Agree(Step(config, f, e, forgets), n, mine)
    ensures !(e.Ask? && !keep(e.req)) ==>
      Answer(config, f, e) == Answer(config, n, e) && Agree(Step(config, f, e, forgets), Step(config, n, e, forgets), mine)
  {
    if e.Ask? {
      if !config.exempt(e.req.clientIP, e.req.path) {
        DividesUses(config, keep, mine, e.req);
        if keep(e.req) {
          AllowAgrees(config.rules, f, n, mine, e.req, e.at);
        } else {
          AllowElsewhere(config.rules, f, n, mine, e.req, e.at);
        }
      }
    } else {
      SweepAgrees(f, n, mine, e.at);
    }
  }

  lemma {:induction false} OnlyAgrees(config: Config, keep: Request -> bool, mine: string -> bool, f: Buckets, n: Buckets,
                                      events: seq<Event>, forgets: bool)
    requires Divides(config, keep, mine) && Agree(f, n, mine)
    ensures AnswersTo(events, Answers(config, f, events, forgets), keep) == Answers(config, n, Only(events, keep), forgets)
    decreases |events|
  {
    if events != [] {
      var e, answers := events[0], Answers(config, f, events, forgets);
      var f' := Step(config, f, e, forgets);
      StepAgrees(config, keep, mine, f, n, e, forgets);
      assert answers[1..] == Answers(config, f', events[1..], forgets);
      if e.Ask? && !keep(e.req) {
        OnlyAgrees(config, keep, mine, f', n, events[1..], forgets);
      } else {
        OnlyAgrees(config, keep, mine, f', Step(config, n, e, forgets), events[1..], forgets);
        OnlyKeeps(events, keep);
      }
    }
  }

  lemma OnlyKeeps(events: seq<Event>, keep: Request -> bool)
    requires events != [] && !(events[0].Ask? && !keep(events[0].req))
    ensures Only(events, keep) != [] && Only(events, keep)[0] == events[0]
    ensures Only(events, keep)[1..] == Only(events[1..], keep)
  {
  }

  // ----- every client alone

  /** No enabled rule takes a request that is kept and one that is not for one client's. */
  ghost predicate TellsClients(config: Config, keep: Request -> bool) {
    forall rule, q1: Request, q2: Request | rule in config.rules && rule.enabled && SameClient(rule, q1, q2) ::
      keep(q1) == keep(q2)
  }

  /** The buckets of the requests that are kept. */
  ghost function Mine(config: Config, keep: Request -> bool): string -> bool {
    key => MineIs(config, keep, key)
  }

  ghost predicate MineIs(config: Config, keep: Request -> bool, key: string) {
    exists i, req: Request :: Asked(config, i, req) && keep(req) && BuildKey(config.rules[i], req) == key
  }

  lemma MineDivides(config: Config, keep: Request -> bool)
    requires CleanIds(config) && TellsClients(config, keep)
    ensures Divides(config, keep, Mine(config, keep))
  {
    forall i, req: Request | Asked(config, i, req)
      ensures Mine(config, keep)(BuildKey(config.rules[i], req)) == keep(req)
    {
      var key := BuildKey(config.rules[i], req);
      if MineIs(config, keep, key) {
        var j, other: Request :| Asked(config, j, other) && keep(other) && BuildKey(config.rules[j], other) == key;
        CleanIdsTell(config, i, j, req, other);
        SameBucketIff(config.rules[i], req, other);
        assert config.rules[i] in config.rules;
      }
    }
  }

  /**
   * With clean ids, requests of other clients never matter: leaving out all the requests that no rule
   * takes for the same client's changes none of the other answers, clean-ups or not.
   */
  lemma OthersDoNotMatter(config: Config, keep: Request -> bool, events: seq<Event>, forgets: bool)
    requires CleanIds(config) && TellsClients(config, keep)
    ensures AnswersTo(events, Answers(config, map[], events, forgets), keep)
      == Answers(config, map[], Only(events, keep), forgets)
  {
    MineDivides(config, keep);
    OnlyAgrees(config, keep, Mine(config, keep), map[], map[], events, forgets);
  }

  /** Where no enabled rule counts by API keys, every address is answered as if it were alone. */
  lemma AddressesAreAlone(config: Config, clientIP: string, events: seq<Event>, forgets: bool)
    requires CleanIds(config) && forall rule <- config.rules | rule.enabled :: rule.key != "api_key"
    ensures var keep := (req: Request) => req.clientIP == clientIP;
      AnswersTo(events, Answers(config, map[], events, forgets), keep)
        == Answers(config, map[], Only(events, keep), forgets)
  {
    OthersDoNotMatter(config, (req: Request) => req.clientIP == clientIP, events, forgets);
  }

  /** Where every enabled rule does, every API key is, and the requests without one are together. */
  lemma ApiKeysAreAlone(config: Config, client: string, events: seq<Event>, forgets: bool)
    requires CleanIds(config) && forall rule <- config.rules | rule.enabled :: rule.key == "api_key"
    ensures var keep := (req: Request) => (if req.apiKey == "" then "anonymous" else req.apiKey) == client;
      AnswersTo(events, Answers(config, map[], events, forgets), keep)
        == Answers(config, map[], Only(events, keep), forgets)
  {
    OthersDoNotMatter(config, (req: Request) => (if req.apiKey == "" then "anonymous" else req.apiKey) == client, events, forgets);
  }
}
