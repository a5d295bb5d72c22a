/**
 * `ratelimit.Limiter`: lazily created buckets charged by every matching rule, and a clean-up pass
 * that forgets idle buckets. Each call happens at one instant, given as an argument.
 */
module Limiter {
  import opened Strings
  import opened TokenBucket

  /** The clean-up interval: five minutes. */
  const INTERVAL: int := 300 * TOKEN

  datatype Rule = Rule(id: string, key: string, pathPrefix: string, rate: int, burst: int, enabled: bool)

  /** What the limiter reads of a request; `apiKey` is empty when the header is missing. */
  datatype Request = Request(clientIP: string, path: string, apiKey: string)

  /** Exemption by address range or path is an arbitrary predicate. */
  datatype Config = Config(rules: seq<Rule>, exempt: (string, string) -> bool)

  datatype Tracked = Tracked(bucket: Bucket, lastSeen: int)

  type Buckets = map<string, Tracked>

  // ----- rules and keys

  predicate Matches(rule: Rule, req: Request) {
    rule.enabled && (rule.pathPrefix == "" || HasPrefix(req.path, rule.pathPrefix))
  }

  /** What follows the rule's id in a bucket key. */
  function KeySuffix(rule: Rule, req: Request): string {
    if rule.key == "ip_path" then "ip_path:" + req.clientIP + ":" + rule.pathPrefix
    else if rule.key == "api_key" then "api_key:" + (if req.apiKey == "" then "anonymous" else req.apiKey)
    else "ip:" + req.clientIP
  }

  function BuildKey(rule: Rule, req: Request): string {
    "rl:" + rule.id + ":" + KeySuffix(rule, req)
  }

  // ----- charging

  /** `getLimiter` followed by `Allow` on its bucket. */
  function Charge(buckets: Buckets, key: string, rule: Rule, now: int): (Buckets, bool) {
    var bucket := if key in buckets then buckets[key].bucket else Full(rule.rate, rule.burst, now);
    var (after, ok) := Take(bucket, now);
    (buckets[key := Tracked(after, now)], ok)
  }

  /** Charges the matching rules in order up to the first denial; the denying rule, if any. */
  function AllowRules(rules: seq<Rule>, buckets: Buckets, req: Request, now: int): (Buckets, Option<Rule>)
    decreases |rules|
  {
    if rules == [] then (buckets, None)
    else if !Matches(rules[0], req) then AllowRules(rules[1..], buckets, req, now)
    else
      var (charged, ok) := Charge(buckets, BuildKey(rules[0], req), rules[0], now);
      if ok then AllowRules(rules[1..], charged, req, now) else (charged, Some(rules[0]))
  }

  function Admit(config: Config, buckets: Buckets, req: Request, now: int): (Buckets, Option<Rule>) {
    if config.exempt(req.clientIP, req.path) then (buckets, None)
    else AllowRules(config.rules, buckets, req, now)
  }

  // ----- which rules count

  /** The rule is switched on and has no prefix, or one that the path starts with. */
  predicate Applies(rule: Rule, path: string) {
    rule.enabled && rule.pathPrefix <= path
  }

  /** A rule leaves a request alone, whatever the buckets, exactly if it does not apply to its path. */
  lemma AppliesIff(rule: Rule, req: Request)
    ensures (forall buckets, now :: AllowRules([rule], buckets, req, now) == (buckets, None)) <==> !Applies(rule, req.path)
  {
    assert [rule][1..] == [];
    if Applies(rule, req.path) {
      assert BuildKey(rule, req) in AllowRules([rule], map[], req, 0).0;
    }
  }

  /** Rules that do not apply can be left out of the list. */
  lemma {:induction false} OthersIgnored(before: seq<Rule>, rule: Rule, after: seq<Rule>, buckets: Buckets, req: Request, now: int)
    requires !Applies(rule, req.path)
    ensures AllowRules(before + [rule] + after, buckets, req, now) == AllowRules(before + after, buckets, req, now)
    decreases |before|
  {
    if before == [] {
      assert before + [rule] + after == [rule] + after && ([rule] + after)[1..] == after && before + after == after;
    } else {
      assert (before + [rule] + after)[1..] == before[1..] + [rule] + after && (before + after)[1..] == before[1..] + after;
      var charged := Charge(buckets, BuildKey(before[0], req), before[0], now).0;
      OthersIgnored(before[1..], rule, after, if Matches(before[0], req) then charged else buckets, req, now);
    }
  }

  lemma {:induction false} AllowNames(rules: seq<Rule>, buckets: Buckets, req: Request, now: int)
    ensures var (after, denied) := AllowRules(rules, buckets, req, now);
      && (denied.Some? ==> denied.value in rules && Applies(denied.value, req.path))
      && ((forall rule <- rules :: !Applies(rule, req.path)) ==> after == buckets && denied.None?)
    decreases |rules|
  {
    if rules != [] {
      assert rules[0] in rules && forall rule <- rules[1..] :: rule in rules;
      var charged := Charge(buckets, BuildKey(rules[0], req), rules[0], now).0;
      AllowNames(rules[1..], if Matches(rules[0], req) then charged else buckets, req, now);
    }
  }

  lemma AdmitNames(config: Config, buckets: Buckets, req: Request, now: int)
    ensures var (after, denied) := Admit(config, buckets, req, now);
      && (denied.Some? ==> denied.value in config.rules && Applies(denied.value, req.path))
      && ((forall rule <- config.rules :: !Applies(rule, req.path)) ==> after == buckets && denied.None?)
  {
    AllowNames(config.rules, buckets, req, now);
  }

  predicate IsIdle(t: Tracked, now: int) {
    t.lastSeen < now - INTERVAL
  }

  /** One pass of the clean-up. */
  function Sweep(buckets: Buckets, now: int): Buckets {
    map key | key in buckets && !IsIdle(buckets[key], now) :: buckets[key]
  }

  class Limiter {
    const config: Config
    var limiters: Buckets

    constructor (config: Config)
      ensures this.config == config && limiters == map[]
    {
      this.config := config;
      limiters := map[];
    }

    /** Finds or creates the bucket of a key and notes when it was seen. */
    method GetLimiter(key: string, rule: Rule, now: int) returns (bucket: Bucket)
      modifies this
      ensures bucket == if key in old(limiters) then old(limiters)[key].bucket else Full(rule.rate, rule.burst, now)
      ensures limiters == old(limiters)[key := Tracked(bucket, now)]
    {
      if key in limiters {
        limiters := limiters[key := limiters[key].(lastSeen := now)];
        return limiters[key].bucket;
      }
      bucket := Full(rule.rate, rule.burst, now);
      limiters := limiters[key := Tracked(bucket, now)];
    }

    /** Whether any matching rule denies the request, and which. */
    method Allow(req: Request, now: int) returns (allowed: bool, ruleID: string)
      modifies this
      ensures var (after, denied) := Admit(config, old(limiters), req, now);
        && limiters == after
        && allowed == denied.None?
        && ruleID == (if denied.Some? then denied.value.id else "")
      ensures config.exempt(req.clientIP, req.path) ==> allowed && limiters == old(limiters)
      ensures (forall rule <- config.rules :: !Applies(rule, req.path)) ==> allowed && limiters == old(limiters)
      ensures !allowed ==> exists rule <- config.rules :: Applies(rule, req.path) && rule.id == ruleID
    {
      AdmitNames(config, limiters, req, now);
      if config.exempt(req.clientIP, req.path) {
        return true, "";
      }
      for i := 0 to |config.rules|
        invariant AllowRules(config.rules[i..], limiters, req, now)
               == AllowRules(config.rules, old(limiters), req, now)
      {
        var rule := config.rules[i];
        assert config.rules[i..][0] == rule && config.rules[i..][1..] == config.rules[i + 1..];
        if !rule.enabled {
          continue;
        }
        if rule.pathPrefix != "" && !HasPrefix(req.path, rule.pathPrefix) {
          continue;
        }
        var key := BuildKey(rule, req);
        ghost var before := limiters;
        var bucket := GetLimiter(key, rule, now);
        var (after, ok) := Take(bucket, now);
        limiters := limiters[key := limiters[key].(bucket := after)];
        assert limiters == before[key := Tracked(after, now)];
        assert (limiters, ok) == Charge(before, key, rule, now);
        if !ok {
          return false, rule.id;
        }
      }
      return true, "";
    }

    /** One pass of `cleanup`, over the map in whatever order it is iterated. */
    method Cleanup(now: int)
      modifies this
      ensures limiters == Sweep(old(limiters), now)
      ensures forall key :: key in limiters <==>
        key in old(limiters) && old(limiters)[key].lastSeen >= now - 300_000_000_000
      ensures forall key <- limiters :: limiters[key] == old(limiters)[key]
    {
      var threshold := now - INTERVAL;
      var todo := limiters.Keys;
      while todo != {}
        invariant todo <= limiters.Keys <= old(limiters).Keys
        invariant forall key <- old(limiters) ::
          if key in todo || !IsIdle(old(limiters)[key], now)
          then key in limiters && limiters[key] == old(limiters)[key]
          else key !in limiters
      {
        var key :| key in todo;
        todo := todo - {key};
        if limiters[key].lastSeen < threshold {
          limiters := limiters - {key};
        }
      }
    }
  }
}
