/**
 * Several rules with one bucket: which requests can ever pass them all.
 */
module LimiterSharing {
  import opened Strings
  import opened TokenBucket
  import opened Limiter
  import opened LimiterCharging
  import opened LimiterTheorems
  import opened LimiterRetry

  /** No rule that can create the bucket fills it with more than `cap` tokens. */
  ghost predicate Capped(own: Owner, key: string, cap: nat) {
    forall rate, burst | own(key, rate, burst) :: burst <= cap
  }

  /** A request with enough tokens has buckets that are not hopeless. */
  lemma EnoughIsLive(config: Config, live: iset<string>, own: Owner, buckets: Buckets, req: Request, now: int, rule: Rule)
    requires Owning(config, live, own) && Covers(config, live) && Good(own, buckets, now)
    requires !config.exempt(req.clientIP, req.path)
    requires Enough(config.rules, buckets, req, now) && rule in config.rules && Matches(rule, req)
    ensures BuildKey(rule, req) in live
  {
    var key := BuildKey(rule, req);
    var i := FirstRule(config.rules, req, key);
    var at :| 0 <= at < |config.rules| && config.rules[at] == rule;
    FirstOrLater(config.rules, req, key);
    assert Level(config.rules, buckets, req, key, now) >= TOKEN;
    if key in buckets {
      AvailLater(buckets[key].bucket, now, now);
    } else {
      assert Asked(config, i, req);
    }
  }

  /** In every state a bucket, or the one a passing request creates, holds at most its cap. */
  lemma LevelCapped(config: Config, live: iset<string>, own: Owner, buckets: Buckets, req: Request, now: int,
                    key: string, cap: nat)
    requires Owning(config, live, own) && Covers(config, live) && Good(own, buckets, now)
    requires !config.exempt(req.clientIP, req.path)
    requires Enough(config.rules, buckets, req, now) && Capped(own, key, cap)
    ensures Level(config.rules, buckets, req, key, now) <= cap * TOKEN
  {
    var i := FirstRule(config.rules, req, key);
    if key in buckets {
      AvailLater(buckets[key].bucket, now, now);
    } else if i < |config.rules| {
      forall k | 0 <= k < i && Matches(config.rules[k], req) ensures BuildKey(config.rules[k], req) in live {
        EnoughIsLive(config, live, own, buckets, req, now, config.rules[k]);
      }
      FirstOwned(config, live, own, req, i);
    }
  }

  lemma NeverPasses(config: Config, live: iset<string>, own: Owner, state: Buckets, req: Request, now: int,
                    key: string, cap: nat)
    requires Owning(config, live, own) && Covers(config, live) && Good(own, state, now) && Capped(own, key, cap)
    requires !config.exempt(req.clientIP, req.path) && Sharing(config.rules, req, key) > cap
    ensures Admit(config, state, req, now).1.Some?
  {
    GoodIsSound(own, state, now);
    PassesIff(config.rules, state, req, now);
    if Enough(config.rules, state, req, now) {
      FirstOrLater(config.rules, req, key);
      LevelCapped(config, live, own, state, req, now, key, cap);
    }
  }

  /**
   * When more of the rules that match a request share a bucket than it ever holds tokens, the request
   * is denied in every state the limiter can reach, whatever the rates.
   */
  lemma SharedBucketNeverPasses(config: Config, before: seq<Event>, begin: int, req: Request, now: int,
                                key: string, cap: nat)
    requires ValidRules(config) && Capped(Creators(config), key, cap) && Ordered(before, begin, now)
    requires !config.exempt(req.clientIP, req.path) && Sharing(config.rules, req, key) > cap
    ensures Admit(config, Run(config, map[], before, true), req, now).1.Some?
  {
    CreatorsOwn(config);
    LiveKeysCover(config);
    RunGood(config, LiveKeys(config), Creators(config), map[], before, true, begin, now);
    NeverPasses(config, LiveKeys(config), Creators(config), Run(config, map[], before, true), req, now, key, cap);
  }

  // ----- the exact condition

  /** After some trace, at some time, the request is admitted. */
  ghost predicate CanPass(config: Config, req: Request) {
    exists before: seq<Event>, begin: int, now: int ::
      Ordered(before, begin, now) && Admit(config, Run(config, map[], before, true), req, now).1 == None
  }

  /** The bucket is asked by no more of the request's rules than the first of them fills it with tokens. */
  predicate HasRoom(rules: seq<Rule>, req: Request, key: string) {
    Sharing(rules, req, key) <= FirstBurst(rules, req, key)
  }

  predicate RoomForAll(rules: seq<Rule>, req: Request) {
    RoomUpTo(rules, req, |rules|)
  }

  predicate RoomUpTo(rules: seq<Rule>, req: Request, n: nat)
    requires n <= |rules|
  {
    forall j | 0 <= j < n && Matches(rules[j], req) :: HasRoom(rules, req, BuildKey(rules[j], req))
  }

  lemma RoomOneMore(rules: seq<Rule>, req: Request, i: nat)
    requires i < |rules| && RoomUpTo(rules, req, i)
    requires Matches(rules[i], req) ==> HasRoom(rules, req, BuildKey(rules[i], req))
    ensures RoomUpTo(rules, req, i + 1)
  {
  }

  /** The first rule whose bucket has no room. */
  lemma {:induction false} Roomless(rules: seq<Rule>, req: Request, from: nat) returns (i: nat)
    requires !RoomForAll(rules, req) && from <= |rules| && RoomUpTo(rules, req, from)
    ensures i < |rules| && Matches(rules[i], req) && !HasRoom(rules, req, BuildKey(rules[i], req))
    ensures RoomUpTo(rules, req, i)
    decreases |rules| - from
  {
    if from < |rules| && Matches(rules[from], req) && !HasRoom(rules, req, BuildKey(rules[from], req)) {
      i := from;
    } else if from < |rules| {
      RoomOneMore(rules, req, from);
      i := Roomless(rules, req, from + 1);
    }
  }

  /** Up to the first bucket without room, the buckets of the request are not hopeless. */
  lemma {:induction false} RoomIsLive(config: Config, live: iset<string>, own: Owner, req: Request, n: nat, j: nat)
    requires Owning(config, live, own) && !config.exempt(req.clientIP, req.path)
    requires n <= |config.rules| && RoomUpTo(config.rules, req, n)
    requires j < n && Matches(config.rules[j], req)
    ensures BuildKey(config.rules[j], req) in live
    decreases j
  {
    var key := BuildKey(config.rules[j], req);
    var first := FirstRule(config.rules, req, key);
    if first < j {
      RoomIsLive(config, live, own, req, n, first);
    } else {
      forall k | 0 <= k < j && Matches(config.rules[k], req) ensures BuildKey(config.rules[k], req) in live {
        RoomIsLive(config, live, own, req, n, k);
      }
      FirstOwned(config, live, own, req, j);
      assert config.rules[j] in config.rules;
      FirstOrLater(config.rules, req, key);
    }
  }

  /** The first rule whose bucket has no room shows that the request never passes. */
  lemma NoRoomNeverPasses(config: Config, live: iset<string>, own: Owner, req: Request, state: Buckets, now: int)
    requires Owning(config, live, own) && Covers(config, live) && Agreed(own) && Good(own, state, now)
    requires !config.exempt(req.clientIP, req.path) && !RoomForAll(config.rules, req)
    ensures Admit(config, state, req, now).1.Some?
  {
    var i := Roomless(config.rules, req, 0);
    var key := BuildKey(config.rules[i], req);
    var first := FirstRule(config.rules, req, key);
    assert first == i;
    forall k | 0 <= k < i && Matches(config.rules[k], req) ensures BuildKey(config.rules[k], req) in live {
      RoomIsLive(config, live, own, req, i, k);
    }
    FirstOwned(config, live, own, req, i);
    RuleIsValid(config, i, req);
    NeverPasses(config, live, own, state, req, now, key, config.rules[i].burst);
  }

  /** With room in every bucket the request passes at the start. */
  lemma FreshPasses(config: Config, req: Request)
    requires ValidRules(config) && !config.exempt(req.clientIP, req.path) && RoomForAll(config.rules, req)
    ensures Admit(config, map[], req, 0).1 == None
  {
    PassesIff(config.rules, map[], req, 0);
    forall rule <- config.rules | Matches(rule, req)
      ensures Level(config.rules, map[], req, BuildKey(rule, req), 0)
        >= Sharing(config.rules, req, BuildKey(rule, req)) * TOKEN
    {
      var at :| 0 <= at < |config.rules| && config.rules[at] == rule;
      assert HasRoom(config.rules, req, BuildKey(config.rules[at], req));
    }
  }

  /**
   * When rules that can create one bucket agree on it, a request can ever pass exactly when no bucket
   * is asked by more of its matching rules than it holds tokens.
   */
  lemma CanPassIff(config: Config, req: Request)
    requires ValidRules(config) && Consistent(config) && !config.exempt(req.clientIP, req.path)
    ensures CanPass(config, req) <==> RoomForAll(config.rules, req)
  {
    var live, own := LiveKeys(config), Creators(config);
    CreatorsOwn(config);
    LiveKeysCover(config);
    if RoomForAll(config.rules, req) {
      FreshPasses(config, req);
      assert Ordered([], 0, 0) && Run(config, map[], [], true) == map[];
    } else {
      forall before: seq<Event>, begin: int, now: int | Ordered(before, begin, now)
        ensures Admit(config, Run(config, map[], before, true), req, now).1.Some?
      {
        RunGood(config, live, own, map[], before, true, begin, now);
        NoRoomNeverPasses(config, live, own, req, Run(config, map[], before, true), now);
      }
    }
  }
}
