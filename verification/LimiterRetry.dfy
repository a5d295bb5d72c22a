/**
 * `Retry-After: 1` is honest: after a quiet second a request passes, if it can pass at all.
 */
module LimiterRetry {
  import opened Strings
  import opened TokenBucket
  import opened Limiter
  import opened LimiterCharging
  import opened LimiterTheorems

  // ----- quiet stretches

  /** The event takes nothing from the bucket `key`. */
  ghost predicate Untouched(config: Config, e: Event, key: string) {
    e.Ask? && !config.exempt(e.req.clientIP, e.req.path) ==>
      forall rule <- config.rules | Matches(rule, e.req) :: BuildKey(rule, e.req) != key
  }

  /** No event touches a bucket that `req` would charge. */
  ghost predicate Quiet(config: Config, events: seq<Event>, req: Request) {
    forall rule <- config.rules | Matches(rule, req) :: QuietFor(config, events, BuildKey(rule, req))
  }

  ghost predicate QuietFor(config: Config, events: seq<Event>, key: string) {
    forall e <- events :: Untouched(config, e, key)
  }

  lemma {:induction false} AllowLeaves(rules: seq<Rule>, buckets: Buckets, req: Request, now: int, key: string)
    requires forall rule <- rules | Matches(rule, req) :: BuildKey(rule, req) != key
    ensures Entry(AllowRules(rules, buckets, req, now).0, key) == Entry(buckets, key)
    decreases |rules|
  {
    if rules != [] {
      assert rules[0] in rules && forall rule <- rules[1..] :: rule in rules;
      var charged := Charge(buckets, BuildKey(rules[0], req), rules[0], now).0;
      AllowLeaves(rules[1..], if Matches(rules[0], req) then charged else buckets, req, now, key);
    }
  }

  /** A quiet stretch leaves a bucket as it was, unless a clean-up forgets it. */
  lemma {:induction false} QuietKeeps(config: Config, buckets: Buckets, events: seq<Event>, key: string)
    requires QuietFor(config, events, key)
    ensures key in Run(config, buckets, events, true) ==>
      key in buckets && Run(config, buckets, events, true)[key].bucket == buckets[key].bucket
    decreases |events|
  {
    if events != [] {
      var e := events[0];
      assert Untouched(config, e, key);
      if e.Ask? && !config.exempt(e.req.clientIP, e.req.path) {
        AllowLeaves(config.rules, buckets, e.req, e.at, key);
        assert Entry(Step(config, buckets, e, true), key) == Entry(buckets, key);
      }
      QuietKeeps(config, Step(config, buckets, e, true), events[1..], key);
    }
  }

  // ----- what a request needs

  /**
   * Whatever rule created a bucket of the request, a second's refill and the burst both cover every
   * rule that charges the request to it.
   */
  ghost predicate Ample(config: Config, own: Owner, req: Request) {
    forall rule, rate, burst | rule in config.rules && Matches(rule, req) && own(BuildKey(rule, req), rate, burst) ::
      Covered(config, req, BuildKey(rule, req), rate, burst)
  }

  predicate Covered(config: Config, req: Request, key: string, rate: int, burst: int) {
    Sharing(config.rules, req, key) <= burst && Sharing(config.rules, req, key) <= rate
  }

  /** The buckets of such a request are not hopeless. */
  lemma {:induction false} KeyLive(config: Config, live: iset<string>, own: Owner, req: Request, j: nat)
    requires Owning(config, live, own) && Ample(config, own, req) && !config.exempt(req.clientIP, req.path)
    requires j < |config.rules| && Matches(config.rules[j], req)
    ensures BuildKey(config.rules[j], req) in live
    decreases j
  {
    var key := BuildKey(config.rules[j], req);
    if k :| 0 <= k < j && Matches(config.rules[k], req) && BuildKey(config.rules[k], req) == key {
      KeyLive(config, live, own, req, k);
    } else {
      forall k | 0 <= k < j && Matches(config.rules[k], req) ensures BuildKey(config.rules[k], req) in live {
        KeyLive(config, live, own, req, k);
      }
      FirstOwned(config, live, own, req, j);
      assert config.rules[j] in config.rules;
      assert Covered(config, req, key, config.rules[j].rate, config.rules[j].burst);
      FirstOrLater(config.rules, req, key);
    }
  }

  /** The first rule for a bucket can create it when the buckets before it are not hopeless. */
  lemma FirstOwned(config: Config, live: iset<string>, own: Owner, req: Request, j: nat)
    requires Owning(config, live, own) && !config.exempt(req.clientIP, req.path)
    requires j < |config.rules| && Matches(config.rules[j], req)
    requires forall k | 0 <= k < j && Matches(config.rules[k], req) ::
      BuildKey(config.rules[k], req) != BuildKey(config.rules[j], req) && BuildKey(config.rules[k], req) in live
    ensures own(BuildKey(config.rules[j], req), config.rules[j].rate, config.rules[j].burst)
  {
    assert Creates(config, live, j, req);
    assert CreatorOf(config, live, j, BuildKey(config.rules[j], req));
  }

  /** A bucket that is not there is created with enough. */
  lemma FreshCovers(config: Config, live: iset<string>, own: Owner, req: Request, rule: Rule)
    requires Owning(config, live, own) && Ample(config, own, req) && !config.exempt(req.clientIP, req.path)
    requires rule in config.rules && Matches(rule, req)
    ensures FirstBurst(config.rules, req, BuildKey(rule, req)) >= Sharing(config.rules, req, BuildKey(rule, req))
  {
    var key := BuildKey(rule, req);
    var i := FirstRule(config.rules, req, key);
    var at :| 0 <= at < |config.rules| && config.rules[at] == rule;
    forall k | 0 <= k < i && Matches(config.rules[k], req) ensures BuildKey(config.rules[k], req) in live {
      KeyLive(config, live, own, req, k);
    }
    FirstOwned(config, live, own, req, i);
    assert Covered(config, req, key, config.rules[i].rate, config.rules[i].burst);
  }

  /** A second's refill covers it. */
  lemma SecondCovers(b: Bucket, denied: int, retry: int, n: nat)
    requires Valid(b, denied) && retry >= denied + TOKEN && n <= b.rate && n <= b.burst
    ensures Avail(b, retry) >= n * TOKEN
  {
    AvailLater(b, denied, retry);
    MulMono(b.rate, TOKEN, retry - denied);
  }

  /** After a quiet second every bucket of the request holds enough, or is created with enough. */
  lemma RetryLevel(config: Config, live: iset<string>, own: Owner, after: Buckets, later: Buckets, req: Request,
                   denied: int, retry: int, rule: Rule)
    requires Owning(config, live, own) && Ample(config, own, req) && !config.exempt(req.clientIP, req.path)
    requires Good(own, after, denied) && retry >= denied + TOKEN
    requires rule in config.rules && Matches(rule, req)
    requires var key := BuildKey(rule, req);
      key in later ==> key in after && later[key].bucket == after[key].bucket
    ensures Level(config.rules, later, req, BuildKey(rule, req), retry)
      >= Sharing(config.rules, req, BuildKey(rule, req)) * TOKEN
  {
    var key := BuildKey(rule, req);
    if key in later {
      var b := after[key].bucket;
      assert Covered(config, req, key, b.rate, b.burst);
      SecondCovers(b, denied, retry, Sharing(config.rules, req, key));
    } else {
      FreshCovers(config, live, own, req, rule);
    }
  }

  lemma GoodIsSound(own: Owner, buckets: Buckets, now: int)
    requires Good(own, buckets, now)
    ensures Sound(buckets, now)
  {
  }

  lemma RetryPasses(config: Config, live: iset<string>, own: Owner, after: Buckets, quiet: seq<Event>, req: Request,
                    denied: int, retry: int)
    requires Owning(config, live, own) && Ample(config, own, req) && Good(own, after, denied)
    requires Ordered(quiet, denied, retry) && Quiet(config, quiet, req) && retry >= denied + TOKEN
    ensures Admit(config, Run(config, after, quiet, true), req, retry).1 == None
  {
    if !config.exempt(req.clientIP, req.path) {
      var later := Run(config, after, quiet, true);
      RunGood(config, live, own, after, quiet, true, denied, retry);
      GoodIsSound(own, later, retry);
      forall rule <- config.rules | Matches(rule, req)
        ensures Level(config.rules, later, req, BuildKey(rule, req), retry)
          >= Sharing(config.rules, req, BuildKey(rule, req)) * TOKEN
      {
        QuietKeeps(config, after, quiet, BuildKey(rule, req));
        RetryLevel(config, live, own, after, later, req, denied, retry, rule);
      }
      PassesIff(config.rules, later, req, retry);
    }
  }

  /**
   * `Retry-After: 1` is honest: after a request, denied or not, if for a second no other request
   * touches its buckets, the retry passes every matching rule, clean-ups or not. The bucket of each
   * matching rule must be able to serve the request at all, and to refill for it in a second.
   */
  lemma RetryAfterOneSecond(config: Config, before: seq<Event>, req: Request, quiet: seq<Event>,
                            begin: int, denied: int, retry: int)
    requires ValidRules(config) && Ample(config, Creators(config), req)
    requires Ordered(before, begin, denied)
    requires Ordered(quiet, denied, retry) && Quiet(config, quiet, req)
    requires retry >= denied + TOKEN
    ensures var after := Admit(config, Run(config, map[], before, true), req, denied).0;
      Admit(config, Run(config, after, quiet, true), req, retry).1 == None
  {
    var live, own := LiveKeys(config), Creators(config);
    CreatorsOwn(config);
    var state := Run(config, map[], before, true);
    RunGood(config, live, own, map[], before, true, begin, denied);
    AdmitGood(config, live, own, state, req, denied);
    RetryPasses(config, live, own, Admit(config, state, req, denied).0, quiet, req, denied, retry);
  }

  /** With clean ids it is enough that every matching rule has a burst of at least one. */
  lemma CleanIdsAreAmple(config: Config, req: Request)
    requires ValidRules(config) && CleanIds(config)
    requires forall rule <- config.rules | Matches(rule, req) :: rule.burst >= 1
    ensures Ample(config, Creators(config), req)
  {
    var live, own := LiveKeys(config), Creators(config);
    forall rule, rate, burst | rule in config.rules && Matches(rule, req) && own(BuildKey(rule, req), rate, burst)
      ensures Covered(config, req, BuildKey(rule, req), rate, burst)
    {
      var key := BuildKey(rule, req);
      var i :| CreatorOf(config, live, i, key) && HasParameters(config, i, rate, burst);
      var other: Request :| Creates(config, live, i, other) && BuildKey(config.rules[i], other) == key;
      var at :| 0 <= at < |config.rules| && config.rules[at] == rule;
      CleanIdsTell(config, i, at, other, req);
      OneShares(config, req, at);
    }
  }

  /** With clean ids one rule charges a request to a bucket. */
  lemma OneShares(config: Config, req: Request, at: nat)
    requires CleanIds(config) && at < |config.rules| && Matches(config.rules[at], req)
    ensures Sharing(config.rules, req, BuildKey(config.rules[at], req)) <= 1
  {
    forall j | 0 <= j < |config.rules| && j != at ensures BuildKey(config.rules[j], req) != BuildKey(config.rules[at], req) {
      if BuildKey(config.rules[j], req) == BuildKey(config.rules[at], req) {
        CleanIdsTell(config, j, at, req, req);
      }
    }
    SharesAtMost(config.rules, req, BuildKey(config.rules[at], req), at);
  }

  lemma {:induction false} SharesAtMost(rules: seq<Rule>, req: Request, key: string, at: int)
    requires forall j | 0 <= j < |rules| && j != at :: BuildKey(rules[j], req) != key
    ensures Sharing(rules, req, key) <= if 0 <= at < |rules| then 1 else 0
    decreases |rules|
  {
    if rules != [] {
      forall j | 0 <= j < |rules| - 1 && j != at - 1 ensures BuildKey(rules[1..][j], req) != key {
        assert rules[1..][j] == rules[j + 1];
      }
      SharesAtMost(rules[1..], req, key, at - 1);
    }
  }
}
