/**
 * When exactly the clean-up of idle buckets changes no answer.
 */
module LimiterCleanup {
  import opened TokenBucket
  import opened Limiter
  import opened LimiterCharging
  import opened LimiterTheorems
  import opened LimiterRetry

  /** The clean-up changes no answer on this trace. */
  ghost predicate Invisible(config: Config, events: seq<Event>) {
    Answers(config, map[], events, true) == Answers(config, map[], events, false)
  }

  ghost predicate AlwaysInvisible(config: Config) {
    forall events: seq<Event>, start: int, end: int | Ordered(events, start, end) :: Invisible(config, events)
  }

  // ----- traces

  lemma {:induction false} RunAppend(config: Config, buckets: Buckets, a: seq<Event>, b: seq<Event>, forgets: bool)
    ensures Run(config, buckets, a + b, forgets) == Run(config, Run(config, buckets, a, forgets), b, forgets)
    ensures Answers(config, buckets, a + b, forgets)
      == Answers(config, buckets, a, forgets) + Answers(config, Run(config, buckets, a, forgets), b, forgets)
    decreases |a|
  {
    if a == [] {
      assert a + b == b;
    } else {
      assert (a + b)[1..] == a[1..] + b;
      RunAppend(config, Step(config, buckets, a[0], forgets), a[1..], b, forgets);
    }
  }

  lemma {:induction false} OrderedAppend(a: seq<Event>, b: seq<Event>, start: int, middle: int, end: int)
    requires Ordered(a, start, middle) && Ordered(b, middle, end)
    ensures Ordered(a + b, start, end)
    decreases |a|
  {
    if a == [] {
      assert a + b == b;
      OrderedFrom(b, start, middle, end);
    } else {
      assert (a + b)[1..] == a[1..] + b;
      OrderedAppend(a[1..], b, a[0].at, middle, end);
    }
  }

  lemma OrderedFrom(events: seq<Event>, earlier: int, start: int, end: int)
    requires earlier <= start && Ordered(events, start, end)
    ensures Ordered(events, earlier, end)
  {
  }

  // ----- schedules that drain a bucket exactly

  /** What a bucket filled at 0 holds before the ask at position `k` of a schedule, if it never overflows. */
  function Held(rate: int, burst: int, times: seq<int>, k: nat): int
    requires k < |times|
  {
    (burst - k) * TOKEN + Gain(rate, times[k])
  }

  /** Times of asks, `pace` apart at least, each of which finds a token in the bucket and none in vain. */
  predicate Schedule(rate: int, burst: int, pace: int, times: seq<int>) {
    && times != [] && times[0] == 0 && pace >= 0
    && (forall k | 0 < k < |times| :: times[k] >= times[k - 1] + pace)
    && (forall k | 0 <= k < |times| :: TOKEN <= Held(rate, burst, times, k) <= burst * TOKEN)
  }

  /** And the last ask leaves nothing at all. */
  predicate Drains(rate: int, burst: int, pace: int, times: seq<int>) {
    Schedule(rate, burst, pace, times) && Held(rate, burst, times, |times| - 1) == TOKEN
  }

  /** All the tokens at one instant. */
  lemma AtOnce(rate: int, burst: int) returns (times: seq<int>)
    requires burst >= 1
    ensures Drains(rate, burst, 0, times) && |times| == burst
    ensures forall k | 0 <= k < |times| :: times[k] == 0
  {
    times := seq(burst, _ => 0);
  }

  lemma {:induction false} TimesSpread(rate: int, burst: int, pace: int, times: seq<int>, j: nat, k: nat)
    requires Schedule(rate, burst, pace, times) && j <= k < |times|
    ensures times[j] <= times[k]
    decreases k
  {
    if j < k {
      TimesSpread(rate, burst, pace, times, j, k - 1);
    }
  }

  /** What the last ask of a schedule leaves. */
  function Rest(rate: int, burst: int, times: seq<int>): int
    requires times != []
  {
    Held(rate, burst, times, |times| - 1) - TOKEN
  }

  /** How long the next ask has to wait: for the pace, and for a token. */
  function Wait(rate: int, pace: int, rest: int): int
    requires rate >= 1
  {
    if rest + rate * pace >= TOKEN then pace else (TOKEN - rest + rate - 1) / rate
  }

  lemma WaitFacts(rate: int, burst: int, pace: int, rest: int)
    requires rate >= 1 && burst >= 2 && pace >= 1 && rate * pace < TOKEN && 0 <= rest <= (burst - 1) * TOKEN
    ensures var w := Wait(rate, pace, rest);
      && w >= pace && TOKEN <= rest + rate * w <= burst * TOKEN
      && (rest >= rate ==> rest + rate * w - TOKEN < rest)
      && (rest < rate ==> rest + rate * w - TOKEN < rate)
  {
    RateBelow(rate, pace);
    if rest + rate * pace < TOKEN {
      var need := TOKEN - rest;
      var w := (need + rate - 1) / rate;
      CeilFacts(need, rate);
      if w < pace {
        MulMono(rate, w, pace);
      }
    }
  }

  lemma RateBelow(rate: int, pace: int)
    requires rate >= 1 && pace >= 1 && rate * pace < TOKEN
    ensures rate < TOKEN
  {
    MulMono(rate, 1, pace);
  }

  lemma CeilFacts(need: int, rate: int)
    requires rate >= 1
    ensures need <= rate * ((need + rate - 1) / rate) < need + rate
  {
    var sum := need + rate - 1;
    assert sum == rate * (sum / rate) + sum % rate;
  }

  /** One more ask, as soon as the pace and the bucket allow it. */
  lemma OneMoreAsk(rate: int, burst: int, pace: int, times: seq<int>) returns (more: seq<int>)
    requires rate >= 1 && burst >= 2 && pace >= 1 && rate * pace < TOKEN && Schedule(rate, burst, pace, times)
    ensures Schedule(rate, burst, pace, more) && |more| == |times| + 1
    ensures var rest := Rest(rate, burst, times);
      && 0 <= Rest(rate, burst, more)
      && (rest >= rate ==> Rest(rate, burst, more) < rest)
      && (rest < rate ==> Rest(rate, burst, more) < rate)
  {
    var n := |times| - 1;
    var rest := Rest(rate, burst, times);
    var w := Wait(rate, pace, rest);
    WaitFacts(rate, burst, pace, rest);
    more := times + [times[n] + w];
    TimesSpread(rate, burst, pace, times, 0, n);
    GainSplit(rate, 0, times[n], times[n] + w);
    GainIs(rate, w);
    assert Held(rate, burst, more, n + 1) == rest + rate * w;
    forall k | 0 <= k < |more| ensures TOKEN <= Held(rate, burst, more, k) <= burst * TOKEN {
      if k <= n {
        assert Held(rate, burst, more, k) == Held(rate, burst, times, k);
      }
    }
  }

  /** What is left is a multiple of the rate when as many tokens have been taken as the burst, modulo the rate. */
  lemma ExactRest(rate: int, burst: int, times: seq<int>, m: nat)
    requires rate >= 1 && times != [] && times[|times| - 1] >= 0
    requires |times| == burst + rate * m && 0 <= Rest(rate, burst, times) < rate
    ensures Rest(rate, burst, times) == 0
  {
    var t := times[|times| - 1];
    GainIs(rate, t);
    RestMultiple(rate, m, t, Rest(rate, burst, times));
  }

  lemma RestMultiple(rate: int, m: int, t: int, rest: int)
    requires rate >= 1 && rest == rate * t - rate * m * TOKEN && 0 <= rest < rate
    ensures rest == 0
  {
    var x := t - m * TOKEN;
    assert rate * m * TOKEN == rate * (m * TOKEN);
    assert rest == rate * x;
    if x >= 1 {
      MulMono(rate, 1, x);
    } else if x <= -1 {
      MulMono(rate, x, -1);
    }
  }

  /** A bucket that gains less than a token between asks can be drained to the last unit. */
  lemma PacedDrain(rate: int, burst: int, pace: int) returns (times: seq<int>)
    requires rate >= 1 && burst >= 2 && pace >= 1 && rate * pace < TOKEN
    ensures Drains(rate, burst, pace, times)
  {
    times := [0];
    while Rest(rate, burst, times) >= rate
      invariant Schedule(rate, burst, pace, times)
      decreases Rest(rate, burst, times)
    {
      times := OneMoreAsk(rate, burst, pace, times);
    }
    var m := |times|;
    MulMono(m, 1, rate);
    while |times| < burst + rate * m
      invariant Schedule(rate, burst, pace, times)
      invariant 0 <= Rest(rate, burst, times) < rate && |times| <= burst + rate * m
      decreases burst + rate * m - |times|
    {
      times := OneMoreAsk(rate, burst, pace, times);
    }
    TimesSpread(rate, burst, pace, times, 0, |times| - 1);
    ExactRest(rate, burst, times, m);
  }

  // ----- asking along a schedule

  /** The asks of a schedule from position `k` on, shifted to start at `start`. */
  function Asks(req: Request, times: seq<int>, start: int, k: nat): (events: seq<Event>)
    requires k <= |times|
    decreases |times| - k
  {
    if k == |times| then [] else [Ask(req, start + times[k])] + Asks(req, times, start, k + 1)
  }

  lemma AsksNext(req: Request, times: seq<int>, start: int, k: nat)
    requires k < |times|
    ensures var events := Asks(req, times, start, k);
      events != [] && events[0] == Ask(req, start + times[k]) && events[1..] == Asks(req, times, start, k + 1)
  {
  }

  lemma {:induction false} AsksOrdered(rate: int, burst: int, pace: int, req: Request, times: seq<int>, start: int, k: nat)
    requires Schedule(rate, burst, pace, times) && k < |times|
    ensures Ordered(Asks(req, times, start, k), start + times[k], start + times[|times| - 1])
    decreases |times| - k
  {
    AsksNext(req, times, start, k);
    if k + 1 < |times| {
      AsksOrdered(rate, burst, pace, req, times, start, k + 1);
      OrderedFrom(Asks(req, times, start, k + 1), start + times[k], start + times[k + 1], start + times[|times| - 1]);
    }
  }

  /** Every ask gets past the `i`-th rule. */
  ghost predicate PassAll(config: Config, i: nat, buckets: Buckets, events: seq<Event>)
    decreases |events|
  {
    events == []
    || (&& events[0].Ask? && Past(config.rules, buckets, events[0].req, events[0].at) > i
        && PassAll(config, i, Step(config, buckets, events[0], true), events[1..]))
  }

  // ----- a request whose rules have buckets of their own

  /** The rules that match the request use different buckets. */
  ghost predicate Apart(rules: seq<Rule>, req: Request) {
    forall j, k | 0 <= j < k < |rules| && Matches(rules[j], req) && Matches(rules[k], req) ::
      BuildKey(rules[j], req) != BuildKey(rules[k], req)
  }

  lemma {:induction false} ApartShares(rules: seq<Rule>, req: Request, key: string, at: int, n: nat)
    requires n <= |rules|
    requires forall j | 0 <= j < n && j != at && Matches(rules[j], req) :: BuildKey(rules[j], req) != key
    requires 0 <= at < n ==> Matches(rules[at], req) && BuildKey(rules[at], req) == key
    ensures Sharing(rules[..n], req, key) == if 0 <= at < n then 1 else 0
    decreases n
  {
    if n > 0 {
      var rest := rules[1..];
      SharingTake(rules, req, key, n - 1);
      forall j | 0 <= j < n - 1 && j != at - 1 && Matches(rest[j], req) ensures BuildKey(rest[j], req) != key {
        assert rest[j] == rules[j + 1];
      }
      ApartShares(rest, req, key, at - 1, n - 1);
    }
  }

  /** What is known of the bucket of the `j`-th rule while only this request is asked. */
  ghost predicate OwnBucket(config: Config, j: nat, req: Request, buckets: Buckets)
    requires j < |config.rules|
  {
    var key := BuildKey(config.rules[j], req);
    key in buckets ==>
      && buckets[key].bucket.rate == config.rules[j].rate
      && buckets[key].bucket.burst == config.rules[j].burst
  }

  function LevelOf(config: Config, j: nat, req: Request, buckets: Buckets, now: int): int
    requires j < |config.rules|
  {
    Level(config.rules, buckets, req, BuildKey(config.rules[j], req), now)
  }

  /** A request keeps the parameters of a bucket, or creates it with those of its first rule. */
  lemma {:induction false} AllowParameters(rules: seq<Rule>, buckets: Buckets, req: Request, now: int, key: string)
    requires key in AllowRules(rules, buckets, req, now).0
    ensures var b := AllowRules(rules, buckets, req, now).0[key].bucket;
      if key in buckets then b.rate == buckets[key].bucket.rate && b.burst == buckets[key].bucket.burst
      else
        var i := FirstRule(rules, req, key);
        i < |rules| && b.rate == rules[i].rate && b.burst == rules[i].burst
    decreases |rules|
  {
    if rules != [] {
      if Matches(rules[0], req) {
        var (charged, ok) := Charge(buckets, BuildKey(rules[0], req), rules[0], now);
        if ok {
          AllowParameters(rules[1..], charged, req, now, key);
        }
      } else {
        AllowParameters(rules[1..], buckets, req, now, key);
      }
    }
  }

  /** A rule that a request reaches has a bucket afterwards. */
  lemma {:induction false} ReachedCharges(rules: seq<Rule>, buckets: Buckets, req: Request, now: int, i: nat)
    requires i < |rules| && Matches(rules[i], req) && Past(rules, buckets, req, now) >= i
    ensures BuildKey(rules[i], req) in AllowRules(rules, buckets, req, now).0
    decreases |rules|
  {
    if i == 0 {
      KeysStay(rules[1..], Charge(buckets, BuildKey(rules[0], req), rules[0], now).0, req, now);
    } else if Matches(rules[0], req) {
      ReachedCharges(rules[1..], Charge(buckets, BuildKey(rules[0], req), rules[0], now).0, req, now, i - 1);
    } else {
      ReachedCharges(rules[1..], buckets, req, now, i - 1);
    }
  }

  ghost predicate Asking(config: Config, i: nat, req: Request) {
    && ValidRules(config) && i < |config.rules| && Asked(config, i, req) && Apart(config.rules, req)
  }

  lemma AskingIsValid(config: Config, i: nat, req: Request)
    requires Asking(config, i, req)
    ensures ValidFor(config.rules, req)
  {
  }

  /** With a token for each rule up to the `i`-th, the request gets past it. */
  lemma GetsPast(config: Config, i: nat, req: Request, buckets: Buckets, now: int)
    requires Asking(config, i, req) && Sound(buckets, now)
    requires forall j | 0 <= j <= i && Matches(config.rules[j], req) :: LevelOf(config, j, req, buckets, now) >= TOKEN
    ensures Past(config.rules, buckets, req, now) > i
  {
    AskingIsValid(config, i, req);
    DenialCharges(config.rules, buckets, req, now);
    var after, n := AllowRules(config.rules, buckets, req, now).0, Past(config.rules, buckets, req, now);
    if n <= i {
      var key := BuildKey(config.rules[n], req);
      assert TakenFrom(config.rules, buckets, after, req, now, n, key);
      ApartShares(config.rules, req, key, n, n);
    }
  }

  /** Getting past a rule takes a token from its bucket; with buckets of their own exactly one. */
  lemma PastTakes(config: Config, i: nat, req: Request, buckets: Buckets, now: int, j: nat)
    requires Asking(config, i, req) && Sound(buckets, now) && Past(config.rules, buckets, req, now) > i
    requires j <= i && Matches(config.rules[j], req)
    ensures var after := Admit(config, buckets, req, now).0;
      && Sound(after, now) && BuildKey(config.rules[j], req) in after
      && LevelOf(config, j, req, after, now) == LevelOf(config, j, req, buckets, now) - TOKEN
      && (OwnBucket(config, j, req, buckets) ==> OwnBucket(config, j, req, after))
  {
    AskingIsValid(config, i, req);
    DenialCharges(config.rules, buckets, req, now);
    var after, n := AllowRules(config.rules, buckets, req, now).0, Past(config.rules, buckets, req, now);
    var key := BuildKey(config.rules[j], req);
    assert TakenFrom(config.rules, buckets, after, req, now, n, key);
    ApartShares(config.rules, req, key, j, n);
    ReachedCharges(config.rules, buckets, req, now, j);
    AllowParameters(config.rules, buckets, req, now, key);
    assert FirstRule(config.rules, req, key) == j;
  }

  // ----- the fresh limiter keeps to the schedule

  /** The asks leave the earlier rules of the request enough: they refill at the pace, or have as many tokens. */
  ghost predicate Spares(config: Config, i: nat, req: Request, pace: int, count: int)
    requires i < |config.rules|
  {
    forall j | 0 <= j < i && Matches(config.rules[j], req) ::
      && config.rules[j].burst >= 1
      && (if pace == 0 then config.rules[j].burst >= count else config.rules[j].rate * pace >= TOKEN)
  }

  /** After `k` asks: every bucket is the rule's own, and the earlier rules have what they must. */
  ghost predicate Track(config: Config, i: nat, req: Request, pace: int, buckets: Buckets, now: int, k: nat)
    requires i < |config.rules|
  {
    && Sound(buckets, now)
    && forall j | 0 <= j <= i && Matches(config.rules[j], req) ::
         && OwnBucket(config, j, req, buckets)
         && (k > 0 ==> BuildKey(config.rules[j], req) in buckets)
         && (k == 0 ==> BuildKey(config.rules[j], req) !in buckets)
         && (j < i && pace == 0 ==> LevelOf(config, j, req, buckets, now) >= (config.rules[j].burst - k) * TOKEN)
  }

  lemma FreshLevel(config: Config, j: nat, req: Request, buckets: Buckets, now: int)
    requires j < |config.rules| && Matches(config.rules[j], req) && Apart(config.rules, req)
    requires BuildKey(config.rules[j], req) !in buckets
    ensures LevelOf(config, j, req, buckets, now) == config.rules[j].burst * TOKEN
  {
    assert FirstRule(config.rules, req, BuildKey(config.rules[j], req)) == j;
  }

  /** Before the next ask an earlier rule has a token again. */
  lemma SparesToken(config: Config, i: nat, req: Request, pace: int, count: nat, buckets: Buckets, now: int, next: int,
                    k: nat, j: nat)
    requires Asking(config, i, req) && Spares(config, i, req, pace, count) && pace >= 0
    requires Track(config, i, req, pace, buckets, now, k) && k < count
    requires next >= now && (k > 0 ==> next >= now + pace)
    requires j < i && Matches(config.rules[j], req)
    ensures LevelOf(config, j, req, buckets, next) >= TOKEN
    ensures pace == 0 ==> LevelOf(config, j, req, buckets, next) >= (config.rules[j].burst - k) * TOKEN
  {
    var key := BuildKey(config.rules[j], req);
    if k == 0 {
      FreshLevel(config, j, req, buckets, next);
    } else {
      var b := buckets[key].bucket;
      assert OwnBucket(config, j, req, buckets);
      AvailLater(b, now, next);
      MulMono(b.rate, pace, next - now);
    }
  }

  lemma SoundLater(buckets: Buckets, now: int, later: int)
    requires Sound(buckets, now) && now <= later
    ensures Sound(buckets, later)
  {
  }

  /** The bucket of the rule itself holds what the schedule says. */
  ghost predicate OnLevel(config: Config, i: nat, req: Request, buckets: Buckets, times: seq<int>, start: int, k: nat)
    requires i < |config.rules| && k < |times|
  {
    LevelOf(config, i, req, buckets, start + times[k]) == Held(config.rules[i].rate, config.rules[i].burst, times, k)
  }

  /** One ask of the schedule. */
  lemma AskOnTrack(config: Config, i: nat, req: Request, pace: int, times: seq<int>, start: int,
                   buckets: Buckets, now: int, k: nat)
    requires Asking(config, i, req) && Spares(config, i, req, pace, |times|)
    requires Schedule(config.rules[i].rate, config.rules[i].burst, pace, times) && k < |times|
    requires Track(config, i, req, pace, buckets, now, k) && OnLevel(config, i, req, buckets, times, start, k)
    requires now <= start + times[k] && (k > 0 ==> start + times[k] >= now + pace)
    ensures var at := start + times[k];
      var after := Admit(config, buckets, req, at).0;
      && Past(config.rules, buckets, req, at) > i
      && Track(config, i, req, pace, after, at, k + 1)
      && LevelOf(config, i, req, after, at) == Held(config.rules[i].rate, config.rules[i].burst, times, k) - TOKEN
  {
    var at := start + times[k];
    SoundLater(buckets, now, at);
    forall j | 0 <= j <= i && Matches(config.rules[j], req) ensures LevelOf(config, j, req, buckets, at) >= TOKEN {
      if j < i {
        SparesToken(config, i, req, pace, |times|, buckets, now, at, k, j);
      }
    }
    GetsPast(config, i, req, buckets, at);
    var after := Admit(config, buckets, req, at).0;
    PastTakes(config, i, req, buckets, at, i);
    forall j | 0 <= j <= i && Matches(config.rules[j], req)
      ensures OwnBucket(config, j, req, after) && BuildKey(config.rules[j], req) in after
      ensures j < i && pace == 0 ==> LevelOf(config, j, req, after, at) >= (config.rules[j].burst - (k + 1)) * TOKEN
    {
      PastTakes(config, i, req, buckets, at, j);
      if j < i {
        SparesToken(config, i, req, pace, |times|, buckets, now, at, k, j);
      }
    }
  }

  /** Between two asks the rule's own bucket gains what the schedule says. */
  lemma LevelFollows(config: Config, i: nat, req: Request, pace: int, times: seq<int>, start: int, buckets: Buckets, k: nat)
    requires Asking(config, i, req) && Schedule(config.rules[i].rate, config.rules[i].burst, pace, times)
    requires k + 1 < |times| && Track(config, i, req, pace, buckets, start + times[k], k + 1)
    requires LevelOf(config, i, req, buckets, start + times[k])
      == Held(config.rules[i].rate, config.rules[i].burst, times, k) - TOKEN
    ensures OnLevel(config, i, req, buckets, times, start, k + 1)
  {
    var rule := config.rules[i];
    var b := buckets[BuildKey(rule, req)].bucket;
    assert OwnBucket(config, i, req, buckets);
    TimesSpread(rule.rate, rule.burst, pace, times, 0, k);
    AvailLater(b, start + times[k], start + times[k + 1]);
    GainIs(rule.rate, times[k + 1] - times[k]);
    GainSplit(rule.rate, 0, times[k], times[k + 1]);
    assert (start + times[k + 1]) - (start + times[k]) == times[k + 1] - times[k];
    assert TOKEN <= Held(rule.rate, rule.burst, times, k + 1) <= rule.burst * TOKEN;
  }

  /** Asking on from position `k`, every ask gets past the rule, and its bucket ends with what the schedule leaves. */
  ghost predicate OnSchedule(config: Config, i: nat, req: Request, pace: int, times: seq<int>, start: int, buckets: Buckets, k: nat)
    requires i < |config.rules| && k <= |times| && times != []
  {
    var (rule, events, last) := (config.rules[i], Asks(req, times, start, k), start + times[|times| - 1]);
    var after := Run(config, buckets, events, true);
    && PassAll(config, i, buckets, events) && Run(config, buckets, events, false) == after
    && Track(config, i, req, pace, after, last, |times|)
    && LevelOf(config, i, req, after, last) == Rest(rule.rate, rule.burst, times)
  }

  lemma ScheduleNext(config: Config, i: nat, req: Request, pace: int, times: seq<int>, start: int, buckets: Buckets, k: nat)
    requires i < |config.rules| && k < |times|
    requires Past(config.rules, buckets, req, start + times[k]) > i
    requires OnSchedule(config, i, req, pace, times, start, Admit(config, buckets, req, start + times[k]).0, k + 1)
    ensures OnSchedule(config, i, req, pace, times, start, buckets, k)
  {
    AsksNext(req, times, start, k);
    var events := Asks(req, times, start, k);
    var after := Admit(config, buckets, req, start + times[k]).0;
    assert forall forgets: bool :: Step(config, buckets, events[0], forgets) == after;
  }

  lemma ScheduleEnds(config: Config, i: nat, req: Request, pace: int, times: seq<int>, start: int, buckets: Buckets)
    requires i < |config.rules| && times != []
    requires var last := start + times[|times| - 1];
      && Track(config, i, req, pace, buckets, last, |times|)
      && LevelOf(config, i, req, buckets, last) == Rest(config.rules[i].rate, config.rules[i].burst, times)
    ensures OnSchedule(config, i, req, pace, times, start, buckets, |times|)
  {
  }

  lemma {:induction false} FreshRun(config: Config, i: nat, req: Request, pace: int, times: seq<int>, start: int,
                                    buckets: Buckets, now: int, k: nat)
    requires Asking(config, i, req) && Spares(config, i, req, pace, |times|)
    requires Schedule(config.rules[i].rate, config.rules[i].burst, pace, times) && k < |times|
    requires Track(config, i, req, pace, buckets, now, k) && OnLevel(config, i, req, buckets, times, start, k)
    requires now <= start + times[k] && (k > 0 ==> start + times[k] >= now + pace)
    ensures OnSchedule(config, i, req, pace, times, start, buckets, k)
    decreases |times| - k
  {
    var at := start + times[k];
    var after := Admit(config, buckets, req, at).0;
    AskOnTrack(config, i, req, pace, times, start, buckets, now, k);
    if k + 1 < |times| {
      LevelFollows(config, i, req, pace, times, start, after, k);
      FreshRun(config, i, req, pace, times, start, after, at, k + 1);
    } else {
      ScheduleEnds(config, i, req, pace, times, start, after);
    }
    ScheduleNext(config, i, req, pace, times, start, buckets, k);
  }

  /** From an empty limiter the schedule is kept, whenever it starts. */
  lemma FreshSchedule(config: Config, i: nat, req: Request, pace: int, times: seq<int>, start: int)
    requires Asking(config, i, req) && Spares(config, i, req, pace, |times|)
    requires Schedule(config.rules[i].rate, config.rules[i].burst, pace, times)
    ensures OnSchedule(config, i, req, pace, times, start, map[], 0)
  {
    forall j | 0 <= j <= i && Matches(config.rules[j], req)
      ensures LevelOf(config, j, req, map[], start) == config.rules[j].burst * TOKEN
    {
      FreshLevel(config, j, req, map[], start);
    }
    FreshRun(config, i, req, pace, times, start, map[], start, 0);
  }

  // ----- a limiter whose bucket is not full cannot keep to it

  /** The bucket refills no faster than the rule, as far as the schedule notices. */
  predicate NoFaster(rate: int, rule: Rule, times: seq<int>) {
    times != [] && (rate <= rule.rate || times[|times| - 1] == 0)
  }

  lemma SlowerGain(rate: int, rule: Rule, elapsed: int)
    requires elapsed >= 0 && (rate <= rule.rate || elapsed == 0)
    ensures rate * elapsed <= Gain(rule.rate, elapsed)
  {
    GainIs(rule.rate, elapsed);
    if elapsed > 0 {
      MulRight(rate, rule.rate, elapsed);
    }
  }

  /** Behind the schedule after an ask, the bucket is behind it at the next one. */
  lemma StaleLevel(config: Config, i: nat, req: Request, pace: int, times: seq<int>, start: int, after: Buckets, k: nat, rate: int)
    requires Asking(config, i, req) && Schedule(config.rules[i].rate, config.rules[i].burst, pace, times)
    requires k + 1 < |times| && NoFaster(rate, config.rules[i], times)
    requires Sound(after, start + times[k]) && BuildKey(config.rules[i], req) in after
    requires after[BuildKey(config.rules[i], req)].bucket.rate == rate
    requires LevelOf(config, i, req, after, start + times[k])
      < Held(config.rules[i].rate, config.rules[i].burst, times, k) - TOKEN
    ensures times[k] <= times[k + 1]
    ensures LevelOf(config, i, req, after, start + times[k + 1])
      < Held(config.rules[i].rate, config.rules[i].burst, times, k + 1)
  {
    var rule, b, gap := config.rules[i], after[BuildKey(config.rules[i], req)].bucket, times[k + 1] - times[k];
    TimesSpread(rule.rate, rule.burst, pace, times, 0, k);
    TimesSpread(rule.rate, rule.burst, pace, times, k + 1, |times| - 1);
    AvailLater(b, start + times[k], start + times[k + 1]);
    assert (start + times[k + 1]) - (start + times[k]) == gap;
    SlowerGain(rate, rule, gap);
    GainSplit(rule.rate, 0, times[k], times[k + 1]);
  }

  /** As long as every ask gets past the rule, its bucket loses a token each time. */
  lemma {:induction false} StaleRun(config: Config, i: nat, req: Request, pace: int, times: seq<int>, start: int,
                                    buckets: Buckets, now: int, k: nat, rate: int)
    requires Asking(config, i, req) && Schedule(config.rules[i].rate, config.rules[i].burst, pace, times)
    requires k < |times| && NoFaster(rate, config.rules[i], times) && rate >= 1
    requires Sound(buckets, now) && now <= start + times[k] && BuildKey(config.rules[i], req) in buckets
    requires buckets[BuildKey(config.rules[i], req)].bucket.rate == rate
    requires LevelOf(config, i, req, buckets, start + times[k])
      < Held(config.rules[i].rate, config.rules[i].burst, times, k)
    requires PassAll(config, i, buckets, Asks(req, times, start, k))
    ensures Rest(config.rules[i].rate, config.rules[i].burst, times) > 0
    decreases |times| - k
  {
    var rule, key, at := config.rules[i], BuildKey(config.rules[i], req), start + times[k];
    AsksNext(req, times, start, k);
    SoundLater(buckets, now, at);
    PastTakes(config, i, req, buckets, at, i);
    var after := Admit(config, buckets, req, at).0;
    AllowParameters(config.rules, buckets, req, at, key);
    AvailLater(after[key].bucket, at, at);
    if k + 1 < |times| {
      StaleLevel(config, i, req, pace, times, start, after, k, rate);
      StaleRun(config, i, req, pace, times, start, after, at, k + 1, rate);
    }
  }

  // ----- equal answers

  /** If two states answer a request alike and one lets it past the rule, so does the other. */
  lemma AlikePast(config: Config, i: nat, req: Request, f: Buckets, n: Buckets, now: int)
    requires Asking(config, i, req) && Sound(f, now) && Sound(n, now)
    requires Admit(config, f, req, now).1 == Admit(config, n, req, now).1
    requires Past(config.rules, f, req, now) > i
    ensures Past(config.rules, n, req, now) > i
  {
    AskingIsValid(config, i, req);
    DenialCharges(config.rules, f, req, now);
    DenialCharges(config.rules, n, req, now);
  }

  lemma {:induction false} AlikePassAll(config: Config, i: nat, req: Request, pace: int, times: seq<int>, start: int,
                                        f: Buckets, n: Buckets, now: int, k: nat)
    requires Asking(config, i, req) && Schedule(config.rules[i].rate, config.rules[i].burst, pace, times)
    requires k <= |times| && Sound(f, now) && Sound(n, now) && (k < |times| ==> now <= start + times[k])
    requires var events := Asks(req, times, start, k);
      PassAll(config, i, f, events) && Answers(config, f, events, true) == Answers(config, n, events, false)
    ensures PassAll(config, i, n, Asks(req, times, start, k))
    decreases |times| - k
  {
    if k < |times| {
      var events, at := Asks(req, times, start, k), start + times[k];
      AsksNext(req, times, start, k);
      SoundLater(f, now, at);
      SoundLater(n, now, at);
      assert Answers(config, f, events, true)[0] == Admit(config, f, req, at).1;
      assert Answers(config, n, events, false)[0] == Admit(config, n, req, at).1;
      assert Answers(config, f, events, true)[1..] == Answers(config, n, events, false)[1..];
      AlikePast(config, i, req, f, n, at);
      AskingIsValid(config, i, req);
      DenialCharges(config.rules, f, req, at);
      DenialCharges(config.rules, n, req, at);
      AlikePassAll(config, i, req, pace, times, start, Admit(config, f, req, at).0, Admit(config, n, req, at).0, at, k + 1);
    }
  }

  // ----- traces on which the clean-up shows

  /** Use a bucket, wait just over five minutes, clean up, and ask along the schedule. */
  function Exposing(prefix: seq<Event>, late: int, req: Request, times: seq<int>): seq<Event> {
    prefix + [Clean(late)] + Asks(req, times, late, 0)
  }

  /** Everything seen by `now` is forgotten just over five minutes later. */
  lemma AllForgotten(own: Owner, buckets: Buckets, now: int)
    requires Good(own, buckets, now)
    ensures Sweep(buckets, now + INTERVAL + 1) == map[]
  {
    forall key <- buckets ensures IsIdle(buckets[key], now + INTERVAL + 1) {
      assert GoodEntry(own, key, buckets[key], now);
    }
  }

  lemma SuffixAlike(config: Config, prefix: seq<Event>, e: Event, rest: seq<Event>, used: Buckets)
    requires Run(config, map[], prefix, true) == Run(config, map[], prefix, false) == used
    requires Invisible(config, prefix + [e] + rest)
    ensures Answers(config, Step(config, used, e, true), rest, true)
      == Answers(config, Step(config, used, e, false), rest, false)
  {
    forall forgets: bool
      ensures Answers(config, map[], prefix + [e] + rest, forgets)[|prefix| + 1..]
        == Answers(config, Step(config, used, e, forgets), rest, forgets)
    {
      RunAppend(config, map[], prefix + [e], rest, forgets);
      RunAppend(config, map[], prefix, [e], forgets);
      assert [e][1..] == [];
      assert Run(config, used, [e], forgets) == Step(config, used, e, forgets);
    }
  }

  /**
   * After the clean-up the limiter that forgets is empty and keeps to the schedule of the rule. If the
   * other one's bucket is not as full as the rule makes it, it cannot give the same answers.
   */
  lemma Shows(config: Config, live: iset<string>, own: Owner, i: nat, req: Request, pace: int, times: seq<int>,
              prefix: seq<Event>, used: Buckets, end: int)
    requires Owning(config, live, own) && Asking(config, i, req) && Spares(config, i, req, pace, |times|)
    requires Drains(config.rules[i].rate, config.rules[i].burst, pace, times)
    requires Run(config, map[], prefix, true) == Run(config, map[], prefix, false) == used
    requires Ordered(prefix, 0, end) && Good(own, used, end) && BuildKey(config.rules[i], req) in used
    requires var b := used[BuildKey(config.rules[i], req)].bucket;
      NoFaster(b.rate, config.rules[i], times)
      && Avail(b, end + INTERVAL + 1) < config.rules[i].burst * TOKEN
    ensures !Invisible(config, Exposing(prefix, end + INTERVAL + 1, req, times))
  {
    var late := end + INTERVAL + 1;
    var asks := Asks(req, times, late, 0);
    AllForgotten(own, used, end);
    GoodIsSound(own, used, end);
    if Invisible(config, Exposing(prefix, late, req, times)) {
      SuffixAlike(config, prefix, Clean(late), asks, used);
      FreshSchedule(config, i, req, pace, times, late);
      SoundLater(used, end, late);
      AlikePassAll(config, i, req, pace, times, late, map[], used, late, 0);
      StaleRun(config, i, req, pace, times, late, used, late, 0, used[BuildKey(config.rules[i], req)].bucket.rate);
    }
  }

  lemma ExposingOrdered(rate: int, burst: int, pace: int, prefix: seq<Event>, end: int, req: Request, times: seq<int>)
    requires Schedule(rate, burst, pace, times) && Ordered(prefix, 0, end)
    ensures var late := end + INTERVAL + 1;
      Ordered(Exposing(prefix, late, req, times), 0, late + times[|times| - 1])
  {
    var late := end + INTERVAL + 1;
    var clean := [Clean(late)];
    assert clean[1..] == [];
    AsksOrdered(rate, burst, pace, req, times, late, 0);
    OrderedAppend(prefix, clean, 0, end, late);
    OrderedAppend(prefix + clean, Asks(req, times, late, 0), 0, late, late + times[|times| - 1]);
  }

  // ----- requests that can expose a rule

  /**
   * The earlier rules of the request, each with a bucket of its own, leave it a pace at which they
   * refill and this rule does not, or have bursts that outlast this one's.
   */
  ghost predicate Exposable(config: Config, i: int, req: Request) {
    && Asked(config, i, req) && Apart(config.rules, req)
    && exists pace: int :: Paced(config, i, req, pace)
  }

  ghost predicate Paced(config: Config, i: int, req: Request, pace: int)
    requires 0 <= i < |config.rules|
  {
    pace >= 0 && config.rules[i].rate * pace < TOKEN && Spares(config, i, req, pace, config.rules[i].burst)
  }

  /** Such a request drains the rule's bucket exactly. */
  lemma ExposableDrains(config: Config, i: nat, req: Request) returns (pace: int, times: seq<int>)
    requires ValidRules(config) && Exposable(config, i, req) && config.rules[i].burst >= 1
    ensures Asking(config, i, req) && Spares(config, i, req, pace, |times|)
    ensures Drains(config.rules[i].rate, config.rules[i].burst, pace, times)
  {
    var rule := config.rules[i];
    RuleIsValid(config, i, req);
    pace :| Paced(config, i, req, pace);
    if pace == 0 || rule.burst == 1 {
      times := AtOnce(rule.rate, rule.burst);
      pace := 0;
    } else {
      times := PacedDrain(rule.rate, rule.burst, pace);
    }
  }

  /** The state after a schedule that drains the bucket of a rule too large to refill while idle. */
  lemma DrainedLevel(config: Config, i: nat, req: Request, pace: int, times: seq<int>, used: Buckets, last: int)
    requires Asking(config, i, req) && !RefillsWhenIdle(config.rules[i]) && times != []
    requires Track(config, i, req, pace, used, last, |times|) && LevelOf(config, i, req, used, last) == 0
    ensures var key := BuildKey(config.rules[i], req);
      && key in used && used[key].bucket.rate == config.rules[i].rate
      && Avail(used[key].bucket, last + INTERVAL + 1) < config.rules[i].burst * TOKEN
  {
    var rule, b := config.rules[i], used[BuildKey(config.rules[i], req)].bucket;
    assert OwnBucket(config, i, req, used);
    AvailLater(b, last, last + INTERVAL + 1);
  }

  lemma LargeBurst(config: Config, live: iset<string>, own: Owner, i: nat, req: Request, pace: int, times: seq<int>)
    returns (events: seq<Event>, end: int)
    requires Owning(config, live, own) && Asking(config, i, req) && !RefillsWhenIdle(config.rules[i])
    requires Spares(config, i, req, pace, |times|) && Drains(config.rules[i].rate, config.rules[i].burst, pace, times)
    ensures Ordered(events, 0, end) && !Invisible(config, events)
  {
    var rule, prefix, last := config.rules[i], Asks(req, times, 0, 0), times[|times| - 1];
    var used := Run(config, map[], prefix, true);
    FreshSchedule(config, i, req, pace, times, 0);
    AsksOrdered(rule.rate, rule.burst, pace, req, times, 0, 0);
    RunGood(config, live, own, map[], prefix, true, 0, last);
    DrainedLevel(config, i, req, pace, times, used, last);
    Shows(config, live, own, i, req, pace, times, prefix, used, last);
    ExposingOrdered(rule.rate, rule.burst, pace, prefix, last, req, times);
    events, end := Exposing(prefix, last + INTERVAL + 1, req, times), last + INTERVAL + 1 + last;
  }

  /**
   * A bucket that holds more than its idle time refills shows the clean-up: drained, forgotten and
   * created again it is full, while the one that was kept has only the refill.
   */
  lemma LargeBurstShows(config: Config, i: nat, req: Request) returns (events: seq<Event>, end: int)
    requires ValidRules(config) && Exposable(config, i, req) && !RefillsWhenIdle(config.rules[i])
    ensures Ordered(events, 0, end) && !Invisible(config, events)
  {
    RuleIsValid(config, i, req);
    MulMono(config.rules[i].rate, 0, INTERVAL + 1);
    var pace, times := ExposableDrains(config, i, req);
    CreatorsOwn(config);
    events, end := LargeBurst(config, LiveKeys(config), Creators(config), i, req, pace, times);
  }

  /** A single ask creates the bucket of the rule, if the earlier rules have a token each. */
  lemma OneAskCreates(config: Config, i: nat, req: Request)
    requires Asking(config, i, req) && forall j | 0 <= j < i && Matches(config.rules[j], req) :: config.rules[j].burst >= 1
    ensures var (key, after) := (BuildKey(config.rules[i], req), Admit(config, map[], req, 0).0);
      key in after && OwnBucket(config, i, req, after)
  {
    AskingIsValid(config, i, req);
    DenialCharges(config.rules, map[], req, 0);
    var key, after, n := BuildKey(config.rules[i], req), AllowRules(config.rules, map[], req, 0).0, Past(config.rules, map[], req, 0);
    if n < i {
      var at := BuildKey(config.rules[n], req);
      assert TakenFrom(config.rules, map[], after, req, 0, n, at);
      ApartShares(config.rules, req, at, n, n);
      FreshLevel(config, n, req, map[], 0);
    }
    ReachedCharges(config.rules, map[], req, 0, i);
    AllowParameters(config.rules, map[], req, 0, key);
    assert FirstRule(config.rules, req, key) == i;
  }

  /** A bucket created by the rule with the smaller burst is not full for the other one. */
  lemma SmallerBucket(config: Config, i: nat, qa: Request, used: Buckets, burst: int)
    requires Asking(config, i, qa) && Sound(used, 0) && config.rules[i].burst < burst
    requires BuildKey(config.rules[i], qa) in used && OwnBucket(config, i, qa, used)
    ensures Avail(used[BuildKey(config.rules[i], qa)].bucket, INTERVAL + 1) < burst * TOKEN
  {
    AvailLater(used[BuildKey(config.rules[i], qa)].bucket, 0, INTERVAL + 1);
  }

  lemma SharedBucket(config: Config, live: iset<string>, own: Owner, i: nat, qa: Request, j: nat, qb: Request,
                     pace: int, times: seq<int>) returns (events: seq<Event>, end: int)
    requires Owning(config, live, own) && Asking(config, i, qa) && Asking(config, j, qb)
    requires forall k | 0 <= k < i && Matches(config.rules[k], qa) :: config.rules[k].burst >= 1
    requires Spares(config, j, qb, pace, |times|) && Drains(config.rules[j].rate, config.rules[j].burst, pace, times)
    requires BuildKey(config.rules[i], qa) == BuildKey(config.rules[j], qb)
    requires config.rules[i].burst < config.rules[j].burst && NoFaster(config.rules[i].rate, config.rules[j], times)
    ensures Ordered(events, 0, end) && !Invisible(config, events)
  {
    var rule, prefix, used := config.rules[j], [Ask(qa, 0)], Admit(config, map[], qa, 0).0;
    assert prefix[1..] == [] && Ordered(prefix, 0, 0);
    assert Run(config, used, [], true) == used && Run(config, used, [], false) == used;
    AdmitGood(config, live, own, map[], qa, 0);
    GoodIsSound(own, used, 0);
    OneAskCreates(config, i, qa);
    SmallerBucket(config, i, qa, used, rule.burst);
    Shows(config, live, own, j, qb, pace, times, prefix, used, 0);
    ExposingOrdered(rule.rate, rule.burst, pace, prefix, 0, qb, times);
    events, end := Exposing(prefix, INTERVAL + 1, qb, times), INTERVAL + 1 + times[|times| - 1];
  }

  /**
   * Two rules that can create one bucket, with different bursts, show it too: the bucket has the
   * parameters of the rule that creates it, and after a clean-up that can be the other one. It takes
   * requests that can expose them; the one with the larger burst must refill as fast as the other, or
   * be exposed at one instant.
   */
  lemma SharedParametersShow(config: Config, i: nat, qa: Request, j: nat, qb: Request)
    returns (events: seq<Event>, end: int)
    requires ValidRules(config) && Exposable(config, i, qa) && Exposable(config, j, qb)
    requires BuildKey(config.rules[i], qa) == BuildKey(config.rules[j], qb)
    requires config.rules[i].burst < config.rules[j].burst
    requires config.rules[i].rate <= config.rules[j].rate || Paced(config, j, qb, 0)
    ensures Ordered(events, 0, end) && !Invisible(config, events)
  {
    RuleIsValid(config, i, qa);
    CreatorsOwn(config);
    var pace, times;
    if config.rules[i].rate <= config.rules[j].rate {
      pace, times := ExposableDrains(config, j, qb);
    } else {
      RuleIsValid(config, j, qb);
      times := AtOnce(config.rules[j].rate, config.rules[j].burst);
      pace := 0;
    }
    events, end := SharedBucket(config, LiveKeys(config), Creators(config), i, qa, j, qb, pace, times);
  }

  // ----- the exact condition

  ghost predicate ToldApart(config: Config, i: int, j: int) {
    && 0 <= i < |config.rules| && 0 <= j < |config.rules| && config.rules[i].rate == config.rules[j].rate
    && exists q1: Request, q2: Request ::
         Exposable(config, i, q1) && Exposable(config, j, q2) && BuildKey(config.rules[i], q1) == BuildKey(config.rules[j], q2)
  }

  /** Rules that can create one bucket have one rate, and requests for one bucket that can expose them. */
  ghost predicate Separate(config: Config) {
    forall i, j, key | CreatorOf(config, LiveKeys(config), i, key) && CreatorOf(config, LiveKeys(config), j, key) ::
      ToldApart(config, i, j)
  }

  lemma FastShows(config: Config) returns (events: seq<Event>, end: int)
    requires ValidRules(config) && Separate(config) && !Slow(config)
    ensures Ordered(events, 0, end) && !Invisible(config, events)
  {
    var live := LiveKeys(config);
    var i, key :| CreatorOf(config, live, i, key) && !(0 <= i < |config.rules| && RefillsWhenIdle(config.rules[i]));
    assert ToldApart(config, i, i);
    var q1, q2 :| Exposable(config, i, q1) && Exposable(config, i, q2) && BuildKey(config.rules[i], q1) == BuildKey(config.rules[i], q2);
    events, end := LargeBurstShows(config, i, q1);
  }

  lemma InconsistentShows(config: Config) returns (events: seq<Event>, end: int)
    requires ValidRules(config) && Separate(config) && !Consistent(config)
    ensures Ordered(events, 0, end) && !Invisible(config, events)
  {
    var live := LiveKeys(config);
    var i, j, key :| CreatorOf(config, live, i, key) && CreatorOf(config, live, j, key) && !SameParameters(config, i, j);
    assert ToldApart(config, i, j);
    var q1, q2 :| Exposable(config, i, q1) && Exposable(config, j, q2) && BuildKey(config.rules[i], q1) == BuildKey(config.rules[j], q2);
    if config.rules[i].burst < config.rules[j].burst {
      events, end := SharedParametersShow(config, i, q1, j, q2);
    } else {
      events, end := SharedParametersShow(config, j, q2, i, q1);
    }
  }

  /**
   * If rules that can create one bucket have one rate and can be exposed, the clean-up is invisible on
   * every trace exactly when every bucket refills while it is idle and rules that can create one
   * bucket agree on its burst.
   */
  lemma CleanupInvisibleIff(config: Config)
    requires ValidRules(config) && Separate(config)
    ensures AlwaysInvisible(config) <==> Slow(config) && Consistent(config)
  {
    if Slow(config) && Consistent(config) {
      SlowIsInvisible(config);
    } else if !Slow(config) {
      var events, end := FastShows(config);
    } else {
      var events, end := InconsistentShows(config);
    }
  }

  /** This half needs no such premise. */
  lemma SlowIsInvisible(config: Config)
    requires ValidRules(config) && Slow(config) && Consistent(config)
    ensures AlwaysInvisible(config)
  {
    forall events: seq<Event>, start: int, end: int | Ordered(events, start, end)
      ensures Invisible(config, events)
    {
      CleanupIsInvisible(config, events, start, end);
    }
  }

  /** A request that can expose a rule can create its bucket. */
  lemma ExposableCreates(config: Config, i: int, req: Request)
    requires Exposable(config, i, req)
    ensures CreatorOf(config, LiveKeys(config), i, BuildKey(config.rules[i], req))
  {
    LiveKeysCover(config);
    var pace :| Paced(config, i, req, pace);
    assert Creates(config, LiveKeys(config), i, req);
  }

  lemma OneCreator(config: Config, live: iset<string>, i: int, j: int, key: string)
    requires CleanIds(config) && CreatorOf(config, live, i, key) && CreatorOf(config, live, j, key)
    ensures i == j
  {
    var q1: Request :| Creates(config, live, i, q1) && BuildKey(config.rules[i], q1) == key;
    var q2: Request :| Creates(config, live, j, q2) && BuildKey(config.rules[j], q2) == key;
    CleanIdsTell(config, i, j, q1, q2);
  }

  lemma ExposedAlone(config: Config, i: int, req: Request)
    requires Exposable(config, i, req)
    ensures ToldApart(config, i, i)
  {
  }

  /** With clean ids no two rules share a bucket, and only the bursts matter. */
  lemma CleanRulesInvisibleIff(config: Config)
    requires ValidRules(config) && CleanIds(config)
    requires forall i, key | CreatorOf(config, LiveKeys(config), i, key) ::
      0 <= i < |config.rules| && exists req: Request :: Exposable(config, i, req)
    ensures AlwaysInvisible(config) <==> Slow(config)
  {
    var live := LiveKeys(config);
    forall i, j, key | CreatorOf(config, live, i, key) && CreatorOf(config, live, j, key) ensures ToldApart(config, i, j) {
      OneCreator(config, live, i, j, key);
      var req: Request :| Exposable(config, i, req);
      ExposedAlone(config, i, req);
    }
    CleanIdsAreConsistent(config);
    CleanupInvisibleIff(config);
  }

  /** For a single rule: exactly when its bucket refills while it is idle. */
  lemma OneRuleInvisibleIff(config: Config, req: Request)
    requires ValidRules(config) && |config.rules| == 1 && Asked(config, 0, req)
    ensures AlwaysInvisible(config) <==> RefillsWhenIdle(config.rules[0])
    ensures RefillsWhenIdle(config.rules[0])
      <==> config.rules[0].burst * 1_000_000_000 <= config.rules[0].rate * 300_000_000_001
  {
    assert Paced(config, 0, req, 0) && Exposable(config, 0, req);
    ExposableCreates(config, 0, req);
    var live := LiveKeys(config);
    forall i, j, key | CreatorOf(config, live, i, key) && CreatorOf(config, live, j, key) ensures ToldApart(config, i, j) {
      assert i == 0 && j == 0;
    }
    CleanupInvisibleIff(config);
  }

  /**
   * For two rules of one rate that share a bucket, each with a request that can expose it: exactly
   * when the bursts are equal as well.
   */
  lemma TwoRulesInvisibleIff(config: Config, qa: Request, qb: Request)
    requires ValidRules(config) && |config.rules| == 2 && config.rules[0].rate == config.rules[1].rate
    requires Exposable(config, 0, qa) && Exposable(config, 1, qb)
    requires BuildKey(config.rules[0], qa) == BuildKey(config.rules[1], qb)
    ensures AlwaysInvisible(config) <==>
      config.rules[0].burst == config.rules[1].burst && RefillsWhenIdle(config.rules[0])
  {
    var live, key := LiveKeys(config), BuildKey(config.rules[0], qa);
    ExposableCreates(config, 0, qa);
    ExposableCreates(config, 1, qb);
    forall i, j, k | CreatorOf(config, live, i, k) && CreatorOf(config, live, j, k) ensures ToldApart(config, i, j) {
      assert 0 <= i < 2 && 0 <= j < 2;
    }
    CleanupInvisibleIff(config);
    assert Consistent(config) ==> SameParameters(config, 0, 1);
  }

  // ----- the shipped rules

  /** The rules of the repository's own configuration. */
  predicate Shipped(config: Config) {
    config.rules == [
      Rule("global-per-ip", "ip", "", 50, 100, true),
      Rule("api-per-ip", "ip", "/api/", 10, 20, true),
      Rule("auth-per-ip", "ip", "/auth/", 5, 10, true)]
  }

  lemma ShippedIdsAreClean(config: Config)
    requires Shipped(config)
    ensures ValidRules(config) && CleanIds(config)
  {
    assert |"global-per-ip"| == 13 && |"api-per-ip"| == 10 && |"auth-per-ip"| == 11;
  }

  /** Whatever is exempt, the clean-up never shows under the shipped rules, though they overlap. */
  lemma ShippedIsInvisible(config: Config)
    requires Shipped(config)
    ensures AlwaysInvisible(config)
  {
    ShippedIdsAreClean(config);
    CleanIdsAreConsistent(config);
    SlowIsInvisible(config);
  }

  /** Every request that a shipped rule matches can expose it, so the exact condition applies to them. */
  lemma ShippedIsExposable(config: Config, i: int, req: Request)
    requires Shipped(config) && Asked(config, i, req)
    ensures Exposable(config, i, req)
  {
    ShippedIdsAreClean(config);
    forall j, k | 0 <= j < k < |config.rules| && Matches(config.rules[j], req) && Matches(config.rules[k], req)
      ensures BuildKey(config.rules[j], req) != BuildKey(config.rules[k], req)
    {
      if BuildKey(config.rules[j], req) == BuildKey(config.rules[k], req) {
        CleanIdsTell(config, j, k, req, req);
      }
    }
    var pace := if i == 0 then 0 else if i == 1 then TOKEN / 50 else TOKEN / 10;
    assert Paced(config, i, req, pace);
  }
}
