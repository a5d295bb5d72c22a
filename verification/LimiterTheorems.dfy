/**
 * What the limiter promises over whole traces: the clean-up is invisible, and the admitted rate is
 * bounded.
 */
module LimiterTheorems {
  import opened Strings
  import opened TokenBucket
  import opened Limiter
  import opened LimiterCharging

  // ----- traces

  datatype Event = Ask(req: Request, at: int) | Clean(at: int)

  /** The limiter with the clean-up, or one that never forgets. */
  function Step(config: Config, buckets: Buckets, e: Event, forgets: bool): Buckets {
    match e
    case Ask(req, at) => Admit(config, buckets, req, at).0
    case Clean(at) => if forgets then Sweep(buckets, at) else buckets
  }

  /** The rule that denies the request of an event, if any. */
  function Answer(config: Config, buckets: Buckets, e: Event): Option<Rule> {
    match e
    case Ask(req, at) => Admit(config, buckets, req, at).1
    case Clean(_) => None
  }

  function Run(config: Config, buckets: Buckets, events: seq<Event>, forgets: bool): Buckets
    decreases |events|
  {
    if events == [] then buckets
    else Run(config, Step(config, buckets, events[0], forgets), events[1..], forgets)
  }

  function Answers(config: Config, buckets: Buckets, events: seq<Event>, forgets: bool): (answers: seq<Option<Rule>>)
    ensures |answers| == |events|
    decreases |events|
  {
    if events == [] then []
    else
      var rest := Answers(config, Step(config, buckets, events[0], forgets), events[1..], forgets);
      [Answer(config, buckets, events[0])] + rest
  }

  /** Time does not run backwards, and the trace lies between `start` and `end`. */
  predicate Ordered(events: seq<Event>, start: int, end: int) {
    if events == [] then start <= end
    else start <= events[0].at && Ordered(events[1..], events[0].at, end)
  }

  // ----- which rules create buckets

  ghost predicate ValidRules(config: Config) {
    forall rule <- config.rules | rule.enabled :: rule.rate >= 1 && rule.burst >= 0
  }

  /** The rule is one that the request is charged by, if it gets that far. */
  predicate Asked(config: Config, i: int, req: Request) {
    0 <= i < |config.rules| && Matches(config.rules[i], req) && !config.exempt(req.clientIP, req.path)
  }

  /** The buckets that some rule would fill with at least one token. */
  ghost function LiveKeys(config: Config): iset<string> {
    iset key: string | Live(config, key)
  }

  ghost predicate Live(config: Config, key: string) {
    exists i, req: Request :: Asked(config, i, req) && BuildKey(config.rules[i], req) == key && config.rules[i].burst >= 1
  }

  /** `live` holds all of them. */
  ghost predicate Covers(config: Config, live: iset<string>) {
    forall i, req: Request | Asked(config, i, req) && config.rules[i].burst >= 1 ::
      BuildKey(config.rules[i], req) in live
  }

  lemma LiveKeysCover(config: Config)
    ensures Covers(config, LiveKeys(config))
  {
    forall i, req: Request | Asked(config, i, req) && config.rules[i].burst >= 1
      ensures BuildKey(config.rules[i], req) in LiveKeys(config)
    {
      assert Live(config, BuildKey(config.rules[i], req));
    }
  }

  /**
   * The `i`-th rule can create a bucket for the request: no earlier matching rule uses that bucket,
   * and none of them denies every request.
   */
  ghost predicate Creates(config: Config, live: iset<string>, i: int, req: Request) {
    && Asked(config, i, req)
    && forall j | 0 <= j < i && Matches(config.rules[j], req) ::
         BuildKey(config.rules[j], req) != BuildKey(config.rules[i], req) && BuildKey(config.rules[j], req) in live
  }

  /** `key` is a bucket that the `i`-th rule can create. */
  ghost predicate CreatorOf(config: Config, live: iset<string>, i: int, key: string) {
    exists req: Request :: Creates(config, live, i, req) && BuildKey(config.rules[i], req) == key
  }

  lemma CreatorFacts(config: Config, live: iset<string>, i: int, key: string)
    requires ValidRules(config) && Covers(config, live) && CreatorOf(config, live, i, key)
    ensures 0 <= i < |config.rules| && config.rules[i].rate >= 1 && config.rules[i].burst >= 0
    ensures config.rules[i].burst >= 1 ==> key in live
  {
    var req: Request :| Creates(config, live, i, req) && BuildKey(config.rules[i], req) == key;
    assert config.rules[i] in config.rules;
  }

  /** The bucket of the rule refills while it is idle for longer than the clean-up interval. */
  predicate RefillsWhenIdle(rule: Rule) {
    rule.burst * TOKEN <= rule.rate * (INTERVAL + 1)
  }

  /** No bucket that is ever created holds more than five minutes, and the next nanosecond, of refill. */
  ghost predicate Slow(config: Config) {
    forall i, key | CreatorOf(config, LiveKeys(config), i, key) ::
      0 <= i < |config.rules| && RefillsWhenIdle(config.rules[i])
  }

  /** Rules that can create one bucket agree on its rate and burst. */
  ghost predicate Consistent(config: Config) {
    forall i, j, key | CreatorOf(config, LiveKeys(config), i, key) && CreatorOf(config, LiveKeys(config), j, key) ::
      SameParameters(config, i, j)
  }

  predicate SameParameters(config: Config, i: int, j: int) {
    && 0 <= i < |config.rules| && 0 <= j < |config.rules|
    && config.rules[i].rate == config.rules[j].rate && config.rules[i].burst == config.rules[j].burst
  }

  /** Rule ids are distinct and free of colons. */
  predicate CleanIds(config: Config) {
    && (forall rule <- config.rules :: ':' !in rule.id)
    && (forall i, j | 0 <= i < j < |config.rules| :: config.rules[i].id != config.rules[j].id)
  }

  /** A key tells the id of its rule when ids are free of colons. */
  lemma KeyTellsId(r1: Rule, q1: Request, r2: Rule, q2: Request)
    requires ':' !in r1.id && ':' !in r2.id && BuildKey(r1, q1) == BuildKey(r2, q2)
    ensures r1.id == r2.id
  {
    CutAt(r1.id, ':', KeySuffix(r1, q1));
    CutAt(r2.id, ':', KeySuffix(r2, q2));
    assert BuildKey(r1, q1)[3..] == r1.id + [':'] + KeySuffix(r1, q1);
    assert BuildKey(r2, q2)[3..] == r2.id + [':'] + KeySuffix(r2, q2);
  }

  /** With clean ids no two rules ever share a bucket. */
  lemma CleanIdsTell(config: Config, i: int, j: int, q1: Request, q2: Request)
    requires CleanIds(config) && 0 <= i < |config.rules| && 0 <= j < |config.rules|
    requires BuildKey(config.rules[i], q1) == BuildKey(config.rules[j], q2)
    ensures i == j
  {
    assert config.rules[i] in config.rules && config.rules[j] in config.rules;
    KeyTellsId(config.rules[i], q1, config.rules[j], q2);
  }

  lemma CleanIdsAreConsistent(config: Config)
    requires CleanIds(config)
    ensures Consistent(config)
  {
    var live := LiveKeys(config);
    forall i, j, key | CreatorOf(config, live, i, key) && CreatorOf(config, live, j, key)
      ensures SameParameters(config, i, j)
    {
      var q1: Request :| Creates(config, live, i, q1) && BuildKey(config.rules[i], q1) == key;
      var q2: Request :| Creates(config, live, j, q2) && BuildKey(config.rules[j], q2) == key;
      CleanIdsTell(config, i, j, q1, q2);
    }
  }

  // ----- states

  /** Which rates and bursts the bucket of a key may have. */
  type Owner = (string, int, int) -> bool

  predicate Owned(own: Owner, key: string, b: Bucket) {
    own(key, b.rate, b.burst)
  }

  /** `own` allows the parameters of every rule that can create the bucket; `live` covers what it allows. */
  ghost predicate Owning(config: Config, live: iset<string>, own: Owner) {
    && ValidRules(config)
    && (forall i, key | CreatorOf(config, live, i, key) ::
          0 <= i < |config.rules| && own(key, config.rules[i].rate, config.rules[i].burst))
    && (forall key, rate, burst | own(key, rate, burst) && burst >= 1 :: key in live)
  }

  ghost predicate Agreed(own: Owner) {
    forall key, r1, b1, r2, b2 | own(key, r1, b1) && own(key, r2, b2) :: r1 == r2 && b1 == b2
  }

  ghost predicate Refills(own: Owner) {
    forall key, rate, burst | own(key, rate, burst) :: burst * TOKEN <= rate * (INTERVAL + 1)
  }

  ghost predicate CreatedWith(config: Config, live: iset<string>, key: string, rate: int, burst: int) {
    exists i :: CreatorOf(config, live, i, key) && HasParameters(config, i, rate, burst)
  }

  predicate HasParameters(config: Config, i: int, rate: int, burst: int) {
    0 <= i < |config.rules| && config.rules[i].rate == rate && config.rules[i].burst == burst
  }

  /** The rates and bursts of the rules that can create the bucket. */
  ghost function Creators(config: Config): Owner {
    (key, rate, burst) => CreatedWith(config, LiveKeys(config), key, rate, burst)
  }

  lemma CreatorsOwn(config: Config)
    requires ValidRules(config)
    ensures Owning(config, LiveKeys(config), Creators(config))
    ensures Consistent(config) ==> Agreed(Creators(config))
    ensures Slow(config) ==> Refills(Creators(config))
  {
    var live, own := LiveKeys(config), Creators(config);
    forall i, key | CreatorOf(config, live, i, key)
      ensures 0 <= i < |config.rules| && own(key, config.rules[i].rate, config.rules[i].burst)
    {
      LiveKeysCover(config);
      CreatorFacts(config, live, i, key);
      assert HasParameters(config, i, config.rules[i].rate, config.rules[i].burst);
    }
    forall key, rate, burst | own(key, rate, burst) && burst >= 1 ensures key in live {
      LiveKeysCover(config);
      var i :| CreatorOf(config, live, i, key) && HasParameters(config, i, rate, burst);
      CreatorFacts(config, live, i, key);
    }
    if Consistent(config) {
      forall key, r1, b1, r2, b2 | own(key, r1, b1) && own(key, r2, b2) ensures r1 == r2 && b1 == b2 {
        var i :| CreatorOf(config, live, i, key) && HasParameters(config, i, r1, b1);
        var j :| CreatorOf(config, live, j, key) && HasParameters(config, j, r2, b2);
        assert SameParameters(config, i, j);
      }
    }
  }

  /** A bucket in a valid state, with the parameters of a rule that can create it. */
  ghost predicate GoodEntry(own: Owner, key: string, t: Tracked, now: int) {
    Valid(t.bucket, now) && t.bucket.last <= t.lastSeen <= now && Owned(own, key, t.bucket)
  }

  ghost predicate Good(own: Owner, buckets: Buckets, now: int) {
    forall key <- buckets :: GoodEntry(own, key, buckets[key], now)
  }

  lemma GoodLater(own: Owner, buckets: Buckets, now: int, later: int)
    requires Good(own, buckets, now) && now <= later
    ensures Good(own, buckets, later)
  {
  }

  /** The request has got past the first `i` rules: their buckets are there, and not hopeless. */
  ghost predicate GotPast(config: Config, live: iset<string>, i: nat, buckets: Buckets, req: Request)
    requires i <= |config.rules|
  {
    forall j | 0 <= j < i && Matches(config.rules[j], req) ::
      var key := BuildKey(config.rules[j], req); key in buckets && key in live
  }

  /** A rule that finds no bucket can create it. */
  lemma AbsentCreates(config: Config, live: iset<string>, i: nat, buckets: Buckets, req: Request)
    requires i < |config.rules| && Asked(config, i, req) && GotPast(config, live, i, buckets, req)
    requires BuildKey(config.rules[i], req) !in buckets
    ensures CreatorOf(config, live, i, BuildKey(config.rules[i], req))
  {
    assert Creates(config, live, i, req);
  }

  lemma RuleIsValid(config: Config, i: nat, req: Request)
    requires ValidRules(config) && i < |config.rules| && Matches(config.rules[i], req)
    ensures config.rules[i].rate >= 1 && config.rules[i].burst >= 0
  {
    assert config.rules[i] in config.rules;
  }

  /** The bucket a rule charges is valid and has the parameters of a rule that can create it. */
  lemma BucketForOwned(config: Config, live: iset<string>, own: Owner, i: nat, buckets: Buckets, req: Request, now: int)
    requires Owning(config, live, own) && Good(own, buckets, now)
    requires i < |config.rules| && Asked(config, i, req) && GotPast(config, live, i, buckets, req)
    ensures var key := BuildKey(config.rules[i], req);
      var b := BucketFor(buckets, key, config.rules[i], now);
      Valid(b, now) && Owned(own, key, b)
  {
    var key := BuildKey(config.rules[i], req);
    RuleIsValid(config, i, req);
    FullIsValid(config.rules[i], now);
    if key !in buckets {
      AbsentCreates(config, live, i, buckets, req);
    }
  }

  lemma OwnedTake(config: Config, live: iset<string>, own: Owner, key: string, b: Bucket, now: int)
    requires Owning(config, live, own) && Valid(b, now) && Owned(own, key, b)
    ensures var (after, ok) := Take(b, now);
      Valid(after, now) && Owned(own, key, after) && (ok ==> key in live)
  {
    TakeFacts(b, now);
    AvailLater(b, now, now);
  }

  /** What a charge leaves under its key. */
  function Charged(buckets: Buckets, key: string, rule: Rule, now: int): Tracked {
    Tracked(Take(BucketFor(buckets, key, rule, now), now).0, now)
  }

  lemma ChargedGood(config: Config, live: iset<string>, own: Owner, i: nat, buckets: Buckets, req: Request, now: int)
    requires Owning(config, live, own) && Good(own, buckets, now)
    requires i < |config.rules| && Asked(config, i, req) && GotPast(config, live, i, buckets, req)
    ensures var (key, rule) := (BuildKey(config.rules[i], req), config.rules[i]);
      && GoodEntry(own, key, Charged(buckets, key, rule, now), now)
      && (Charge(buckets, key, rule, now).1 ==> key in live)
  {
    var key := BuildKey(config.rules[i], req);
    var b := BucketFor(buckets, key, config.rules[i], now);
    BucketForOwned(config, live, own, i, buckets, req, now);
    OwnedTake(config, live, own, key, b, now);
    TakeLast(b, now);
  }

  lemma TakeLast(b: Bucket, now: int)
    requires b.last <= now
    ensures Take(b, now).0.last <= now
  {
  }

  lemma PutGood(own: Owner, buckets: Buckets, key: string, t: Tracked, now: int)
    requires Good(own, buckets, now) && GoodEntry(own, key, t, now)
    ensures Good(own, buckets[key := t], now)
  {
  }

  lemma PutPast(config: Config, live: iset<string>, i: nat, buckets: Buckets, t: Tracked, req: Request)
    requires i < |config.rules| && GotPast(config, live, i, buckets, req) && BuildKey(config.rules[i], req) in live
    ensures GotPast(config, live, i + 1, buckets[BuildKey(config.rules[i], req) := t], req)
  {
  }

  lemma ChargeGood(config: Config, live: iset<string>, own: Owner, i: nat, buckets: Buckets, req: Request, now: int)
    requires Owning(config, live, own) && Good(own, buckets, now)
    requires i < |config.rules| && Asked(config, i, req) && GotPast(config, live, i, buckets, req)
    ensures var (after, ok) := Charge(buckets, BuildKey(config.rules[i], req), config.rules[i], now);
      Good(own, after, now) && (ok ==> GotPast(config, live, i + 1, after, req))
  {
    var key := BuildKey(config.rules[i], req);
    var t := Charged(buckets, key, config.rules[i], now);
    ChargedGood(config, live, own, i, buckets, req, now);
    PutGood(own, buckets, key, t, now);
    if key in live {
      PutPast(config, live, i, buckets, t, req);
    }
  }

  /** The rules from the `i`-th on. */
  function From(config: Config, i: nat): seq<Rule>
    requires i <= |config.rules|
  {
    config.rules[i..]
  }

  lemma FromNext(config: Config, i: nat)
    requires i < |config.rules|
    ensures From(config, i) != [] && From(config, i)[0] == config.rules[i] && From(config, i)[1..] == From(config, i + 1)
  {
  }

  /** What the rules from the `i`-th on do with a request. */
  function AllowFrom(config: Config, i: nat, buckets: Buckets, req: Request, now: int): (Buckets, Option<Rule>)
    requires i <= |config.rules|
  {
    AllowRules(From(config, i), buckets, req, now)
  }

  lemma AllowEnds(config: Config, buckets: Buckets, req: Request, now: int)
    ensures AllowFrom(config, |config.rules|, buckets, req, now) == (buckets, None)
  {
  }

  lemma AllowSkips(config: Config, i: nat, buckets: Buckets, req: Request, now: int)
    requires i < |config.rules| && !Matches(config.rules[i], req)
    ensures AllowFrom(config, i, buckets, req, now) == AllowFrom(config, i + 1, buckets, req, now)
  {
    FromNext(config, i);
  }

  lemma AllowCharges(config: Config, i: nat, buckets: Buckets, req: Request, now: int)
    requires i < |config.rules| && Matches(config.rules[i], req)
    ensures var (after, ok) := Charge(buckets, BuildKey(config.rules[i], req), config.rules[i], now);
      AllowFrom(config, i, buckets, req, now)
        == if ok then AllowFrom(config, i + 1, after, req, now) else (after, Some(config.rules[i]))
  {
    FromNext(config, i);
  }

  lemma AdmitFrom(config: Config, buckets: Buckets, req: Request, now: int)
    requires !config.exempt(req.clientIP, req.path)
    ensures Admit(config, buckets, req, now) == AllowFrom(config, 0, buckets, req, now)
  {
    assert From(config, 0) == config.rules;
  }

  lemma {:induction false} RulesGood(config: Config, live: iset<string>, own: Owner, i: nat, buckets: Buckets, req: Request, now: int)
    requires Owning(config, live, own) && Good(own, buckets, now) && !config.exempt(req.clientIP, req.path)
    requires i <= |config.rules| && GotPast(config, live, i, buckets, req)
    ensures Good(own, AllowFrom(config, i, buckets, req, now).0, now)
    decreases |config.rules| - i
  {
    if i == |config.rules| {
      AllowEnds(config, buckets, req, now);
    } else if Matches(config.rules[i], req) {
      AllowCharges(config, i, buckets, req, now);
      ChargeGood(config, live, own, i, buckets, req, now);
      var (after, ok) := Charge(buckets, BuildKey(config.rules[i], req), config.rules[i], now);
      if ok {
        RulesGood(config, live, own, i + 1, after, req, now);
      }
    } else {
      AllowSkips(config, i, buckets, req, now);
      RulesGood(config, live, own, i + 1, buckets, req, now);
    }
  }

  lemma AdmitGood(config: Config, live: iset<string>, own: Owner, buckets: Buckets, req: Request, now: int)
    requires Owning(config, live, own) && Good(own, buckets, now)
    ensures Good(own, Admit(config, buckets, req, now).0, now)
  {
    if !config.exempt(req.clientIP, req.path) {
      RulesGood(config, live, own, 0, buckets, req, now);
      AdmitFrom(config, buckets, req, now);
    }
  }

  lemma StepGood(config: Config, live: iset<string>, own: Owner, buckets: Buckets, e: Event, forgets: bool, now: int)
    requires Owning(config, live, own) && Good(own, buckets, now) && now <= e.at
    ensures Good(own, Step(config, buckets, e, forgets), e.at)
  {
    GoodLater(own, buckets, now, e.at);
    if e.Ask? {
      AdmitGood(config, live, own, buckets, e.req, e.at);
    }
  }

  lemma {:induction false} RunGood(config: Config, live: iset<string>, own: Owner, buckets: Buckets, events: seq<Event>, forgets: bool, start: int, end: int)
    requires Owning(config, live, own) && Good(own, buckets, start)
    requires Ordered(events, start, end)
    ensures Good(own, Run(config, buckets, events, forgets), end)
    decreases |events|
  {
    if events == [] {
      GoodLater(own, buckets, start, end);
    } else {
      StepGood(config, live, own, buckets, events[0], forgets, start);
      RunGood(config, live, own, Step(config, buckets, events[0], forgets), events[1..], forgets, events[0].at, end);
    }
  }

  // ----- the clean-up is invisible

  predicate Alike(a: Bucket, b: Bucket, now: int) {
    a.rate == b.rate && a.burst == b.burst && Avail(a, now) == Avail(b, now)
  }

  predicate IsFull(b: Bucket, now: int) {
    Avail(b, now) == b.burst * TOKEN
  }

  /** The forgetful limiter agrees with the other on what is available, and has forgotten full buckets only. */
  ghost predicate Agree(own: Owner, f: Buckets, n: Buckets, now: int) {
    && Good(own, f, now) && Good(own, n, now)
    && (forall key <- f :: key in n && Alike(f[key].bucket, n[key].bucket, now))
    && (forall key <- n :: key !in f ==> IsFull(n[key].bucket, now))
  }

  lemma AlikeLater(a: Bucket, b: Bucket, now: int, later: int)
    requires Valid(a, now) && Valid(b, now) && Alike(a, b, now) && now <= later
    ensures Alike(a, b, later)
  {
    AvailLater(a, now, later);
    AvailLater(b, now, later);
  }

  lemma FullLater(b: Bucket, now: int, later: int)
    requires Valid(b, now) && now <= later && IsFull(b, now)
    ensures IsFull(b, later)
  {
    AvailLater(b, now, later);
  }

  lemma {:induction false} AgreeLater(own: Owner, f: Buckets, n: Buckets, now: int, later: int)
    requires Agree(own, f, n, now) && now <= later
    ensures Agree(own, f, n, later)
  {
    forall key <- f ensures key in n && Alike(f[key].bucket, n[key].bucket, later) {
      AlikeLater(f[key].bucket, n[key].bucket, now, later);
    }
    forall key <- n | key !in f ensures IsFull(n[key].bucket, later) {
      FullLater(n[key].bucket, now, later);
    }
  }

  /** What a sweep forgets is full. */
  lemma {:induction false} IdleFacts(config: Config, live: iset<string>, own: Owner, buckets: Buckets, key: string, now: int)
    requires Owning(config, live, own) && Refills(own) && Good(own, buckets, now)
    requires key in buckets && IsIdle(buckets[key], now)
    ensures IsFull(buckets[key].bucket, now)
  {
    IdleIsFull(buckets[key].bucket, now, INTERVAL + 1);
  }

  lemma {:induction false} SweepAgrees(config: Config, live: iset<string>, own: Owner, f: Buckets, n: Buckets, now: int)
    requires Owning(config, live, own) && Refills(own) && Agree(own, f, n, now)
    ensures Agree(own, Sweep(f, now), n, now)
  {
    forall key <- n | key !in Sweep(f, now) ensures IsFull(n[key].bucket, now) {
      if key in f {
        IdleFacts(config, live, own, f, key, now);
      }
    }
  }

  /** Where the forgetful limiter creates a bucket, the other one has a full one of the same kind, or none. */
  lemma CreatesAlike(config: Config, live: iset<string>, own: Owner, i: nat, f: Buckets, n: Buckets, req: Request, now: int)
    requires Owning(config, live, own) && Agreed(own) && Agree(own, f, n, now)
    requires i < |config.rules| && Asked(config, i, req) && GotPast(config, live, i, f, req)
    ensures var key := BuildKey(config.rules[i], req);
      Alike(BucketFor(f, key, config.rules[i], now), BucketFor(n, key, config.rules[i], now), now)
  {
    var key := BuildKey(config.rules[i], req);
    RuleIsValid(config, i, req);
    FullIsValid(config.rules[i], now);
    if key !in f && key in n {
      AbsentCreates(config, live, i, f, req);
    }
  }

  lemma AlikeTake(a: Bucket, b: Bucket, now: int)
    requires Valid(a, now) && Valid(b, now) && Alike(a, b, now)
    ensures Take(a, now).1 == Take(b, now).1 && Alike(Take(a, now).0, Take(b, now).0, now)
  {
    TakeFacts(a, now);
    TakeFacts(b, now);
  }

  lemma {:induction false} ChargeAgrees(config: Config, live: iset<string>, own: Owner, i: nat, f: Buckets, n: Buckets, req: Request, now: int)
    requires Owning(config, live, own) && Agreed(own) && Agree(own, f, n, now)
    requires i < |config.rules| && Asked(config, i, req) && GotPast(config, live, i, f, req)
    ensures var (key, rule) := (BuildKey(config.rules[i], req), config.rules[i]);
      && Charge(f, key, rule, now).1 == Charge(n, key, rule, now).1
      && Agree(own, Charge(f, key, rule, now).0, Charge(n, key, rule, now).0, now)
  {
    var key, rule := BuildKey(config.rules[i], req), config.rules[i];
    assert GotPast(config, live, i, n, req);
    BucketForOwned(config, live, own, i, f, req, now);
    BucketForOwned(config, live, own, i, n, req, now);
    CreatesAlike(config, live, own, i, f, n, req, now);
    AlikeTake(BucketFor(f, key, rule, now), BucketFor(n, key, rule, now), now);
    ChargeGood(config, live, own, i, f, req, now);
    ChargeGood(config, live, own, i, n, req, now);
  }

  lemma {:induction false} RulesAgree(config: Config, live: iset<string>, own: Owner, i: nat, f: Buckets, n: Buckets, req: Request, now: int)
    requires Owning(config, live, own) && Agreed(own) && Agree(own, f, n, now)
    requires !config.exempt(req.clientIP, req.path) && i <= |config.rules| && GotPast(config, live, i, f, req)
    ensures AllowFrom(config, i, f, req, now).1 == AllowFrom(config, i, n, req, now).1
    ensures Agree(own, AllowFrom(config, i, f, req, now).0, AllowFrom(config, i, n, req, now).0, now)
    decreases |config.rules| - i
  {
    if i == |config.rules| {
      AllowEnds(config, f, req, now);
      AllowEnds(config, n, req, now);
    } else if Matches(config.rules[i], req) {
      var key, rule := BuildKey(config.rules[i], req), config.rules[i];
      AllowCharges(config, i, f, req, now);
      AllowCharges(config, i, n, req, now);
      ChargeAgrees(config, live, own, i, f, n, req, now);
      ChargeGood(config, live, own, i, f, req, now);
      if Charge(f, key, rule, now).1 {
        RulesAgree(config, live, own, i + 1, Charge(f, key, rule, now).0, Charge(n, key, rule, now).0, req, now);
      }
    } else {
      AllowSkips(config, i, f, req, now);
      AllowSkips(config, i, n, req, now);
      RulesAgree(config, live, own, i + 1, f, n, req, now);
    }
  }

  lemma AdmitAgrees(config: Config, live: iset<string>, own: Owner, f: Buckets, n: Buckets, req: Request, now: int)
    requires Owning(config, live, own) && Agreed(own) && Agree(own, f, n, now)
    ensures Admit(config, f, req, now).1 == Admit(config, n, req, now).1
    ensures Agree(own, Admit(config, f, req, now).0, Admit(config, n, req, now).0, now)
  {
    if !config.exempt(req.clientIP, req.path) {
      RulesAgree(config, live, own, 0, f, n, req, now);
      AdmitFrom(config, f, req, now);
      AdmitFrom(config, n, req, now);
    }
  }

  lemma {:induction false} AgreeOverRuns(config: Config, live: iset<string>, own: Owner, f: Buckets, n: Buckets, events: seq<Event>, start: int, end: int)
    requires Owning(config, live, own) && Agreed(own) && Refills(own)
    requires Agree(own, f, n, start) && Ordered(events, start, end)
    ensures Answers(config, f, events, true) == Answers(config, n, events, false)
    decreases |events|
  {
    if events != [] {
      var e := events[0];
      AgreeLater(own, f, n, start, e.at);
      if e.Ask? {
        AdmitAgrees(config, live, own, f, n, e.req, e.at);
      } else {
        SweepAgrees(config, live, own, f, n, e.at);
      }
      AgreeOverRuns(config, live, own, Step(config, f, e, true), Step(config, n, e, false), events[1..], e.at, end);
    }
  }

  /**
   * The limiter that forgets idle buckets answers every trace like one that never forgets, if no
   * bucket holds more than five minutes of refill and rules that can create one bucket agree on it.
   */
  lemma CleanupIsInvisible(config: Config, events: seq<Event>, start: int, end: int)
    requires ValidRules(config) && Consistent(config) && Slow(config)
    requires Ordered(events, start, end)
    ensures Answers(config, map[], events, true) == Answers(config, map[], events, false)
  {
    CreatorsOwn(config);
    AgreeOverRuns(config, LiveKeys(config), Creators(config), map[], map[], events, start, end);
  }

  // ----- the rate bound

  /** How many of the charges of one request took a token from the bucket `key`. */
  function Charges(config: Config, i: nat, buckets: Buckets, req: Request, now: int, key: string): nat
    requires i <= |config.rules|
    decreases |config.rules| - i
  {
    if i == |config.rules| then 0
    else if !Matches(config.rules[i], req) then Charges(config, i + 1, buckets, req, now, key)
    else
      var (charged, ok) := Charge(buckets, BuildKey(config.rules[i], req), config.rules[i], now);
      if !ok then 0
      else (if BuildKey(config.rules[i], req) == key then 1 else 0) + Charges(config, i + 1, charged, req, now, key)
  }

  function ChargesOf(config: Config, buckets: Buckets, e: Event, key: string): nat {
    if e.Ask? && !config.exempt(e.req.clientIP, e.req.path) then Charges(config, 0, buckets, e.req, e.at, key) else 0
  }

  /** The tokens taken from the bucket `key` over a trace. */
  function Taken(config: Config, buckets: Buckets, events: seq<Event>, key: string): nat
    decreases |events|
  {
    if events == [] then 0
    else
      ChargesOf(config, buckets, events[0], key)
      + Taken(config, Step(config, buckets, events[0], true), events[1..], key)
  }

  /** A rate and a burst that no rule that can create the bucket exceeds, and that refill while idle. */
  ghost predicate Bounds(own: Owner, key: string, rate: int, burst: int) {
    && rate >= 0 && 0 <= burst * TOKEN <= rate * (INTERVAL + 1)
    && forall r, b | own(key, r, b) :: r <= rate && b <= burst
  }

  function Entry(buckets: Buckets, key: string): Option<Tracked> {
    if key in buckets then Some(buckets[key]) else None
  }

  /**
   * `v` units are an allowance for a bucket: at least what it holds, full when there is no bucket,
   * and refilled since it was last seen.
   */
  ghost predicate Allowance(entry: Option<Tracked>, now: int, rate: int, burst: int, v: int) {
    && 0 <= v <= burst * TOKEN
    && match entry
       case None => v == burst * TOKEN
       case Some(t) => Avail(t.bucket, now) <= v && (v == burst * TOKEN || v >= Gain(rate, now - t.lastSeen))
  }

  /** The units gained in some nanoseconds, counted one by one. */
  function Gain(rate: int, elapsed: int): int
    decreases elapsed
  {
    if elapsed <= 0 then 0 else rate + Gain(rate, elapsed - 1)
  }

  lemma {:induction false} GainIs(rate: int, elapsed: int)
    requires elapsed >= 0
    ensures Gain(rate, elapsed) == rate * elapsed
    decreases elapsed
  {
    if elapsed > 0 {
      GainIs(rate, elapsed - 1);
    }
  }

  function Refilled(v: int, rate: int, burst: int, elapsed: int): int {
    if v + Gain(rate, elapsed) > burst * TOKEN then burst * TOKEN else v + Gain(rate, elapsed)
  }

  lemma OwnerWithin(own: Owner, key: string, b: Bucket, rate: int, burst: int)
    requires Owned(own, key, b) && Bounds(own, key, rate, burst)
    ensures b.rate <= rate && b.burst <= burst
  {
  }

  lemma MulRight(a: int, b: int, x: int)
    requires a <= b && x >= 0
    ensures a * x <= b * x
  {
  }

  lemma RefilledBounds(v: int, rate: int, burst: int, elapsed: int)
    requires rate >= 0 && elapsed >= 0 && 0 <= v <= burst * TOKEN
    ensures v <= Refilled(v, rate, burst, elapsed) <= burst * TOKEN
    ensures Refilled(v, rate, burst, elapsed) <= v + Gain(rate, elapsed)
  {
    GainIs(rate, elapsed);
    MulMono(rate, 0, elapsed);
  }

  /** Time refills the allowance at the rate, up to the burst. */
  lemma AllowanceLater(t: Tracked, now: int, later: int, rate: int, burst: int, v: int)
    requires Valid(t.bucket, now) && t.bucket.rate <= rate && t.bucket.burst <= burst && t.lastSeen <= now <= later
    requires Allowance(Some(t), now, rate, burst, v)
    ensures Allowance(Some(t), later, rate, burst, Refilled(v, rate, burst, later - now))
  {
    RefilledBounds(v, rate, burst, later - now);
    AvailLater(t.bucket, now, later);
    MulRight(t.bucket.rate, rate, later - now);
    GainIs(rate, later - now);
    GainSplit(rate, t.lastSeen, now, later);
  }

  lemma GainSplit(rate: int, x: int, y: int, z: int)
    requires x <= y <= z
    ensures Gain(rate, z - x) == Gain(rate, y - x) + Gain(rate, z - y)
  {
    GainIs(rate, z - x);
    GainIs(rate, y - x);
    GainIs(rate, z - y);
    MulSplit(rate, x, y, z);
  }

  lemma EntryLater(own: Owner, buckets: Buckets, key: string, now: int, later: int, rate: int, burst: int, v: int)
    requires Good(own, buckets, now) && Bounds(own, key, rate, burst) && now <= later
    requires Allowance(Entry(buckets, key), now, rate, burst, v)
    ensures Allowance(Entry(buckets, key), later, rate, burst, Refilled(v, rate, burst, later - now))
    ensures Refilled(v, rate, burst, later - now) <= v + Gain(rate, later - now)
  {
    RefilledBounds(v, rate, burst, later - now);
    if key in buckets {
      OwnerWithin(own, key, buckets[key].bucket, rate, burst);
      AllowanceLater(buckets[key], now, later, rate, burst, v);
    }
  }

  /** A bucket is idle long enough to be forgotten only when its allowance is full again. */
  lemma AllowanceIdle(t: Tracked, now: int, rate: int, burst: int, v: int)
    requires rate >= 0 && burst * TOKEN <= rate * (INTERVAL + 1) && IsIdle(t, now)
    requires Allowance(Some(t), now, rate, burst, v)
    ensures Allowance(None, now, rate, burst, v)
  {
    GainIs(rate, now - t.lastSeen);
    MulMono(rate, INTERVAL + 1, now - t.lastSeen);
  }

  lemma EntrySwept(buckets: Buckets, key: string, now: int, rate: int, burst: int, v: int)
    requires rate >= 0 && burst * TOKEN <= rate * (INTERVAL + 1)
    requires Allowance(Entry(buckets, key), now, rate, burst, v)
    ensures Allowance(Entry(Sweep(buckets, now), key), now, rate, burst, v)
  {
    if key in buckets && IsIdle(buckets[key], now) {
      AllowanceIdle(buckets[key], now, rate, burst, v);
    }
  }

  /** A charge lowers the allowance by what it takes. */
  lemma AllowanceTake(b: Bucket, now: int, rate: int, burst: int, v: int)
    requires Valid(b, now) && Avail(b, now) <= v <= burst * TOKEN
    ensures var (after, ok) := Take(b, now);
      Allowance(Some(Tracked(after, now)), now, rate, burst, v - (if ok then TOKEN else 0))
  {
    TakeFacts(b, now);
    AvailLater(b, now, now);
  }

  lemma AllowanceCharged(config: Config, live: iset<string>, own: Owner, i: nat, buckets: Buckets, req: Request, now: int,
                         rate: int, burst: int, v: int)
    requires Owning(config, live, own) && Good(own, buckets, now)
    requires i < |config.rules| && Asked(config, i, req) && GotPast(config, live, i, buckets, req)
    requires var key := BuildKey(config.rules[i], req);
      Bounds(own, key, rate, burst) && Allowance(Entry(buckets, key), now, rate, burst, v)
    ensures var (key, rule) := (BuildKey(config.rules[i], req), config.rules[i]);
      Allowance(Some(Charged(buckets, key, rule, now)), now, rate, burst,
                v - (if Charge(buckets, key, rule, now).1 then TOKEN else 0))
  {
    var key := BuildKey(config.rules[i], req);
    var b := BucketFor(buckets, key, config.rules[i], now);
    BucketForOwned(config, live, own, i, buckets, req, now);
    OwnerWithin(own, key, b, rate, burst);
    AvailLater(b, now, now);
    AllowanceTake(b, now, rate, burst, v);
  }

  /** What a charge of the `i`-th rule takes from the bucket `key`. */
  function TakenBy(config: Config, i: nat, buckets: Buckets, req: Request, now: int, key: string): nat
    requires i < |config.rules|
  {
    var (at, rule) := (BuildKey(config.rules[i], req), config.rules[i]);
    if Charge(buckets, at, rule, now).1 && at == key then 1 else 0
  }

  lemma ChargePuts(buckets: Buckets, key: string, rule: Rule, now: int)
    ensures Charge(buckets, key, rule, now).0 == buckets[key := Charged(buckets, key, rule, now)]
  {
  }

  lemma EntryPut(buckets: Buckets, at: string, t: Tracked, key: string, now: int, rate: int, burst: int, v: int, took: int)
    requires Allowance(Entry(buckets, key), now, rate, burst, v)
    requires if at == key then Allowance(Some(t), now, rate, burst, v - took) else took == 0
    ensures Allowance(Entry(buckets[at := t], key), now, rate, burst, v - took)
  {
    assert Entry(buckets[at := t], key) == if at == key then Some(t) else Entry(buckets, key);
  }

  lemma EntryCharged(config: Config, live: iset<string>, own: Owner, i: nat, buckets: Buckets, req: Request, now: int,
                     key: string, rate: int, burst: int, v: int)
    requires Owning(config, live, own) && Good(own, buckets, now) && Bounds(own, key, rate, burst)
    requires i < |config.rules| && Asked(config, i, req) && GotPast(config, live, i, buckets, req)
    requires Allowance(Entry(buckets, key), now, rate, burst, v)
    ensures var (at, rule) := (BuildKey(config.rules[i], req), config.rules[i]);
      Allowance(Entry(buckets[at := Charged(buckets, at, rule, now)], key), now, rate, burst,
                v - TakenBy(config, i, buckets, req, now, key) * TOKEN)
  {
    var at, rule := BuildKey(config.rules[i], req), config.rules[i];
    var took := TakenBy(config, i, buckets, req, now, key) * TOKEN;
    if at == key {
      AllowanceCharged(config, live, own, i, buckets, req, now, rate, burst, v);
    }
    EntryPut(buckets, at, Charged(buckets, at, rule, now), key, now, rate, burst, v, took);
  }

  lemma {:induction false} RulesAllowance(config: Config, live: iset<string>, own: Owner, i: nat, buckets: Buckets, req: Request, now: int,
                                          key: string, rate: int, burst: int, v: int)
    requires Owning(config, live, own) && Good(own, buckets, now) && Bounds(own, key, rate, burst)
    requires !config.exempt(req.clientIP, req.path) && i <= |config.rules| && GotPast(config, live, i, buckets, req)
    requires Allowance(Entry(buckets, key), now, rate, burst, v)
    ensures Allowance(Entry(AllowFrom(config, i, buckets, req, now).0, key), now, rate, burst,
                      v - Charges(config, i, buckets, req, now, key) * TOKEN)
    decreases |config.rules| - i
  {
    if i == |config.rules| {
      AllowEnds(config, buckets, req, now);
      assert Charges(config, i, buckets, req, now, key) == 0;
    } else if Matches(config.rules[i], req) {
      var at, rule := BuildKey(config.rules[i], req), config.rules[i];
      var put := buckets[at := Charged(buckets, at, rule, now)];
      var left := v - TakenBy(config, i, buckets, req, now, key) * TOKEN;
      AllowCharges(config, i, buckets, req, now);
      ChargePuts(buckets, at, rule, now);
      EntryCharged(config, live, own, i, buckets, req, now, key, rate, burst, v);
      if Charge(buckets, at, rule, now).1 {
        ChargeGood(config, live, own, i, buckets, req, now);
        RulesAllowance(config, live, own, i + 1, put, req, now, key, rate, burst, left);
        var more := left - Charges(config, i + 1, put, req, now, key) * TOKEN;
        SameAllowance(Entry(AllowFrom(config, i + 1, put, req, now).0, key),
                      Entry(AllowFrom(config, i, buckets, req, now).0, key), now, rate, burst,
                      more, v - Charges(config, i, buckets, req, now, key) * TOKEN);
      } else {
        SameAllowance(Entry(put, key), Entry(AllowFrom(config, i, buckets, req, now).0, key), now, rate, burst,
                      left, v - Charges(config, i, buckets, req, now, key) * TOKEN);
      }
    } else {
      AllowSkips(config, i, buckets, req, now);
      RulesAllowance(config, live, own, i + 1, buckets, req, now, key, rate, burst, v);
    }
  }

  lemma SameAllowance(e1: Option<Tracked>, e2: Option<Tracked>, now: int, rate: int, burst: int, v1: int, v2: int)
    requires e1 == e2 && v1 == v2 && Allowance(e1, now, rate, burst, v1)
    ensures Allowance(e2, now, rate, burst, v2)
  {
  }

  lemma StepAllowance(config: Config, live: iset<string>, own: Owner, buckets: Buckets, e: Event, key: string, rate: int, burst: int, v: int)
    requires Owning(config, live, own) && Good(own, buckets, e.at) && Bounds(own, key, rate, burst)
    requires Allowance(Entry(buckets, key), e.at, rate, burst, v)
    ensures Allowance(Entry(Step(config, buckets, e, true), key), e.at, rate, burst,
                      v - ChargesOf(config, buckets, e, key) * TOKEN)
  {
    if e.Clean? {
      EntrySwept(buckets, key, e.at, rate, burst, v);
    } else if !config.exempt(e.req.clientIP, e.req.path) {
      RulesAllowance(config, live, own, 0, buckets, e.req, e.at, key, rate, burst, v);
      AdmitFrom(config, buckets, e.req, e.at);
    }
  }

  /** Over a window, the tokens taken stay within the allowance at its start plus the refill. */
  lemma {:induction false} TakenWithin(config: Config, live: iset<string>, own: Owner, buckets: Buckets, events: seq<Event>, start: int, end: int,
                                       key: string, rate: int, burst: int, v: int)
    requires Owning(config, live, own) && Good(own, buckets, start) && Bounds(own, key, rate, burst)
    requires Ordered(events, start, end) && Allowance(Entry(buckets, key), start, rate, burst, v)
    ensures start <= end && Taken(config, buckets, events, key) * TOKEN <= v + Gain(rate, end - start)
    decreases |events|
  {
    if events == [] {
      GainIs(rate, end - start);
      MulMono(rate, 0, end - start);
    } else {
      var e := events[0];
      var v1 := Refilled(v, rate, burst, e.at - start);
      var v2 := v1 - ChargesOf(config, buckets, e, key) * TOKEN;
      EntryLater(own, buckets, key, start, e.at, rate, burst, v);
      GoodLater(own, buckets, start, e.at);
      StepAllowance(config, live, own, buckets, e, key, rate, burst, v1);
      StepGood(config, live, own, buckets, e, true, start);
      TakenWithin(config, live, own, Step(config, buckets, e, true), events[1..], e.at, end, key, rate, burst, v2);
      GainSplit(rate, start, e.at, end);
      WindowAdds(ChargesOf(config, buckets, e, key), Taken(config, Step(config, buckets, e, true), events[1..], key),
                 v, v1, Gain(rate, e.at - start), Gain(rate, end - e.at));
    }
  }

  lemma WindowAdds(first: nat, rest: nat, v: int, v1: int, g1: int, g2: int)
    requires v1 <= v + g1 && rest * TOKEN <= v1 - first * TOKEN + g2
    ensures (first + rest) * TOKEN <= v + (g1 + g2)
  {
  }

  /** Every reachable state has an allowance. */
  lemma {:induction false} RunAllowance(config: Config, live: iset<string>, own: Owner, buckets: Buckets, events: seq<Event>, start: int, end: int,
                                        key: string, rate: int, burst: int, v: int) returns (w: int)
    requires Owning(config, live, own) && Good(own, buckets, start) && Bounds(own, key, rate, burst)
    requires Ordered(events, start, end) && Allowance(Entry(buckets, key), start, rate, burst, v)
    ensures Allowance(Entry(Run(config, buckets, events, true), key), end, rate, burst, w)
    decreases |events|
  {
    if events == [] {
      EntryLater(own, buckets, key, start, end, rate, burst, v);
      w := Refilled(v, rate, burst, end - start);
    } else {
      var e := events[0];
      var v1 := Refilled(v, rate, burst, e.at - start);
      EntryLater(own, buckets, key, start, e.at, rate, burst, v);
      GoodLater(own, buckets, start, e.at);
      StepAllowance(config, live, own, buckets, e, key, rate, burst, v1);
      StepGood(config, live, own, buckets, e, true, start);
      w := RunAllowance(config, live, own, Step(config, buckets, e, true), events[1..], e.at, end, key, rate, burst,
                        v1 - ChargesOf(config, buckets, e, key) * TOKEN);
    }
  }

  lemma WindowBound(config: Config, live: iset<string>, own: Owner, before: seq<Event>, window: seq<Event>,
                    begin: int, start: int, end: int, key: string, rate: int, burst: int)
    requires Owning(config, live, own) && Bounds(own, key, rate, burst)
    requires Ordered(before, begin, start) && Ordered(window, start, end)
    ensures start <= end
    ensures Taken(config, Run(config, map[], before, true), window, key) * TOKEN
      <= burst * TOKEN + rate * (end - start)
  {
    RunGood(config, live, own, map[], before, true, begin, start);
    var state := Run(config, map[], before, true);
    var v := RunAllowance(config, live, own, map[], before, begin, start, key, rate, burst, burst * TOKEN);
    TakenWithin(config, live, own, state, window, start, end, key, rate, burst, v);
    WithinGain(Taken(config, state, window, key) * TOKEN, burst * TOKEN, rate, end - start);
  }

  lemma WithinGain(taken: int, full: int, rate: int, elapsed: int)
    requires elapsed >= 0 && taken <= full + Gain(rate, elapsed)
    ensures taken <= full + rate * elapsed
  {
    GainIs(rate, elapsed);
  }

  /**
   * For every bucket, every trace and every window of it, at most `burst + rate * T` charges are
   * admitted in a window of length `T`: refills, denials, creation and clean-up included, and
   * whichever of the rules that share the bucket creates it.
   */
  lemma RateBound(config: Config, before: seq<Event>, window: seq<Event>, begin: int, start: int, end: int,
                  key: string, rate: int, burst: int)
    requires ValidRules(config) && Bounds(Creators(config), key, rate, burst)
    requires Ordered(before, begin, start) && Ordered(window, start, end)
    ensures var state := Run(config, map[], before, true);
      Taken(config, state, window, key) * TOKEN <= burst * TOKEN + rate * (end - start)
  {
    CreatorsOwn(config);
    WindowBound(config, LiveKeys(config), Creators(config), before, window, begin, start, end, key, rate, burst);
  }
}
