/**
 * Runs worth knowing, under any limits: requests with one key share an entry or an answer, and a
 * flight outlives a purge.
 */
module CacheFillWitness {
  import opened Strings
  import opened Http
  import opened CacheFill
  import opened CacheFillSafety
  import opened CacheFillHistory
  import opened CacheFillPurge
  import L = Lru

  lemma {:induction false} RunOneMore(rules: Rules, s: State, steps: seq<Step>, step: Step)
    requires s.cache.maxEntries >= 1 && CanRun(rules, s, steps)
    requires Enabled(Run(rules, s, steps), step)
    ensures CanRun(rules, s, steps + [step])
    ensures Run(rules, s, steps + [step]) == Next(rules, Run(rules, s, steps), step)
    decreases |steps|
  {
    if steps == [] {
      assert [step][1..] == [] && steps + [step] == [step];
      assert CanRun(rules, Next(rules, s, step), []);
    } else {
      assert (steps + [step])[1..] == steps[1..] + [step];
      RunOneMore(rules, Next(rules, s, steps[0]), steps[1..], step);
    }
  }

  /** Steps lead from reachable states to reachable states. */
  lemma ReachableNext(rules: Rules, s: State, step: Step)
    requires Reachable(rules, s) && s.cache.maxEntries >= 1 && Enabled(s, step)
    ensures Reachable(rules, Next(rules, s, step))
  {
    var maxEntries: int, maxBytes: int, now: int, steps: seq<Step> :|
      && maxEntries >= 1 && maxBytes >= 0
      && CanRun(rules, Init(maxEntries, maxBytes, now), steps)
      && s == Run(rules, Init(maxEntries, maxBytes, now), steps);
    RunOneMore(rules, Init(maxEntries, maxBytes, now), steps, step);
    assert CanRun(rules, Init(maxEntries, maxBytes, now), steps + [step]);
  }

  lemma ReachableInit(rules: Rules, maxEntries: int, maxBytes: int, now: int)
    requires maxEntries >= 1 && maxBytes >= 0
    ensures Reachable(rules, Init(maxEntries, maxBytes, now))
  {
    var s := Init(maxEntries, maxBytes, now);
    assert CanRun(rules, s, []) && Run(rules, s, []) == s;
  }

  /** The limits the cache of a state was made with. */
  predicate Within(s: State, maxEntries: int, maxBytes: int) {
    maxEntries >= 1 && s.cache.maxEntries == maxEntries && s.cache.maxBytes == maxBytes
  }

  /** A first request of a run goes all the way to the origin. */
  lemma FirstFetch(rules: Rules, maxEntries: int, maxBytes: int, now: int, req: Request) returns (s: State)
    requires maxEntries >= 1 && maxBytes >= 0 && !rules.bypasses(req)
    ensures Reachable(rules, s) && Within(s, maxEntries, maxBytes) && s.now == now
    ensures s.procs == map[0 := Proc(req, rules.keyOf(req), Fetching)]
    ensures s.flights == map[rules.keyOf(req) := 0] && s.results == map[] && s.cache.items == []
  {
    var key := rules.keyOf(req);
    var s0 := Init(maxEntries, maxBytes, now);
    ReachableInit(rules, maxEntries, maxBytes, now);
    var s1 := DoArrive(rules, s0, 0, req);
    ReachableNext(rules, s0, Arrive(0, req));
    assert s1.procs == map[0 := Proc(req, key, Arrived)];
    var s2 := FirstBegin(rules, s1, req);
    var s3 := DoEnter(s2, 0);
    ReachableNext(rules, s2, Enter(0));
    assert s3.procs == map[0 := Proc(req, key, Rechecking)] && s3.flights == map[key := 0];
    s := FirstRecheck(rules, s3, req);
  }

  lemma FirstBegin(rules: Rules, s1: State, req: Request) returns (s2: State)
    requires Reachable(rules, s1) && s1.cache.maxEntries >= 1 && !rules.bypasses(req)
    requires s1.procs == map[0 := Proc(req, rules.keyOf(req), Arrived)] && s1.cache.items == []
    ensures Reachable(rules, s2) && Within(s2, s1.cache.maxEntries, s1.cache.maxBytes) && s2.now == s1.now
    ensures s2.procs == map[0 := Proc(req, rules.keyOf(req), Missed)] && s2.cache.items == []
    ensures s2.flights == s1.flights && s2.results == s1.results
  {
    s2 := DoBegin(rules, s1, 0);
    ReachableNext(rules, s1, Begin(0));
    L.GetMisses(s1.cache, rules.keyOf(req), s1.now);
  }

  lemma FirstRecheck(rules: Rules, s3: State, req: Request) returns (s4: State)
    requires Reachable(rules, s3) && s3.cache.maxEntries >= 1
    requires s3.procs == map[0 := Proc(req, rules.keyOf(req), Rechecking)] && s3.cache.items == []
    ensures Reachable(rules, s4) && Within(s4, s3.cache.maxEntries, s3.cache.maxBytes) && s4.now == s3.now
    ensures s4.procs == map[0 := Proc(req, rules.keyOf(req), Fetching)] && s4.cache.items == []
    ensures s4.flights == s3.flights && s4.results == s3.results
  {
    s4 := DoRecheck(s3, 0);
    ReachableNext(rules, s3, Recheck(0));
    L.GetMisses(s3.cache, rules.keyOf(req), s3.now);
  }

  /** A storable answer is about to be stored. */
  lemma FirstAnswer(rules: Rules, maxEntries: int, maxBytes: int, now: int, req: Request, origin: Origin)
    returns (s: State)
    requires maxEntries >= 1 && maxBytes >= 0
    requires !rules.bypasses(req) && origin.Reply? && rules.storable(origin.status, origin.headers)
    ensures Reachable(rules, s) && Within(s, maxEntries, maxBytes) && s.now == now
    ensures var key := rules.keyOf(req);
      s.procs == map[0 := Proc(req, key, Storing(Stamped(rules, req, key, origin, now)))]
    ensures |s.log| > 0 && s.log[|s.log| - 1] == Replied(0, req, origin, now)
  {
    var s4 := FirstFetch(rules, maxEntries, maxBytes, now, req);
    var s5 := DoAnswer(s4, 0, origin);
    ReachableNext(rules, s4, Answer(0, origin));
    s := DoDecide(rules, s5, 0);
    ReachableNext(rules, s5, Decide(0));
  }

  /** And then it is in the cache. */
  lemma FirstStore(rules: Rules, maxEntries: int, maxBytes: int, now: int, req: Request, origin: Origin)
    returns (s: State)
    requires maxEntries >= 1 && maxBytes >= 0
    requires !rules.bypasses(req) && origin.Reply? && rules.storable(origin.status, origin.headers)
    ensures Reachable(rules, s) && Within(s, maxEntries, maxBytes) && s.now == now
    ensures s.procs.Keys == {0} && s.procs[0].req == req && HoldsFrom(s, rules.keyOf(req), 0)
    ensures L.Find(s.cache.items, rules.keyOf(req)) == Some(Stamped(rules, req, rules.keyOf(req), origin, now))
  {
    var s6 := FirstAnswer(rules, maxEntries, maxBytes, now, req, origin);
    ReachableInv(rules, s6);
    s := DoStore(s6, 0);
    StoreHolds(s6, 0);
    ReachableNext(rules, s6, Store(0));
  }

  /**
   * Two requests with one key share one entry: after the first has been stored, the second is
   * answered with it. With the proxy's keys the first can be a HEAD and the second a GET.
   */
  lemma SharedEntry(rules: Rules, maxEntries: int, maxBytes: int, now: int, first: Request, second: Request,
                    origin: Origin) returns (s: State)
    requires maxEntries >= 1 && maxBytes >= 0
    requires !rules.bypasses(first) && !rules.bypasses(second) && rules.keyOf(first) == rules.keyOf(second)
    requires origin.Reply? && rules.storable(origin.status, origin.headers)
    requires rules.ttlOf(first.path, origin.headers) >= 0
    ensures Reachable(rules, s) && Within(s, maxEntries, maxBytes) && 1 in s.procs && s.procs[1].req == second
    ensures s.procs[1].stage == Done(Hit(Stamped(rules, first, rules.keyOf(first), origin, now)), None)
  {
    var s7 := FirstStore(rules, maxEntries, maxBytes, now, first, origin);
    var s8 := DoArrive(rules, s7, 1, second);
    ReachableNext(rules, s7, Arrive(1, second));
    s := DoBegin(rules, s8, 1);
    ReachableNext(rules, s8, Begin(1));
    L.GetHits(s8.cache, rules.keyOf(second), now, Stamped(rules, first, rules.keyOf(first), origin, now));
  }

  /**
   * An entry lives as long as its lifetime and no longer: a second request with its key that comes
   * `elapsed` after the store is a hit exactly if the lifetime has not passed.
   */
  lemma EntryExpires(rules: Rules, maxEntries: int, maxBytes: int, now: int, first: Request, second: Request,
                     origin: Origin, elapsed: nat) returns (s: State)
    requires maxEntries >= 1 && maxBytes >= 0
    requires !rules.bypasses(first) && !rules.bypasses(second) && rules.keyOf(first) == rules.keyOf(second)
    requires origin.Reply? && rules.storable(origin.status, origin.headers)
    ensures Reachable(rules, s) && Within(s, maxEntries, maxBytes) && s.now == now + elapsed
    ensures 1 in s.procs && s.procs[1].req == second
    ensures s.procs[1].stage
      == if elapsed <= rules.ttlOf(first.path, origin.headers)
         then Done(Hit(Stamped(rules, first, rules.keyOf(first), origin, now)), None) else Missed
  {
    var entry := Stamped(rules, first, rules.keyOf(first), origin, now);
    var s7 := FirstStore(rules, maxEntries, maxBytes, now, first, origin);
    var s8 := Next(rules, s7, Tick(elapsed));
    ReachableNext(rules, s7, Tick(elapsed));
    var s9 := DoArrive(rules, s8, 1, second);
    ReachableNext(rules, s8, Arrive(1, second));
    s := DoBegin(rules, s9, 1);
    ReachableNext(rules, s9, Begin(1));
    if elapsed <= entry.ttl {
      L.GetHits(s9.cache, rules.keyOf(second), s9.now, entry);
    } else {
      L.GetExpires(s9.cache, rules.keyOf(second), s9.now, entry);
    }
  }

  /**
   * A purge does not stop a flight: what the origin answered before the purge can be cached after
   * it. What a purge promises is about stores, not about fetches.
   */
  lemma FillAfterPurge(rules: Rules, maxEntries: int, maxBytes: int, now: int, req: Request, origin: Origin)
    returns (s: State, i: nat, j: nat)
    requires maxEntries >= 1 && maxBytes >= 0
    requires !rules.bypasses(req) && origin.Reply? && rules.storable(origin.status, origin.headers)
    ensures Reachable(rules, s) && Within(s, maxEntries, maxBytes) && i < j < |s.log|
    ensures s.log[i] == Replied(0, req, origin, now) && s.log[j].Dropped? && s.log[j].cause == Cause.Purged
    ensures L.Find(s.cache.items, rules.keyOf(req)) == Some(Stamped(rules, req, rules.keyOf(req), origin, now))
  {
    var s6 := FirstAnswer(rules, maxEntries, maxBytes, now, req, origin);
    var s7 := AfterPurge(rules, s6);
    s := AfterStore(rules, s7, 0);
    i, j := |s6.log| - 1, |s6.log|;
  }

  /** A purge leaves the requests alone and notes what it dropped. */
  lemma AfterPurge(rules: Rules, s: State) returns (s': State)
    requires Reachable(rules, s) && s.cache.maxEntries >= 1
    ensures Reachable(rules, s') && Within(s', s.cache.maxEntries, s.cache.maxBytes) && L.Valid(s'.cache)
    ensures s'.procs == s.procs && |s'.log| == |s.log| + 1
    ensures forall i | 0 <= i < |s.log| :: s'.log[i] == s.log[i]
    ensures s'.log[|s.log|].Dropped? && s'.log[|s.log|].cause == Cause.Purged
  {
    s' := DoAdmin(s, PurgeAll);
    ReachableNext(rules, s, Admin(PurgeAll));
    ReachableInv(rules, s');
  }

  /** A store is a step that keeps the log and leaves its entry in the cache. */
  lemma AfterStore(rules: Rules, s: State, id: nat) returns (s': State)
    requires Reachable(rules, s) && L.Valid(s.cache) && id in s.procs && s.procs[id].stage.Storing?
    ensures Reachable(rules, s') && Within(s', s.cache.maxEntries, s.cache.maxBytes)
    ensures |s.log| <= |s'.log| && forall i | 0 <= i < |s.log| :: s'.log[i] == s.log[i]
    ensures L.Find(s'.cache.items, s.procs[id].key) == Some(s.procs[id].stage.entry)
  {
    s' := DoStore(s, id);
    ReachableNext(rules, s, Store(id));
    L.SetFinds(s.cache, s.procs[id].key, s.procs[id].stage.entry);
  }

  // ----- an answer that is not stored

  /** The run has two requests so far. */
  ghost predicate Two(s: State, p0: Proc, p1: Proc) {
    s.procs.Keys == {0, 1} && s.procs[0] == p0 && s.procs[1] == p1
  }

  /** A second request waits for the first one's flight. */
  lemma SecondWaits(rules: Rules, s4: State, first: Request, second: Request) returns (s: State)
    requires Reachable(rules, s4) && s4.cache.maxEntries >= 1 && s4.cache.items == []
    requires !rules.bypasses(second) && rules.keyOf(first) == rules.keyOf(second)
    requires s4.procs == map[0 := Proc(first, rules.keyOf(first), Fetching)]
    requires s4.flights == map[rules.keyOf(first) := 0] && s4.results == map[]
    ensures Reachable(rules, s) && Within(s, s4.cache.maxEntries, s4.cache.maxBytes) && s.results == map[]
    ensures var key := rules.keyOf(first); Two(s, Proc(first, key, Fetching), Proc(second, key, Awaiting(0)))
  {
    var key, p := rules.keyOf(first), s4.procs[0];
    var s5 := DoArrive(rules, s4, 1, second);
    ReachableNext(rules, s4, Arrive(1, second));
    var s6 := SecondMisses(rules, s5, p, second);
    s := DoEnter(s6, 1);
    ReachableNext(rules, s6, Enter(1));
  }

  lemma SecondMisses(rules: Rules, s5: State, p: Proc, second: Request) returns (s6: State)
    requires Reachable(rules, s5) && s5.cache.maxEntries >= 1 && s5.cache.items == []
    requires !rules.bypasses(second) && Two(s5, p, Proc(second, rules.keyOf(second), Arrived))
    ensures Reachable(rules, s6) && Within(s6, s5.cache.maxEntries, s5.cache.maxBytes)
    ensures Two(s6, p, Proc(second, rules.keyOf(second), Missed))
    ensures s6.flights == s5.flights && s6.results == s5.results
  {
    L.GetMisses(s5.cache, rules.keyOf(second), s5.now);
    s6 := DoBegin(rules, s5, 1);
    ReachableNext(rules, s5, Begin(1));
  }

  /** The leader gives out an answer that is not stored. */
  lemma LeaderGives(rules: Rules, s: State, first: Request, second: Request, origin: Origin) returns (s': State)
    requires Reachable(rules, s) && s.cache.maxEntries >= 1 && s.results == map[]
    requires origin.Reply? && !rules.storable(origin.status, origin.headers)
    requires var key := rules.keyOf(first); Two(s, Proc(first, key, Fetching), Proc(second, key, Awaiting(0)))
    ensures Reachable(rules, s') && Within(s', s.cache.maxEntries, s.cache.maxBytes)
    ensures s'.results == map[0 := Got(Fetched(origin))]
    ensures var key := rules.keyOf(first); Two(s', Proc(first, key, Awaiting(0)), Proc(second, key, Awaiting(0)))
  {
    var a := DoAnswer(s, 0, origin);
    ReachableNext(rules, s, Answer(0, origin));
    var d := DoDecide(rules, a, 0);
    ReachableNext(rules, a, Decide(0));
    s' := DoFinish(d, 0);
    ReachableNext(rules, d, Finish(0));
  }

  /**
   * An answer the policy refuses to store still goes to everyone in the flight: two requests with one
   * key can both be answered with what the origin said to the first.
   */
  lemma SharedAnswer(rules: Rules, maxEntries: int, maxBytes: int, now: int, first: Request, second: Request,
                     origin: Origin) returns (s: State)
    requires maxEntries >= 1 && maxBytes >= 0
    requires !rules.bypasses(first) && !rules.bypasses(second) && rules.keyOf(first) == rules.keyOf(second)
    requires origin.Reply? && !rules.storable(origin.status, origin.headers)
    ensures Reachable(rules, s) && Within(s, maxEntries, maxBytes) && s.procs.Keys == {0, 1}
    ensures s.procs[0].req == first && s.procs[0].stage == Done(Miss(Fetched(origin)), Some(0))
    ensures s.procs[1].req == second && s.procs[1].stage == Done(Miss(Fetched(origin)), Some(0))
  {
    var s4 := FirstFetch(rules, maxEntries, maxBytes, now, first);
    var s7 := SecondWaits(rules, s4, first, second);
    var s10 := LeaderGives(rules, s7, first, second, origin);
    var s11 := DoDeliver(s10, 0);
    ReachableNext(rules, s10, Deliver(0));
    s := DoDeliver(s11, 1);
    ReachableNext(rules, s11, Deliver(1));
  }

  // ----- who gets whose answers

  /** Requests of this kind that are answered from the cache or from a flight get what one of them was told. */
  ghost predicate Apart(rules: Rules, kind: Request -> bool, s: State) {
    forall id, entry: L.Entry | id in s.procs && kind(s.procs[id].req) && AnsweredWith(s.procs[id], entry) ::
      ToldTo(rules, kind, s.log, rules.keyOf(s.procs[id].req), entry)
  }

  predicate AnsweredWith(p: Proc, entry: L.Entry) {
    p.stage.Done? && p.stage.response in [Hit(entry), Miss(entry)]
  }

  /** The origin has told this to a request of the kind with this key. */
  ghost predicate ToldTo(rules: Rules, kind: Request -> bool, log: seq<Event>, key: string, entry: L.Entry) {
    exists id: nat, req: Request, origin: Origin, at: int ::
      && Replied(id, req, origin, at) in log && origin.Reply?
      && rules.keyOf(req) == key && kind(req)
      && (entry.status, entry.headers, entry.body) == (origin.status, origin.headers, origin.body)
  }

  ghost predicate AlwaysApart(rules: Rules, kind: Request -> bool) {
    forall s | Reachable(rules, s) :: Apart(rules, kind, s)
  }

  /** Only `b` is of the kind, and both go into the cache under one key. */
  predicate Meet(rules: Rules, kind: Request -> bool, a: Request, b: Request) {
    && !kind(a) && kind(b) && rules.keyOf(a) == rules.keyOf(b)
    && !rules.bypasses(a) && !rules.bypasses(b)
  }

  /** Then `b` can wait in the flight of `a` and get its answer. */
  lemma MeetingShares(rules: Rules, kind: Request -> bool, a: Request, b: Request, refusal: Origin) returns (s: State)
    requires Meet(rules, kind, a, b) && refusal.Reply? && !rules.storable(refusal.status, refusal.headers)
    ensures Reachable(rules, s) && !Apart(rules, kind, s)
  {
    s := SharedAnswer(rules, 1, 0, 0, a, b, refusal);
    OnlyFirstAsked(rules, kind, s, rules.keyOf(b), Fetched(refusal));
    assert AnsweredWith(s.procs[1], Fetched(refusal));
  }

  /** Of two requests in one flight only the leader has asked the origin. */
  lemma OnlyFirstAsked(rules: Rules, kind: Request -> bool, s: State, key: string, entry: L.Entry)
    requires Reachable(rules, s) && s.procs.Keys == {0, 1} && !kind(s.procs[0].req)
    requires s.procs[1].stage.Done? && s.procs[1].stage.flight == Some(0)
    ensures !ToldTo(rules, kind, s.log, key, entry)
  {
    forall id: nat, req: Request, origin: Origin, at: int | Replied(id, req, origin, at) in s.log
      ensures !kind(req)
    {
      OnlyLeadersAsk(rules, s, id, req, origin, at);
    }
  }

  lemma NoMeetingApart(rules: Rules, kind: Request -> bool, s: State, id: nat, entry: L.Entry)
    requires Reachable(rules, s) && forall a, b :: !Meet(rules, kind, a, b)
    requires id in s.procs && kind(s.procs[id].req) && AnsweredWith(s.procs[id], entry)
    ensures ToldTo(rules, kind, s.log, rules.keyOf(s.procs[id].req), entry)
  {
    var other, req, origin, at := ResponseFromOrigin(rules, s, id, entry);
    assert !Meet(rules, kind, req, s.procs[id].req);
  }

  /**
   * Requests of a kind only ever get answers given to their kind, exactly if no two requests that go
   * into the cache under one key differ in it. Nobody needs to store anything for that.
   */
  lemma AlwaysApartIff(rules: Rules, kind: Request -> bool, refusal: Origin)
    requires refusal.Reply? && !rules.storable(refusal.status, refusal.headers)
    ensures AlwaysApart(rules, kind) <==> forall a, b :: !Meet(rules, kind, a, b)
  {
    if a, b :| Meet(rules, kind, a, b) {
      var s := MeetingShares(rules, kind, a, b, refusal);
    } else {
      forall s | Reachable(rules, s) ensures Apart(rules, kind, s) {
        forall id, entry: L.Entry | id in s.procs && kind(s.procs[id].req) && AnsweredWith(s.procs[id], entry)
          ensures ToldTo(rules, kind, s.log, rules.keyOf(s.procs[id].req), entry)
        {
          NoMeetingApart(rules, kind, s, id, entry);
        }
      }
    }
  }
}
