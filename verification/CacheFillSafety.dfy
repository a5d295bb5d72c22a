/**
 * What every reachable state of the cache-fill protocol satisfies.
 */
module CacheFillSafety {
  import opened Strings
  import opened Http
  import opened CacheFill
  import L = Lru

  // ----- what the log says

  /** The entry under `key` after `event`, given the one before. */
  function Effect(event: Event, key: string, held: Option<L.Entry>): Option<L.Entry> {
    match event
    case Stored(_, k, entry, _) => if k == key then Some(entry) else held
    case Dropped(keys, _) => if key in keys then None else held
    case _ => held
  }

  /** The latest entry stored under `key` and not dropped since, as the log tells it. */
  function Latest(log: seq<Event>, key: string): Option<L.Entry> {
    if log == [] then None
    else
      var n := |log| - 1;
      Effect(log[n], key, Latest(log[..n], key))
  }

  lemma LatestAppend(log: seq<Event>, event: Event, key: string)
    ensures Latest(log + [event], key) == Effect(event, key, Latest(log, key))
  {
    assert (log + [event])[..|log|] == log;
  }

  /** The entry under this key comes from an earlier answer of the origin to a request with this key. */
  ghost predicate FromOrigin(rules: Rules, log: seq<Event>, id: nat, key: string, entry: L.Entry) {
    exists req: Request, origin: Origin, at: int ::
      && Replied(id, req, origin, at) in log && at <= entry.storedAt
      && origin.Reply?
      && rules.keyOf(req) == key && !rules.bypasses(req)
      && rules.storable(origin.status, origin.headers)
      && entry == Stamped(rules, req, key, origin, entry.storedAt)
  }

  /** What may be logged after `log`. */
  ghost predicate GoodEvent(rules: Rules, log: seq<Event>, event: Event) {
    match event
    case Looked(_, key, _, found, at) =>
      found == Latest(log, key) && (found.Some? ==> at <= found.value.storedAt + found.value.ttl)
    case Began(_, key) => Latest(log, key) == None
    case Stored(id, key, entry, at) =>
      Latest(log, key) == None && FromOrigin(rules, log, id, key, entry) && entry.storedAt <= at
    case _ => true
  }

  ghost predicate GoodLog(rules: Rules, log: seq<Event>) {
    forall i | 0 <= i < |log| :: GoodEvent(rules, log[..i], log[i])
  }

  lemma GoodAppend(rules: Rules, log: seq<Event>, event: Event)
    requires GoodLog(rules, log) && GoodEvent(rules, log, event)
    ensures GoodLog(rules, log + [event])
  {
    var more := log + [event];
    forall i | 0 <= i < |more| ensures GoodEvent(rules, more[..i], more[i]) {
      assert more[..i] == log[..i];
      assert i == |log| ==> log[..i] == log;
    }
  }

  lemma FromOriginLater(rules: Rules, log: seq<Event>, more: seq<Event>, id: nat, key: string, entry: L.Entry)
    requires FromOrigin(rules, log, id, key, entry)
    ensures FromOrigin(rules, log + more, id, key, entry)
  {
  }

  // ----- invariants

  /** Stages in which a request leads the flight of its key. */
  predicate Leading(stage: Stage) {
    stage.Rechecking? || stage.Fetching? || stage.Answered? || stage.Storing? || stage.Returning?
  }

  /** Stages between the second lookup and the store. */
  predicate Committed(stage: Stage) {
    stage.Fetching? || stage.Answered? || stage.Storing?
  }

  /** Each flight has its one leader. */
  ghost predicate FlightsOk(s: State) {
    && (forall key <- s.flights ::
          var l := s.flights[key]; l in s.procs && s.procs[l].key == key && Leading(s.procs[l].stage))
    && (forall id <- s.procs :: Leading(s.procs[id].stage) ==>
          s.procs[id].key in s.flights && s.flights[s.procs[id].key] == id)
  }

  /** From the second lookup to the store, the key is absent from the cache. */
  ghost predicate AbsentOk(s: State) {
    forall id <- s.procs :: Committed(s.procs[id].stage) ==> s.procs[id].key !in L.Keys(s.cache.items)
  }

  /** Whoever waits has a live leader or a result to collect, and collects the leader's result. */
  ghost predicate WaitersOk(s: State) {
    && (forall id <- s.procs :: s.procs[id].stage.Awaiting? ==>
          var l := s.procs[id].stage.leader;
          && l in s.procs && s.procs[l].key == s.procs[id].key
          && (l in s.results || Leading(s.procs[l].stage)))
    && (forall l <- s.results :: l in s.procs && (s.procs[l].stage.Awaiting? || s.procs[l].stage.Done?))
    && (forall id <- s.procs :: s.procs[id].stage.Done? && s.procs[id].stage.flight.Some? ==>
          var l := s.procs[id].stage.flight.value;
          && l in s.results && s.procs[l].key == s.procs[id].key
          && s.procs[id].stage.response == Respond(s.results[l]))
  }

  /** The cache holds exactly what the log says is stored and not dropped. */
  ghost predicate HeldOk(s: State) {
    forall key :: Latest(s.log, key) == L.Find(s.cache.items, key)
  }

  /** Stages a bypassed request never sees. */
  predicate Engaged(stage: Stage) {
    !stage.Arrived? && !(stage.Done? && stage.response.Bypassed?)
  }

  /** The origin has given this answer to the request. */
  ghost predicate Heard(log: seq<Event>, id: nat, req: Request, origin: Origin, now: int) {
    exists at: int :: Replied(id, req, origin, at) in log && at <= now
  }

  /** What one request carries comes from the origin, and from no later than now. */
  ghost predicate StageOk(rules: Rules, log: seq<Event>, now: int, id: nat, p: Proc) {
    && p.key == rules.keyOf(p.req)
    && (Engaged(p.stage) ==> !rules.bypasses(p.req))
    && (p.stage.Answered? ==> Heard(log, id, p.req, p.stage.origin, now))
    && (p.stage.Storing? ==> FromOrigin(rules, log, id, p.key, p.stage.entry) && p.stage.entry.storedAt <= now)
  }

  ghost predicate StagesOk(rules: Rules, s: State) {
    forall id <- s.procs :: StageOk(rules, s.log, s.now, id, s.procs[id])
  }

  ghost predicate Inv(rules: Rules, s: State) {
    && L.Valid(s.cache)
    && FlightsOk(s) && AbsentOk(s) && WaitersOk(s)
    && HeldOk(s) && StagesOk(rules, s) && GoodLog(rules, s.log)
  }

  // ----- how the steps change cache and log

  /** Dropping what a shrinking cache loses keeps the log true. */
  lemma HeldDrop(log: seq<Event>, before: L.Cache, after: L.Cache, cause: Cause)
    requires forall key :: Latest(log, key) == L.Find(before.items, key)
    requires L.Shrinks(before, after)
    ensures forall key :: Latest(log + [Dropped(Lost(before, after), cause)], key) == L.Find(after.items, key)
  {
    forall key ensures Latest(log + [Dropped(Lost(before, after), cause)], key) == L.Find(after.items, key) {
      LatestAppend(log, Dropped(Lost(before, after), cause), key);
    }
  }

  lemma LookupKeeps(rules: Rules, s: State, id: nat, second: bool)
    requires Inv(rules, s) && id in s.procs
    ensures var (s', found) := Lookup(s, id, second);
      && L.Valid(s'.cache) && L.Keys(s'.cache.items) <= L.Keys(s.cache.items)
      && HeldOk(s') && GoodLog(rules, s'.log)
      && (found.None? ==> s.procs[id].key !in L.Keys(s'.cache.items))
  {
    var key := s.procs[id].key;
    var (s', found) := Lookup(s, id, second);
    L.GetValid(s.cache, key, s.now);
    L.GetShrinks(s.cache, key, s.now);
    var dropped := Dropped(Lost(s.cache, s'.cache), Expired);
    var looked := Looked(id, key, second, found, s.now);
    HeldDrop(s.log, s.cache, s'.cache, Expired);
    GoodAppend(rules, s.log, dropped);
    GoodAppend(rules, s.log + [dropped], looked);
    assert s'.log == s.log + [dropped] + [looked];
    forall k ensures Latest(s'.log, k) == L.Find(s'.cache.items, k) {
      LatestAppend(s.log + [dropped], looked, k);
    }
  }

  lemma StoreKeeps(rules: Rules, s: State, id: nat)
    requires Inv(rules, s) && id in s.procs && s.procs[id].stage.Storing?
    ensures var s' := DoStore(s, id);
      && L.Valid(s'.cache) && L.Keys(s'.cache.items) <= L.Keys(s.cache.items) + {s.procs[id].key}
      && HeldOk(s') && GoodLog(rules, s'.log)
  {
    var key, entry := s.procs[id].key, s.procs[id].stage.entry;
    var s' := DoStore(s, id);
    L.SetValid(s.cache, key, entry);
    var dropped := Dropped(Lost(s.cache, s'.cache), Evicted);
    var stored := Stored(id, key, entry, s.now);
    LatestAppend(s.log, dropped, key);
    FromOriginLater(rules, s.log, [dropped], id, key, entry);
    GoodAppend(rules, s.log, dropped);
    GoodAppend(rules, s.log + [dropped], stored);
    assert s'.log == s.log + [dropped] + [stored];
    HeldStore(s.log, s.cache, id, key, entry, s.now);
  }

  /** Storing under an absent key, and dropping what that evicts, keeps the log true. */
  lemma HeldStore(log: seq<Event>, c: L.Cache, id: nat, key: string, entry: L.Entry, at: int)
    requires L.Valid(c) && forall k :: Latest(log, k) == L.Find(c.items, k)
    ensures var after := L.Set(c, key, entry);
      forall k :: Latest(log + [Dropped(Lost(c, after), Evicted)] + [Stored(id, key, entry, at)], k)
        == L.Find(after.items, k)
  {
    var after := L.Set(c, key, entry);
    var dropped, stored := Dropped(Lost(c, after), Evicted), Stored(id, key, entry, at);
    L.SetFinds(c, key, entry);
    forall k ensures Latest(log + [dropped] + [stored], k) == L.Find(after.items, k) {
      LatestAppend(log, dropped, k);
      LatestAppend(log + [dropped], stored, k);
    }
  }

  lemma AdminKeeps(rules: Rules, s: State, purge: Purge)
    requires Inv(rules, s)
    ensures var s' := DoAdmin(s, purge);
      && L.Valid(s'.cache) && L.Keys(s'.cache.items) <= L.Keys(s.cache.items)
      && HeldOk(s') && GoodLog(rules, s'.log)
  {
    var s' := DoAdmin(s, purge);
    L.ApplyValid(s.cache, AdminCall(purge));
    match purge {
      case PurgeKey(key) => L.RemoveShrinks(s.cache, {key});
      case PurgePath(path) => L.RemoveShrinks(s.cache, L.KeysWithPath(s.cache, path));
      case PurgePrefix(prefix) => L.RemoveShrinks(s.cache, L.KeysWithPrefix(s.cache, prefix));
      case PurgeAll =>
    }
    HeldDrop(s.log, s.cache, s'.cache, Purged);
    GoodAppend(rules, s.log, Dropped(Lost(s.cache, s'.cache), Purged));
  }

  /** A neutral event changes nothing the log says about the cache. */
  lemma NoteKeeps(rules: Rules, s: State, event: Event)
    requires HeldOk(s) && GoodLog(rules, s.log) && GoodEvent(rules, s.log, event)
    requires !event.Stored? && !event.Dropped?
    ensures HeldOk(s.(log := s.log + [event])) && GoodLog(rules, s.log + [event])
  {
    GoodAppend(rules, s.log, event);
    forall key ensures Latest(s.log + [event], key) == L.Find(s.cache.items, key) {
      LatestAppend(s.log, event, key);
    }
  }

  lemma {:induction false} RecheckKeeps(rules: Rules, s: State, id: nat)
    requires Inv(rules, s) && id in s.procs
    ensures CacheOk(rules, s, DoRecheck(s, id), Recheck(id))
  {
    LookupKeeps(rules, s, id, true);
    var (s', found) := Lookup(s, id, true);
    if found.None? {
      NoteKeeps(rules, s', Began(id, s.procs[id].key));
    }
  }

  /** The stage of a request. */
  function StageOf(s: State, id: nat): Stage {
    if id in s.procs then s.procs[id].stage else Arrived
  }

  /** The key a step may bring into the cache. */
  function NewKeys(s: State, step: Step): set<string> {
    if step.Store? && step.id in s.procs then {s.procs[step.id].key} else {}
  }

  /** The cache is valid, the log true of it, and no key came in but the stored one. */
  ghost predicate CacheOk(rules: Rules, s: State, s': State, step: Step) {
    && L.Valid(s'.cache) && HeldOk(s') && GoodLog(rules, s'.log) && s.log <= s'.log
    && L.Keys(s'.cache.items) <= L.Keys(s.cache.items) + NewKeys(s, step)
    && (step.Recheck? && step.id in s.procs && StageOf(s', step.id).Fetching? ==>
          s.procs[step.id].key !in L.Keys(s'.cache.items))
  }

  lemma BeginCache(rules: Rules, s: State, id: nat)
    requires Inv(rules, s) && At(s, id, Arrived)
    ensures CacheOk(rules, s, DoBegin(rules, s, id), Begin(id))
  {
    LookupKeeps(rules, s, id, false);
  }

  lemma EnterCache(rules: Rules, s: State, id: nat)
    requires Inv(rules, s) && At(s, id, Missed)
    ensures CacheOk(rules, s, DoEnter(s, id), Enter(id))
  {
    NoteKeeps(rules, s, Led(id, s.procs[id].key));
  }

  lemma AnswerCache(rules: Rules, s: State, id: nat, origin: Origin)
    requires Inv(rules, s) && At(s, id, Fetching)
    ensures CacheOk(rules, s, DoAnswer(s, id, origin), Answer(id, origin))
  {
    NoteKeeps(rules, s, Replied(id, s.procs[id].req, origin, s.now));
  }

  /** The other steps leave cache and log alone. */
  lemma OtherCache(rules: Rules, s: State, step: Step)
    requires Inv(rules, s) && Enabled(s, step)
    requires step.Tick? || step.Arrive? || step.Decide? || step.Finish? || step.Deliver?
    ensures CacheOk(rules, s, Next(rules, s, step), step)
  {
  }

  lemma StepCache(rules: Rules, s: State, step: Step)
    requires Inv(rules, s) && Enabled(s, step)
    ensures CacheOk(rules, s, Next(rules, s, step), step)
  {
    match step {
      case Begin(id) => BeginCache(rules, s, id);
      case Enter(id) => EnterCache(rules, s, id);
      case Recheck(id) => RecheckKeeps(rules, s, id);
      case Answer(id, origin) => AnswerCache(rules, s, id, origin);
      case Store(id) => StoreKeeps(rules, s, id);
      case Admin(purge) => AdminKeeps(rules, s, purge);
      case _ => OtherCache(rules, s, step);
    }
  }

  // ----- how the steps change requests and flights

  /** One request has moved to another stage; the rest is as it was. */
  ghost predicate Moved(s: State, s': State, id: nat) {
    && id in s.procs && id in s'.procs
    && s'.procs == s.procs[id := s.procs[id].(stage := s'.procs[id].stage)]
  }

  /** The request a step moves. */
  function Mover(step: Step): Option<nat> {
    match step
    case Tick(_) => None
    case Admin(_) => None
    case Arrive(_, _) => None
    case _ => Some(step.id)
  }

  /** What a step does to the requests. */
  ghost predicate Shape(s: State, s': State, step: Step) {
    && (Mover(step).Some? ==> Moved(s, s', Mover(step).value))
    && (Mover(step).None? && !step.Arrive? ==> s'.procs == s.procs)
    && (!step.Arrive? ==> s'.arrivals == s.arrivals)
    && (step.Arrive? ==>
          && step.id !in s.procs && step.id in s'.procs && s'.procs[step.id].stage == Arrived
          && s'.arrivals == s.arrivals + [step.id] && s'.procs == s.procs[step.id := s'.procs[step.id]])
  }

  lemma StepMoves(rules: Rules, s: State, step: Step)
    requires s.cache.maxEntries >= 1 && Enabled(s, step)
    ensures var s' := Next(rules, s, step);
      && Shape(s, s', step)
      && (!step.Enter? && !step.Finish? ==> s'.flights == s.flights)
      && (!step.Finish? ==> s'.results == s.results)
  {
  }

  /** Which stages a step can lead to. */
  ghost predicate Onward(step: Step, from: Stage, to: Stage) {
    match step
    case Begin(_) => from.Arrived? && (to.Missed? || (to.Done? && to.flight.None?))
    case Enter(_) => from.Missed? && (to.Rechecking? || to.Awaiting?)
    case Recheck(_) => from.Rechecking? && (to.Fetching? || to.Returning?)
    case Answer(_, _) => from.Fetching? && to.Answered?
    case Decide(_) => from.Answered? && (to.Storing? || to.Returning?)
    case Store(_) => from.Storing? && to.Returning?
    case Finish(id) => from.Returning? && to == Awaiting(id)
    case Deliver(_) => from.Awaiting? && to.Done? && to.flight == Some(from.leader)
    case _ => false
  }

  lemma StepStage(rules: Rules, s: State, step: Step)
    requires s.cache.maxEntries >= 1 && Enabled(s, step) && Mover(step).Some?
    ensures var id := Mover(step).value;
      Onward(step, StageOf(s, id), StageOf(Next(rules, s, step), id))
  {
  }

  /** A request that neither takes nor gives up the lead leaves the flights in order. */
  lemma MoveFlights(s: State, s': State, id: nat)
    requires FlightsOk(s) && Moved(s, s', id) && s'.flights == s.flights
    requires Leading(s.procs[id].stage) == Leading(s'.procs[id].stage)
    ensures FlightsOk(s')
  {
  }

  lemma EnterFlights(s: State, id: nat)
    requires FlightsOk(s) && At(s, id, Missed)
    ensures FlightsOk(DoEnter(s, id))
  {
  }

  lemma FinishFlights(s: State, id: nat)
    requires FlightsOk(s) && id in s.procs && s.procs[id].stage.Returning?
    ensures FlightsOk(DoFinish(s, id))
  {
  }

  lemma {:induction false} OtherFlights(s: State, s': State, step: Step)
    requires FlightsOk(s) && Shape(s, s', step) && s'.flights == s.flights && !step.Enter? && !step.Finish?
    requires Mover(step).Some? ==> Onward(step, StageOf(s, Mover(step).value), StageOf(s', Mover(step).value))
    ensures FlightsOk(s')
  {
    if Mover(step).Some? {
      MoveFlights(s, s', Mover(step).value);
    }
  }

  lemma {:induction false} StepFlights(rules: Rules, s: State, step: Step)
    requires Inv(rules, s) && Enabled(s, step)
    ensures FlightsOk(Next(rules, s, step))
  {
    if step.Enter? {
      EnterFlights(s, step.id);
    } else if step.Finish? {
      FinishFlights(s, step.id);
    } else {
      StepMoves(rules, s, step);
      if Mover(step).Some? {
        StepStage(rules, s, step);
      }
      OtherFlights(s, Next(rules, s, step), step);
    }
  }

  /** A request that keeps its lead, or collects what it waits for, strands nobody. */
  lemma MoveWaiters(s: State, s': State, id: nat)
    requires WaitersOk(s) && Moved(s, s', id) && s'.results == s.results
    requires var stage := s'.procs[id].stage;
      && (Leading(s.procs[id].stage) ==> Leading(stage))
      && (id in s.results ==> stage.Done?)
      && (stage.Awaiting? ==> var l := stage.leader;
            l in s.procs && l != id && s.procs[l].key == s.procs[id].key && Leading(s.procs[l].stage))
      && (stage.Done? && stage.flight.Some? ==> var l := stage.flight.value;
            && l in s.results && s.procs[l].key == s.procs[id].key && stage.response == Respond(s.results[l]))
    ensures WaitersOk(s')
  {
  }

  lemma FinishWaiters(s: State, id: nat)
    requires WaitersOk(s) && id in s.procs && s.procs[id].stage.Returning?
    ensures WaitersOk(DoFinish(s, id))
  {
    assert id !in s.results;
  }

  lemma EnterWaiters(s: State, id: nat)
    requires FlightsOk(s) && WaitersOk(s) && At(s, id, Missed)
    ensures WaitersOk(DoEnter(s, id))
  {
    MoveWaiters(s, DoEnter(s, id), id);
  }

  lemma DeliverWaiters(s: State, id: nat)
    requires WaitersOk(s) && Enabled(s, Deliver(id))
    ensures WaitersOk(DoDeliver(s, id))
  {
    MoveWaiters(s, DoDeliver(s, id), id);
  }

  /** The remaining steps neither start nor end a wait, nor give up a lead. */
  lemma OtherWaiters(s: State, s': State, step: Step)
    requires WaitersOk(s) && Shape(s, s', step) && s'.results == s.results
    requires !step.Enter? && !step.Finish? && !step.Deliver?
    requires Mover(step).Some? ==> Onward(step, StageOf(s, Mover(step).value), StageOf(s', Mover(step).value))
    ensures WaitersOk(s')
  {
    if Mover(step).Some? {
      MoveWaiters(s, s', Mover(step).value);
    }
  }

  lemma {:induction false} StepWaiters(rules: Rules, s: State, step: Step)
    requires Inv(rules, s) && Enabled(s, step)
    ensures WaitersOk(Next(rules, s, step))
  {
    if step.Enter? {
      EnterWaiters(s, step.id);
    } else if step.Finish? {
      FinishWaiters(s, step.id);
    } else if step.Deliver? {
      DeliverWaiters(s, step.id);
    } else {
      StepMoves(rules, s, step);
      if Mover(step).Some? {
        StepStage(rules, s, step);
      }
      OtherWaiters(s, Next(rules, s, step), step);
    }
  }

  /** No two requests lead flights of one key. */
  lemma OneLeader(s: State, i: nat, j: nat)
    requires FlightsOk(s) && i in s.procs && j in s.procs && s.procs[i].key == s.procs[j].key
    requires Leading(s.procs[i].stage) && Leading(s.procs[j].stage)
    ensures i == j
  {
  }

  /** A request that stays between second lookup and store keeps its key absent. */
  lemma KeepsAbsent(rules: Rules, s: State, s': State, step: Step, id: nat)
    requires FlightsOk(s) && AbsentOk(s) && Shape(s, s', step) && CacheOk(rules, s, s', step)
    requires step.Store? ==> StageOf(s, step.id).Storing?
    requires id in s.procs && Committed(s.procs[id].stage) && !(step.Store? && step.id == id)
    ensures id in s'.procs && s'.procs[id].key !in L.Keys(s'.cache.items)
  {
    if step.Store? && s.procs[id].key == s.procs[step.id].key {
      OneLeader(s, id, step.id);
    }
  }

  lemma AbsentKept(rules: Rules, s: State, s': State, step: Step)
    requires FlightsOk(s) && AbsentOk(s) && Shape(s, s', step) && CacheOk(rules, s, s', step)
    requires Mover(step).Some? ==> Onward(step, StageOf(s, Mover(step).value), StageOf(s', Mover(step).value))
    ensures AbsentOk(s')
  {
    forall id <- s'.procs | Committed(s'.procs[id].stage) ensures s'.procs[id].key !in L.Keys(s'.cache.items) {
      if id in s.procs && Committed(s.procs[id].stage) {
        KeepsAbsent(rules, s, s', step, id);
      }
    }
  }

  lemma StepAbsent(rules: Rules, s: State, step: Step)
    requires Inv(rules, s) && Enabled(s, step)
    ensures AbsentOk(Next(rules, s, step))
  {
    StepCache(rules, s, step);
    StepMoves(rules, s, step);
    if Mover(step).Some? {
      StepStage(rules, s, step);
    }
    AbsentKept(rules, s, Next(rules, s, step), step);
  }

  lemma LaterOrigin(rules: Rules, log: seq<Event>, later: seq<Event>, id: nat, key: string, entry: L.Entry)
    requires FromOrigin(rules, log, id, key, entry) && log <= later
    ensures FromOrigin(rules, later, id, key, entry)
  {
    FromOriginLater(rules, log, later[|log|..], id, key, entry);
    assert later == log + later[|log|..];
  }

  lemma StageLater(rules: Rules, log: seq<Event>, later: seq<Event>, now: int, soon: int, id: nat, p: Proc)
    requires StageOk(rules, log, now, id, p) && log <= later && now <= soon
    ensures StageOk(rules, later, soon, id, p)
  {
    if p.stage.Storing? {
      LaterOrigin(rules, log, later, id, p.key, p.stage.entry);
    }
  }

  /** The request carries what it may carry. */
  ghost predicate ProcOk(rules: Rules, s: State, id: nat) {
    id in s.procs && StageOk(rules, s.log, s.now, id, s.procs[id])
  }

  lemma BeginStage(rules: Rules, s: State, id: nat)
    requires Inv(rules, s) && At(s, id, Arrived)
    ensures ProcOk(rules, DoBegin(rules, s, id), id)
  {
    assert StageOk(rules, s.log, s.now, id, s.procs[id]);
  }

  lemma AnswerStage(rules: Rules, s: State, id: nat, origin: Origin)
    requires Inv(rules, s) && At(s, id, Fetching)
    ensures ProcOk(rules, DoAnswer(s, id, origin), id)
  {
    assert StageOk(rules, s.log, s.now, id, s.procs[id]);
    assert DoAnswer(s, id, origin).log[|s.log|] == Replied(id, s.procs[id].req, origin, s.now);
  }

  lemma DecideStage(rules: Rules, s: State, id: nat)
    requires Inv(rules, s) && id in s.procs && s.procs[id].stage.Answered?
    ensures ProcOk(rules, DoDecide(rules, s, id), id)
  {
    assert StageOk(rules, s.log, s.now, id, s.procs[id]);
  }

  /** The other steps lead to stages that carry nothing to account for. */
  lemma OtherStage(rules: Rules, s: State, s': State, step: Step, id: nat)
    requires StagesOk(rules, s) && Moved(s, s', id)
    requires step.Enter? || step.Recheck? || step.Store? || step.Finish? || step.Deliver?
    requires Onward(step, StageOf(s, id), StageOf(s', id))
    ensures ProcOk(rules, s', id)
  {
    assert StageOk(rules, s.log, s.now, id, s.procs[id]);
  }

  /** The request that moves carries what its step gives it. */
  lemma MoverStage(rules: Rules, s: State, step: Step)
    requires Inv(rules, s) && Enabled(s, step) && Mover(step).Some?
    ensures ProcOk(rules, Next(rules, s, step), Mover(step).value)
  {
    if step.Begin? {
      BeginStage(rules, s, step.id);
    } else if step.Answer? {
      AnswerStage(rules, s, step.id, step.origin);
    } else if step.Decide? {
      DecideStage(rules, s, step.id);
    } else {
      StepMoves(rules, s, step);
      StepStage(rules, s, step);
      OtherStage(rules, s, Next(rules, s, step), step, Mover(step).value);
    }
  }

  lemma StagesKept(rules: Rules, s: State, s': State, step: Step)
    requires StagesOk(rules, s) && Shape(s, s', step) && s.log <= s'.log && s.now <= s'.now
    requires Mover(step).Some? ==> ProcOk(rules, s', Mover(step).value)
    requires step.Arrive? ==> ProcOk(rules, s', step.id)
    ensures StagesOk(rules, s')
  {
    forall id <- s'.procs ensures StageOk(rules, s'.log, s'.now, id, s'.procs[id]) {
      if Mover(step) != Some(id) && id in s.procs {
        StageLater(rules, s.log, s'.log, s.now, s'.now, id, s.procs[id]);
      }
    }
  }

  lemma StepTime(rules: Rules, s: State, step: Step)
    requires s.cache.maxEntries >= 1 && Enabled(s, step)
    ensures s.now <= Next(rules, s, step).now
    ensures step.Arrive? ==> ProcOk(rules, Next(rules, s, step), step.id)
  {
  }

  lemma StepStages(rules: Rules, s: State, step: Step)
    requires Inv(rules, s) && Enabled(s, step)
    ensures StagesOk(rules, Next(rules, s, step))
  {
    StepCache(rules, s, step);
    StepMoves(rules, s, step);
    StepTime(rules, s, step);
    if Mover(step).Some? {
      MoverStage(rules, s, step);
    }
    StagesKept(rules, s, Next(rules, s, step), step);
  }

  /** Every step keeps the invariant. */
  lemma StepInv(rules: Rules, s: State, step: Step)
    requires Inv(rules, s) && Enabled(s, step)
    ensures Inv(rules, Next(rules, s, step))
  {
    StepCache(rules, s, step);
    StepFlights(rules, s, step);
    StepWaiters(rules, s, step);
    StepAbsent(rules, s, step);
    StepStages(rules, s, step);
  }

  lemma {:induction false} RunInv(rules: Rules, s: State, steps: seq<Step>)
    requires Inv(rules, s) && CanRun(rules, s, steps)
    ensures Inv(rules, Run(rules, s, steps))
    decreases |steps|
  {
    if steps != [] {
      StepInv(rules, s, steps[0]);
      RunInv(rules, Next(rules, s, steps[0]), steps[1..]);
    }
  }

  lemma ReachableInv(rules: Rules, s: State)
    requires Reachable(rules, s)
    ensures Inv(rules, s)
  {
    var maxEntries: int, maxBytes: int, now: int, steps: seq<Step> :|
      && maxEntries >= 1 && maxBytes >= 0
      && CanRun(rules, Init(maxEntries, maxBytes, now), steps)
      && s == Run(rules, Init(maxEntries, maxBytes, now), steps);
    RunInv(rules, Init(maxEntries, maxBytes, now), steps);
  }
}
