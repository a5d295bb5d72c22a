/**
 * What the log tells about the requests themselves: who the origin has answered, who has stored, and
 * where every response comes from. An invariant on top of the one of `CacheFillSafety`.
 */
module CacheFillHistory {
  import opened Strings
  import opened Http
  import opened CacheFill
  import opened CacheFillSafety
  import L = Lru

  // ----- what an answer of the origin leads to

  /** What the flight of `req` returns when the origin says `origin`. */
  predicate Outcome(rules: Rules, req: Request, origin: Origin, result: Result) {
    if origin.Failed? then result == Error
    else if !rules.storable(origin.status, origin.headers) then result == Got(Fetched(origin))
    else result.Got? && result.entry == Stamped(rules, req, rules.keyOf(req), origin, result.entry.storedAt)
  }

  /** What an answered request carries comes from that answer, and it is in its own flight. */
  predicate Carries(rules: Rules, id: nat, req: Request, origin: Origin, stage: Stage) {
    match stage
    case Answered(o) => o == origin
    case Storing(entry) => Stores(rules, origin) && Outcome(rules, req, origin, Got(entry))
    case Returning(result) => Outcome(rules, req, origin, result)
    case Awaiting(leader) => leader == id
    case Done(_, flight) => flight == Some(id)
    case _ => false
  }

  /** An answer that is stored. */
  predicate Stores(rules: Rules, origin: Origin) {
    origin.Reply? && rules.storable(origin.status, origin.headers)
  }

  ghost predicate ReplyOk(rules: Rules, s: State, id: nat, req: Request, origin: Origin) {
    && id in s.procs && s.procs[id].req == req && Carries(rules, id, req, origin, s.procs[id].stage)
    && (id in s.results ==> Outcome(rules, req, origin, s.results[id]))
  }

  /** Stages after the store. */
  predicate Past(stage: Stage) {
    stage.Returning? || stage.Awaiting? || stage.Done?
  }

  ghost predicate StoreOk(s: State, id: nat, key: string) {
    id in s.procs && s.procs[id].key == key && Past(s.procs[id].stage)
  }

  ghost predicate EventOk(rules: Rules, s: State, event: Event) {
    match event
    case Replied(id, req, origin, at) => ReplyOk(rules, s, id, req, origin) && at <= s.now
    case Stored(id, key, _, at) => StoreOk(s, id, key) && at <= s.now
    case _ => true
  }

  // ----- where responses come from

  /** The origin has said this to some request with this key. */
  ghost predicate Said(rules: Rules, log: seq<Event>, key: string, entry: L.Entry) {
    exists id: nat, req: Request, origin: Origin, at: int ::
      && Replied(id, req, origin, at) in log && origin.Reply?
      && rules.keyOf(req) == key && !rules.bypasses(req)
      && (entry.status, entry.headers, entry.body) == (origin.status, origin.headers, origin.body)
  }

  /** The entry a request is about to hand out or has been answered with. */
  function Carried(stage: Stage): Option<L.Entry> {
    match stage
    case Returning(Got(entry)) => Some(entry)
    case Done(Hit(entry), _) => Some(entry)
    case Done(Miss(entry), _) => Some(entry)
    case _ => None
  }

  ghost predicate CarriedOk(rules: Rules, log: seq<Event>, p: Proc) {
    Carried(p.stage).Some? ==> Said(rules, log, p.key, Carried(p.stage).value)
  }

  ghost predicate ResultOk(rules: Rules, s: State, id: nat)
    requires id in s.results
  {
    s.results[id].Got? ==> id in s.procs && Said(rules, s.log, s.procs[id].key, s.results[id].entry)
  }

  ghost predicate EventsOk(rules: Rules, s: State) {
    forall i | 0 <= i < |s.log| :: EventOk(rules, s, s.log[i])
  }

  ghost predicate AllSaid(rules: Rules, s: State) {
    && (forall id <- s.procs :: CarriedOk(rules, s.log, s.procs[id]))
    && (forall id <- s.results :: ResultOk(rules, s, id))
  }

  ghost predicate History(rules: Rules, s: State) {
    Inv(rules, s) && EventsOk(rules, s) && AllSaid(rules, s)
  }

  // ----- what a step writes into the log

  /** The events between two logs: only `Answer` writes a reply, only `Store` a store, only the lookups what they find. */
  ghost predicate Writes(s: State, s': State, step: Step) {
    s.log <= s'.log && forall i | |s.log| <= i < |s'.log| :: Writing(s, step, s'.log[i])
  }

  predicate Writing(s: State, step: Step, e: Event) {
    && (e.Replied? ==>
          && step.Answer? && e.id == step.id && e.id in s.procs && e.at == s.now
          && e.req == s.procs[e.id].req && e.origin == step.origin)
    && (e.Stored? ==>
          step.Store? && e.id == step.id && e.id in s.procs && e.at == s.now && e.key == s.procs[e.id].key)
    && (e.Looked? ==>
          && (if e.second then step.Recheck? else step.Begin?) && e.id == step.id && e.id in s.procs && e.at == s.now
          && e.key == s.procs[e.id].key && e.found == L.Get(s.cache, e.key, s.now).1)
  }

  lemma AppendWrites(s: State, s': State, step: Step, events: seq<Event>)
    requires s'.log == s.log + events && forall e <- events :: Writing(s, step, e)
    ensures Writes(s, s', step)
  {
    forall i | |s.log| <= i < |s'.log| ensures Writing(s, step, s'.log[i]) {
      assert s'.log[i] == events[i - |s.log|];
    }
  }

  lemma LookupWrites(s: State, id: nat, second: bool, step: Step)
    requires id in s.procs && step == if second then Recheck(id) else Begin(id)
    ensures Writes(s, Lookup(s, id, second).0, step)
  {
    var (s', found) := Lookup(s, id, second);
    AppendWrites(s, s', step,
      [Dropped(Lost(s.cache, s'.cache), Expired), Looked(id, s.procs[id].key, second, found, s.now)]);
  }

  lemma RecheckWrites(s: State, id: nat)
    requires id in s.procs
    ensures Writes(s, DoRecheck(s, id), Recheck(id))
  {
    LookupWrites(s, id, true, Recheck(id));
  }

  lemma StoreWrites(s: State, id: nat)
    requires id in s.procs && s.procs[id].stage.Storing? && s.cache.maxEntries >= 1
    ensures Writes(s, DoStore(s, id), Store(id))
  {
    var key, entry := s.procs[id].key, s.procs[id].stage.entry;
    AppendWrites(s, DoStore(s, id), Store(id),
      [Dropped(Lost(s.cache, L.Set(s.cache, key, entry)), Evicted), Stored(id, key, entry, s.now)]);
  }

  lemma StepWrites(rules: Rules, s: State, step: Step)
    requires s.cache.maxEntries >= 1 && Enabled(s, step)
    ensures Writes(s, Next(rules, s, step), step)
  {
    match step {
      case Begin(id) => LookupWrites(s, id, false, step);
      case Recheck(id) => RecheckWrites(s, id);
      case Store(id) => StoreWrites(s, id);
      case _ =>
    }
  }

  /** Only the end of a flight leaves a result behind, the one its leader returns. */
  ghost predicate Leaves(s: State, s': State, step: Step) {
    if step.Finish? then
      && step.id in s.procs && s.procs[step.id].stage.Returning?
      && s'.results == s.results[step.id := s.procs[step.id].stage.result]
    else s'.results == s.results
  }

  lemma StepResults(rules: Rules, s: State, step: Step)
    requires s.cache.maxEntries >= 1 && Enabled(s, step)
    ensures Leaves(s, Next(rules, s, step), step)
  {
  }

  // ----- old events

  lemma DecideCarries(rules: Rules, s: State, id: nat, req: Request, origin: Origin)
    requires StagesOk(rules, s) && ReplyOk(rules, s, id, req, origin) && s.procs[id].stage.Answered?
    ensures Carries(rules, id, req, origin, StageOf(DoDecide(rules, s, id), id))
  {
    assert StageOk(rules, s.log, s.now, id, s.procs[id]);
  }

  /** An answered request moves on with what its answer leads to. */
  lemma CarriesOn(rules: Rules, s: State, step: Step, id: nat, req: Request, origin: Origin)
    requires Inv(rules, s) && Enabled(s, step) && Mover(step) == Some(id)
    requires ReplyOk(rules, s, id, req, origin)
    ensures Carries(rules, id, req, origin, StageOf(Next(rules, s, step), id))
  {
    StepStage(rules, s, step);
    if step.Decide? {
      DecideCarries(rules, s, id, req, origin);
    }
  }

  lemma ReplyStays(rules: Rules, s: State, s': State, step: Step, id: nat, req: Request, origin: Origin)
    requires ReplyOk(rules, s, id, req, origin) && Shape(s, s', step)
    requires Mover(step) == Some(id) ==> Carries(rules, id, req, origin, StageOf(s', id))
    requires Leaves(s, s', step)
    ensures ReplyOk(rules, s', id, req, origin)
  {
  }

  lemma ReplyKept(rules: Rules, s: State, step: Step, id: nat, req: Request, origin: Origin)
    requires Inv(rules, s) && Enabled(s, step) && ReplyOk(rules, s, id, req, origin)
    ensures ReplyOk(rules, Next(rules, s, step), id, req, origin)
  {
    StepMoves(rules, s, step);
    StepResults(rules, s, step);
    if Mover(step) == Some(id) {
      CarriesOn(rules, s, step, id, req, origin);
    }
    ReplyStays(rules, s, Next(rules, s, step), step, id, req, origin);
  }

  lemma StoredKept(rules: Rules, s: State, step: Step, id: nat, key: string)
    requires s.cache.maxEntries >= 1 && Enabled(s, step) && StoreOk(s, id, key)
    ensures StoreOk(Next(rules, s, step), id, key)
  {
    StepMoves(rules, s, step);
    if Mover(step) == Some(id) {
      StepStage(rules, s, step);
    }
  }

  lemma EventKept(rules: Rules, s: State, step: Step, event: Event)
    requires Inv(rules, s) && Enabled(s, step) && EventOk(rules, s, event)
    ensures EventOk(rules, Next(rules, s, step), event)
  {
    StepTime(rules, s, step);
    match event {
      case Replied(id, req, origin, _) => ReplyKept(rules, s, step, id, req, origin);
      case Stored(id, key, _, _) => StoredKept(rules, s, step, id, key);
      case _ =>
    }
  }

  // ----- new events

  lemma AnswerOk(rules: Rules, s: State, id: nat, origin: Origin)
    requires WaitersOk(s) && At(s, id, Fetching)
    ensures ReplyOk(rules, DoAnswer(s, id, origin), id, s.procs[id].req, origin)
  {
    assert id !in s.results;
  }

  lemma WrittenOk(rules: Rules, s: State, step: Step, event: Event)
    requires Inv(rules, s) && Enabled(s, step) && Writing(s, step, event)
    ensures EventOk(rules, Next(rules, s, step), event)
  {
    StepTime(rules, s, step);
    if event.Replied? {
      AnswerOk(rules, s, step.id, step.origin);
    } else if event.Stored? {
      StepMoves(rules, s, step);
      StepStage(rules, s, step);
    }
  }

  lemma StepEvents(rules: Rules, s: State, step: Step)
    requires History(rules, s) && Enabled(s, step)
    ensures EventsOk(rules, Next(rules, s, step))
  {
    StepWrites(rules, s, step);
    var s' := Next(rules, s, step);
    forall i | 0 <= i < |s'.log| ensures EventOk(rules, s', s'.log[i]) {
      if i < |s.log| {
        EventKept(rules, s, step, s.log[i]);
      } else {
        WrittenOk(rules, s, step, s'.log[i]);
      }
    }
  }

  // ----- provenance

  lemma SaidLater(rules: Rules, log: seq<Event>, later: seq<Event>, key: string, entry: L.Entry)
    requires Said(rules, log, key, entry) && log <= later
    ensures Said(rules, later, key, entry)
  {
    var id, req, origin, at :|
      && Replied(id, req, origin, at) in log && origin.Reply?
      && rules.keyOf(req) == key && !rules.bypasses(req)
      && (entry.status, entry.headers, entry.body) == (origin.status, origin.headers, origin.body);
    assert Replied(id, req, origin, at) in later;
  }

  lemma OriginSaid(rules: Rules, log: seq<Event>, id: nat, key: string, entry: L.Entry)
    requires FromOrigin(rules, log, id, key, entry)
    ensures Said(rules, log, key, entry)
  {
  }

  /** The entry the log holds under a key was stored at some point and not dropped after it. */
  lemma {:induction false} LatestIsStored(log: seq<Event>, key: string) returns (j: nat)
    requires Latest(log, key).Some?
    ensures j < |log| && log[j].Stored? && log[j].key == key && Latest(log, key) == Some(log[j].entry)
    ensures forall m | j < m < |log| :: !(log[m].Dropped? && key in log[m].keys) && !(log[m].Stored? && log[m].key == key)
  {
    var n := |log| - 1;
    if log[n].Stored? && log[n].key == key {
      j := n;
    } else {
      j := LatestIsStored(log[..n], key);
    }
  }

  /** Whatever the cache holds, the origin has said. */
  lemma HeldSaid(rules: Rules, s: State, key: string, entry: L.Entry)
    requires Inv(rules, s) && L.Find(s.cache.items, key) == Some(entry)
    ensures Said(rules, s.log, key, entry)
  {
    assert Latest(s.log, key) == Some(entry);
    var j := LatestIsStored(s.log, key);
    assert GoodEvent(rules, s.log[..j], s.log[j]);
    OriginSaid(rules, s.log[..j], s.log[j].id, key, entry);
    SaidLater(rules, s.log[..j], s.log, key, entry);
  }

  /** What a lookup finds, the origin has said. */
  lemma FoundSaid(rules: Rules, s: State, id: nat, second: bool)
    requires Inv(rules, s) && id in s.procs
    ensures var found := Lookup(s, id, second).1;
      found.Some? ==> Said(rules, s.log, s.procs[id].key, found.value)
  {
    var key := s.procs[id].key;
    var found := Lookup(s, id, second).1;
    L.GetShrinks(s.cache, key, s.now);
    if found.Some? {
      HeldSaid(rules, s, key, found.value);
    }
  }

  /** What a request hands out from this stage on, the origin has said. */
  ghost predicate StageSaid(rules: Rules, log: seq<Event>, key: string, stage: Stage) {
    Carried(stage).Some? ==> Said(rules, log, key, Carried(stage).value)
  }

  lemma BeginSaid(rules: Rules, s: State, id: nat)
    requires Inv(rules, s) && At(s, id, Arrived)
    ensures StageSaid(rules, s.log, s.procs[id].key, StageOf(DoBegin(rules, s, id), id))
  {
    FoundSaid(rules, s, id, false);
  }

  lemma RecheckSaid(rules: Rules, s: State, id: nat)
    requires Inv(rules, s) && At(s, id, Rechecking)
    ensures StageSaid(rules, s.log, s.procs[id].key, StageOf(DoRecheck(s, id), id))
  {
    FoundSaid(rules, s, id, true);
  }

  lemma DecideSaid(rules: Rules, s: State, id: nat)
    requires Inv(rules, s) && id in s.procs && s.procs[id].stage.Answered?
    ensures StageSaid(rules, s.log, s.procs[id].key, StageOf(DoDecide(rules, s, id), id))
  {
    assert StageOk(rules, s.log, s.now, id, s.procs[id]);
  }

  lemma StoreSaid(rules: Rules, s: State, id: nat)
    requires Inv(rules, s) && id in s.procs && s.procs[id].stage.Storing?
    ensures StageSaid(rules, s.log, s.procs[id].key, StageOf(DoStore(s, id), id))
  {
    assert StageOk(rules, s.log, s.now, id, s.procs[id]);
    OriginSaid(rules, s.log, id, s.procs[id].key, s.procs[id].stage.entry);
  }

  lemma DeliverSaid(rules: Rules, s: State, id: nat)
    requires History(rules, s) && Enabled(s, Deliver(id))
    ensures StageSaid(rules, s.log, s.procs[id].key, StageOf(DoDeliver(s, id), id))
  {
    var leader := s.procs[id].stage.leader;
    assert ResultOk(rules, s, leader) && s.procs[leader].key == s.procs[id].key;
    assert StageOf(DoDeliver(s, id), id) == Done(Respond(s.results[leader]), Some(leader));
    RespondCarries(s.results[leader], Some(leader));
  }

  lemma RespondCarries(result: Result, flight: Option<nat>)
    ensures Carried(Done(Respond(result), flight)) == if result.Got? then Some(result.entry) else None
  {
  }

  /** So is what a request answers with after its own step. */
  lemma MoverSaid(rules: Rules, s: State, step: Step, id: nat)
    requires History(rules, s) && Enabled(s, step) && Mover(step) == Some(id) && id in s.procs
    ensures StageSaid(rules, s.log, s.procs[id].key, StageOf(Next(rules, s, step), id))
  {
    if step.Begin? {
      BeginSaid(rules, s, id);
    } else if step.Recheck? {
      RecheckSaid(rules, s, id);
    } else if step.Decide? {
      DecideSaid(rules, s, id);
    } else if step.Store? {
      StoreSaid(rules, s, id);
    } else if step.Deliver? {
      DeliverSaid(rules, s, id);
    } else {
      StepStage(rules, s, step);
    }
  }

  lemma CarriedKept(rules: Rules, s: State, s': State, step: Step)
    requires AllSaid(rules, s) && Shape(s, s', step) && s.log <= s'.log
    requires Mover(step).Some? ==>
      var id := Mover(step).value; StageSaid(rules, s.log, s.procs[id].key, StageOf(s', id))
    ensures forall id <- s'.procs :: CarriedOk(rules, s'.log, s'.procs[id])
  {
    forall id <- s'.procs | Carried(s'.procs[id].stage).Some? ensures CarriedOk(rules, s'.log, s'.procs[id]) {
      assert id in s.procs && s.procs[id].key == s'.procs[id].key;
      assert Mover(step) != Some(id) ==> CarriedOk(rules, s.log, s.procs[id]);
      SaidLater(rules, s.log, s'.log, s'.procs[id].key, Carried(s'.procs[id].stage).value);
    }
  }

  lemma ResultsKept(rules: Rules, s: State, s': State, step: Step)
    requires AllSaid(rules, s) && Shape(s, s', step) && s.log <= s'.log
    requires Leaves(s, s', step)
    ensures forall id <- s'.results :: ResultOk(rules, s', id)
  {
    forall id <- s'.results | s'.results[id].Got? ensures ResultOk(rules, s', id) {
      if step.Finish? && step.id == id {
        assert CarriedOk(rules, s.log, s.procs[id]);
      } else {
        assert ResultOk(rules, s, id);
      }
      SaidLater(rules, s.log, s'.log, s.procs[id].key, s'.results[id].entry);
    }
  }

  lemma StepSaid(rules: Rules, s: State, step: Step)
    requires History(rules, s) && Enabled(s, step)
    ensures AllSaid(rules, Next(rules, s, step))
  {
    StepMoves(rules, s, step);
    StepWrites(rules, s, step);
    StepResults(rules, s, step);
    if Mover(step).Some? {
      MoverSaid(rules, s, step, Mover(step).value);
    }
    CarriedKept(rules, s, Next(rules, s, step), step);
    ResultsKept(rules, s, Next(rules, s, step), step);
  }

  // ----- every step, every run

  lemma StepHistory(rules: Rules, s: State, step: Step)
    requires History(rules, s) && Enabled(s, step)
    ensures History(rules, Next(rules, s, step))
  {
    StepInv(rules, s, step);
    StepEvents(rules, s, step);
    StepSaid(rules, s, step);
  }

  lemma {:induction false} RunHistory(rules: Rules, s: State, steps: seq<Step>)
    requires History(rules, s) && CanRun(rules, s, steps)
    ensures History(rules, Run(rules, s, steps))
    decreases |steps|
  {
    if steps != [] {
      StepHistory(rules, s, steps[0]);
      RunHistory(rules, Next(rules, s, steps[0]), steps[1..]);
    }
  }

  lemma ReachableHistory(rules: Rules, s: State)
    requires Reachable(rules, s)
    ensures History(rules, s)
  {
    var maxEntries: int, maxBytes: int, now: int, steps: seq<Step> :|
      && maxEntries >= 1 && maxBytes >= 0
      && CanRun(rules, Init(maxEntries, maxBytes, now), steps)
      && s == Run(rules, Init(maxEntries, maxBytes, now), steps);
    RunHistory(rules, Init(maxEntries, maxBytes, now), steps);
  }

  // ----- responses

  /** Every hit and every miss is what the origin said to a request with the same key. */
  lemma ResponseFromOrigin(rules: Rules, s: State, id: nat, entry: L.Entry)
    returns (other: nat, req: Request, origin: Origin, at: int)
    requires Reachable(rules, s) && id in s.procs && s.procs[id].stage.Done?
    requires s.procs[id].stage.response in [Hit(entry), Miss(entry)]
    ensures Replied(other, req, origin, at) in s.log && origin.Reply?
    ensures rules.keyOf(req) == rules.keyOf(s.procs[id].req) && !rules.bypasses(req) && !rules.bypasses(s.procs[id].req)
    ensures (entry.status, entry.headers, entry.body) == (origin.status, origin.headers, origin.body)
  {
    ReachableHistory(rules, s);
    var p := s.procs[id];
    assert CarriedOk(rules, s.log, p) && StageOk(rules, s.log, s.now, id, p);
    other, req, origin, at :|
      && Replied(other, req, origin, at) in s.log && origin.Reply?
      && rules.keyOf(req) == p.key && !rules.bypasses(req)
      && (entry.status, entry.headers, entry.body) == (origin.status, origin.headers, origin.body);
  }

  /**
   * What the origin says to the leader is what everyone in its flight is answered with: a failure as
   * an error, an answer that is not storable as it is, a storable one as the entry that was stored.
   */
  lemma AnswerReachesFlight(rules: Rules, s: State, leader: nat, req: Request, origin: Origin, at: int, id: nat)
    requires Reachable(rules, s) && Replied(leader, req, origin, at) in s.log
    requires id in s.procs && s.procs[id].stage.Done? && s.procs[id].stage.flight == Some(leader)
    ensures var response := s.procs[id].stage.response;
      && rules.keyOf(s.procs[id].req) == rules.keyOf(req)
      && (if origin.Failed? then response == BadGateway
          else if !rules.storable(origin.status, origin.headers) then response == Miss(Fetched(origin))
          else
            && response.Miss?
            && response.entry == Stamped(rules, req, rules.keyOf(req), origin, response.entry.storedAt))
  {
    ReachableHistory(rules, s);
    var i :| 0 <= i < |s.log| && s.log[i] == Replied(leader, req, origin, at);
    assert EventOk(rules, s, s.log[i]);
    assert StageOk(rules, s.log, s.now, id, s.procs[id]) && StageOk(rules, s.log, s.now, leader, s.procs[leader]);
  }

  /** Only the leader of a flight asks the origin, and it is the one whose request the origin has seen. */
  lemma OnlyLeadersAsk(rules: Rules, s: State, id: nat, req: Request, origin: Origin, at: int)
    requires Reachable(rules, s) && Replied(id, req, origin, at) in s.log
    ensures id in s.procs && s.procs[id].req == req
    ensures s.procs[id].stage.Done? ==> s.procs[id].stage.flight == Some(id)
  {
    ReachableHistory(rules, s);
    var i :| 0 <= i < |s.log| && s.log[i] == Replied(id, req, origin, at);
    assert EventOk(rules, s, s.log[i]);
  }
}
