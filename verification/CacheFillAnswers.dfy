/**
 * Which answer a request gets, and why: what each lookup leads to, and where every answer comes from.
 * An invariant on top of the one of `CacheFillHistory`.
 */
module CacheFillAnswers {
  import opened Strings
  import opened Http
  import opened CacheFill
  import opened CacheFillSafety
  import opened CacheFillHistory
  import L = Lru

  // ----- where results come from

  /** The request's second lookup has found this. */
  ghost predicate ByLookup(log: seq<Event>, id: nat, key: string, result: Result) {
    result.Got? && exists at: int :: Looked(id, key, true, Some(result.entry), at) in log
  }

  /** The origin's answer to the request leads to this. */
  ghost predicate ByReply(rules: Rules, log: seq<Event>, id: nat, result: Result) {
    exists req: Request, origin: Origin, at: int ::
      Replied(id, req, origin, at) in log && Outcome(rules, req, origin, result)
  }

  ghost predicate Explained(rules: Rules, log: seq<Event>, id: nat, key: string, result: Result) {
    ByLookup(log, id, key, result) || ByReply(rules, log, id, result)
  }

  /** A hit comes from the request's own first lookup. */
  ghost predicate FoundAtFirst(log: seq<Event>, id: nat, key: string, entry: L.Entry) {
    exists at: int :: Looked(id, key, false, Some(entry), at) in log
  }

  ghost predicate StageTold(rules: Rules, log: seq<Event>, id: nat, p: Proc) {
    match p.stage
    case Returning(result) => Explained(rules, log, id, p.key, result)
    case Done(Bypassed, flight) => flight == None && rules.bypasses(p.req)
    case Done(Hit(entry), flight) => flight == None && FoundAtFirst(log, id, p.key, entry)
    case Done(_, flight) => flight.Some?
    case _ => true
  }

  ghost predicate StagesTold(rules: Rules, s: State) {
    forall id <- s.procs :: StageTold(rules, s.log, id, s.procs[id])
  }

  ghost predicate ResultTold(rules: Rules, s: State, id: nat)
    requires id in s.results
  {
    id in s.procs && Explained(rules, s.log, id, s.procs[id].key, s.results[id])
  }

  ghost predicate ResultsTold(rules: Rules, s: State) {
    forall id <- s.results :: ResultTold(rules, s, id)
  }

  // ----- what lookups lead to

  /** The request is about to leave this result behind, or has. */
  predicate Gives(s: State, id: nat, result: Result)
    requires id in s.procs
  {
    match s.procs[id].stage
    case Returning(r) => r == result
    case Awaiting(leader) => leader == id && id in s.results && s.results[id] == result
    case Done(_, flight) => flight == Some(id) && id in s.results && s.results[id] == result
    case _ => false
  }

  /** The request asks the origin, and leaves behind what that leads to. */
  ghost predicate AsksOrigin(rules: Rules, s: State, id: nat)
    requires id in s.procs
  {
    match s.procs[id].stage
    case Fetching => true
    case Answered(_) => true
    case Storing(_) => true
    case Returning(result) => ByReply(rules, s.log, id, result)
    case Awaiting(leader) => leader == id && id in s.results && ByReply(rules, s.log, id, s.results[id])
    case Done(_, flight) => flight == Some(id) && id in s.results && ByReply(rules, s.log, id, s.results[id])
    case _ => false
  }

  /** The request does not get by without a flight. */
  predicate NeedsFlight(stage: Stage) {
    !stage.Arrived? && (stage.Done? ==> stage.flight.Some?)
  }

  ghost predicate LookOk(rules: Rules, s: State, e: Event) {
    e.Looked? ==>
      && e.id in s.procs && s.procs[e.id].key == e.key && e.at <= s.now
      && match (e.second, e.found)
         case (true, Some(entry)) => Gives(s, e.id, Got(entry))
         case (true, None) => AsksOrigin(rules, s, e.id)
         case (false, Some(entry)) => s.procs[e.id].stage == Done(Hit(entry), None)
         case (false, None) => NeedsFlight(s.procs[e.id].stage)
  }

  ghost predicate LooksOk(rules: Rules, s: State) {
    forall i | 0 <= i < |s.log| :: LookOk(rules, s, s.log[i])
  }

  // ----- what is stored

  ghost predicate HasStored(log: seq<Event>, id: nat, key: string) {
    exists entry: L.Entry, at: int :: Stored(id, key, entry, at) in log
  }

  /** A storable answer has been stored when its request is past the store. */
  ghost predicate StoreDone(rules: Rules, s: State, e: Event) {
    e.Replied? && Stores(rules, e.origin) && e.id in s.procs && Past(s.procs[e.id].stage) ==>
      HasStored(s.log, e.id, s.procs[e.id].key)
  }

  ghost predicate StoresDone(rules: Rules, s: State) {
    forall i | 0 <= i < |s.log| :: StoreDone(rules, s, s.log[i])
  }

  ghost predicate Told(rules: Rules, s: State) {
    History(rules, s) && StagesTold(rules, s) && ResultsTold(rules, s) && LooksOk(rules, s) && StoresDone(rules, s)
  }

  // ----- longer logs

  lemma InLonger(log: seq<Event>, later: seq<Event>)
    requires log <= later
    ensures forall e <- log :: e in later
  {
  }

  lemma ByReplyLater(rules: Rules, log: seq<Event>, later: seq<Event>, id: nat, result: Result)
    requires ByReply(rules, log, id, result) && log <= later
    ensures ByReply(rules, later, id, result)
  {
    InLonger(log, later);
    var req: Request, origin: Origin, at: int :|
      Replied(id, req, origin, at) in log && Outcome(rules, req, origin, result);
    assert Replied(id, req, origin, at) in later;
  }

  lemma ExplainedLater(rules: Rules, log: seq<Event>, later: seq<Event>, id: nat, key: string, result: Result)
    requires Explained(rules, log, id, key, result) && log <= later
    ensures Explained(rules, later, id, key, result)
  {
    InLonger(log, later);
    if ByReply(rules, log, id, result) {
      ByReplyLater(rules, log, later, id, result);
    } else {
      var at: int :| Looked(id, key, true, Some(result.entry), at) in log;
      assert Looked(id, key, true, Some(result.entry), at) in later;
    }
  }

  lemma StageToldLater(rules: Rules, log: seq<Event>, later: seq<Event>, id: nat, p: Proc)
    requires StageTold(rules, log, id, p) && log <= later
    ensures StageTold(rules, later, id, p)
  {
    InLonger(log, later);
    if p.stage.Returning? {
      ExplainedLater(rules, log, later, id, p.key, p.stage.result);
    } else if p.stage.Done? && p.stage.response.Hit? {
      var at: int :| Looked(id, p.key, false, Some(p.stage.response.entry), at) in log;
      assert Looked(id, p.key, false, Some(p.stage.response.entry), at) in later;
    }
  }

  // ----- what the moving request comes to

  /** The lookup is the last event it writes, or the last but one. */
  lemma LookupLogged(s: State, id: nat, second: bool)
    requires id in s.procs
    ensures var (s', found) := Lookup(s, id, second);
      s.log <= s'.log && Looked(id, s.procs[id].key, second, found, s.now) in s'.log
  {
    var (s', found) := Lookup(s, id, second);
    assert s'.log[|s.log| + 1] == Looked(id, s.procs[id].key, second, found, s.now);
  }

  lemma BeginTold(rules: Rules, s: State, id: nat)
    requires At(s, id, Arrived)
    ensures var s' := DoBegin(rules, s, id); StageTold(rules, s'.log, id, s'.procs[id])
  {
    LookupLogged(s, id, false);
  }

  lemma RecheckTold(rules: Rules, s: State, id: nat)
    requires At(s, id, Rechecking)
    ensures var s' := DoRecheck(s, id); StageTold(rules, s'.log, id, s'.procs[id])
  {
    LookupLogged(s, id, true);
    var (s', found) := Lookup(s, id, true);
    if found.Some? {
      assert ByLookup(s'.log, id, s.procs[id].key, Got(found.value));
    }
  }

  lemma DecideByReply(rules: Rules, s: State, id: nat)
    requires StagesOk(rules, s) && id in s.procs && s.procs[id].stage.Answered?
    ensures var s' := DoDecide(rules, s, id);
      s'.procs[id].stage.Returning? ==> ByReply(rules, s.log, id, s'.procs[id].stage.result)
  {
    var p := s.procs[id];
    assert StageOk(rules, s.log, s.now, id, p);
    var at :| Replied(id, p.req, p.stage.origin, at) in s.log;
    var to := Decision(rules, p, p.stage.origin, s.now);
    assert to.Returning? ==> Outcome(rules, p.req, p.stage.origin, to.result);
  }

  lemma StoreByReply(rules: Rules, s: State, id: nat)
    requires StagesOk(rules, s) && id in s.procs && s.procs[id].stage.Storing?
    ensures ByReply(rules, s.log, id, Got(s.procs[id].stage.entry))
  {
    var p := s.procs[id];
    assert StageOk(rules, s.log, s.now, id, p);
    var req, origin, at :|
      && Replied(id, req, origin, at) in s.log && at <= p.stage.entry.storedAt
      && origin.Reply? && rules.keyOf(req) == p.key && !rules.bypasses(req)
      && rules.storable(origin.status, origin.headers)
      && p.stage.entry == Stamped(rules, req, p.key, origin, p.stage.entry.storedAt);
    assert Outcome(rules, req, origin, Got(p.stage.entry));
  }

  /** A flight's leader that has asked the origin returns what the answer leads to. */
  lemma AskerReturns(rules: Rules, s: State, step: Step, id: nat)
    requires Inv(rules, s) && Enabled(s, step) && Mover(step) == Some(id) && (step.Decide? || step.Store?)
    ensures var s' := Next(rules, s, step);
      && id in s'.procs && s.log <= s'.log
      && (s'.procs[id].stage.Returning? ==> ByReply(rules, s'.log, id, s'.procs[id].stage.result))
  {
    StepWrites(rules, s, step);
    StepMoves(rules, s, step);
    var s' := Next(rules, s, step);
    if step.Decide? {
      DecideByReply(rules, s, id);
    } else {
      StoreByReply(rules, s, id);
      assert s'.procs[id].stage == Returning(Got(s.procs[id].stage.entry));
    }
    if s'.procs[id].stage.Returning? {
      ByReplyLater(rules, s.log, s'.log, id, s'.procs[id].stage.result);
    }
  }

  lemma DeliverTold(rules: Rules, s: State, id: nat)
    requires Enabled(s, Deliver(id))
    ensures var s' := DoDeliver(s, id); StageTold(rules, s'.log, id, s'.procs[id])
  {
  }

  lemma MoverTold(rules: Rules, s: State, step: Step, id: nat)
    requires Inv(rules, s) && Enabled(s, step) && Mover(step) == Some(id)
    ensures var s' := Next(rules, s, step); id in s'.procs && StageTold(rules, s'.log, id, s'.procs[id])
  {
    StepMoves(rules, s, step);
    if step.Begin? {
      BeginTold(rules, s, id);
    } else if step.Recheck? {
      RecheckTold(rules, s, id);
    } else if step.Decide? || step.Store? {
      AskerReturns(rules, s, step, id);
      StepStage(rules, s, step);
    } else if step.Deliver? {
      DeliverTold(rules, s, id);
    } else {
      StepStage(rules, s, step);
    }
  }

  lemma StepStagesTold(rules: Rules, s: State, step: Step)
    requires Told(rules, s) && Enabled(s, step)
    ensures StagesTold(rules, Next(rules, s, step))
  {
    StepMoves(rules, s, step);
    StepWrites(rules, s, step);
    var s' := Next(rules, s, step);
    forall id <- s'.procs ensures StageTold(rules, s'.log, id, s'.procs[id]) {
      if Mover(step) == Some(id) {
        MoverTold(rules, s, step, id);
      } else if id in s.procs {
        StageToldLater(rules, s.log, s'.log, id, s.procs[id]);
      }
    }
  }

  lemma ResultsToldKept(rules: Rules, s: State, s': State, step: Step)
    requires StagesTold(rules, s) && ResultsTold(rules, s)
    requires Shape(s, s', step) && Leaves(s, s', step) && s.log <= s'.log
    ensures ResultsTold(rules, s')
  {
    forall id <- s'.results ensures ResultTold(rules, s', id) {
      if step.Finish? && step.id == id {
        assert StageTold(rules, s.log, id, s.procs[id]);
      } else {
        assert ResultTold(rules, s, id);
      }
      ExplainedLater(rules, s.log, s'.log, id, s.procs[id].key, s'.results[id]);
    }
  }

  lemma StepResultsTold(rules: Rules, s: State, step: Step)
    requires Told(rules, s) && Enabled(s, step)
    ensures ResultsTold(rules, Next(rules, s, step))
  {
    StepMoves(rules, s, step);
    StepWrites(rules, s, step);
    StepResults(rules, s, step);
    ResultsToldKept(rules, s, Next(rules, s, step), step);
  }

  // ----- lookups

  lemma GivesKept(s: State, s': State, step: Step, id: nat, result: Result)
    requires id in s.procs && Gives(s, id, result) && Shape(s, s', step) && Leaves(s, s', step)
    requires Mover(step) == Some(id) ==> Onward(step, StageOf(s, id), StageOf(s', id))
    ensures id in s'.procs && Gives(s', id, result)
  {
  }

  lemma AsksKept(rules: Rules, s: State, s': State, step: Step, id: nat)
    requires id in s.procs && AsksOrigin(rules, s, id) && Shape(s, s', step) && Leaves(s, s', step) && s.log <= s'.log
    requires Mover(step) == Some(id) ==> Onward(step, StageOf(s, id), StageOf(s', id))
    requires Mover(step) == Some(id) && (step.Decide? || step.Store?) ==>
      (StageOf(s', id).Returning? ==> ByReply(rules, s'.log, id, StageOf(s', id).result))
    ensures id in s'.procs && AsksOrigin(rules, s', id)
  {
    var stage := s.procs[id].stage;
    if stage.Returning? {
      ByReplyLater(rules, s.log, s'.log, id, stage.result);
    } else if stage.Awaiting? || stage.Done? {
      ByReplyLater(rules, s.log, s'.log, id, s.results[id]);
    }
  }

  /** A request that has been answered moves no more; one that needs a flight goes on to need it. */
  lemma FirstKept(s: State, s': State, step: Step, id: nat, found: Option<L.Entry>)
    requires id in s.procs && Shape(s, s', step)
    requires Mover(step) == Some(id) ==> Onward(step, StageOf(s, id), StageOf(s', id))
    requires if found.Some? then s.procs[id].stage == Done(Hit(found.value), None) else NeedsFlight(s.procs[id].stage)
    ensures id in s'.procs && s'.procs[id].key == s.procs[id].key
    ensures if found.Some? then s'.procs[id].stage == Done(Hit(found.value), None) else NeedsFlight(s'.procs[id].stage)
  {
  }

  lemma FirstLookKept(rules: Rules, s: State, step: Step, e: Event)
    requires Told(rules, s) && Enabled(s, step) && e.Looked? && !e.second && LookOk(rules, s, e)
    ensures LookOk(rules, Next(rules, s, step), e)
  {
    StepMoves(rules, s, step);
    StepTime(rules, s, step);
    if Mover(step) == Some(e.id) {
      StepStage(rules, s, step);
    }
    FirstKept(s, Next(rules, s, step), step, e.id, e.found);
  }

  lemma KeyKept(rules: Rules, s: State, step: Step, id: nat)
    requires s.cache.maxEntries >= 1 && Enabled(s, step) && id in s.procs
    ensures var s' := Next(rules, s, step);
      id in s'.procs && s'.procs[id].key == s.procs[id].key && s.now <= s'.now
  {
    StepMoves(rules, s, step);
    StepTime(rules, s, step);
  }

  lemma GiverGoesOn(rules: Rules, s: State, step: Step, id: nat, result: Result)
    requires Inv(rules, s) && Enabled(s, step) && id in s.procs && Gives(s, id, result)
    ensures var s' := Next(rules, s, step); id in s'.procs && Gives(s', id, result)
  {
    StepMoves(rules, s, step);
    StepResults(rules, s, step);
    if Mover(step) == Some(id) {
      StepStage(rules, s, step);
    }
    GivesKept(s, Next(rules, s, step), step, id, result);
  }

  lemma OldLookOk(rules: Rules, s: State, step: Step, e: Event)
    requires Told(rules, s) && Enabled(s, step) && e.Looked? && LookOk(rules, s, e)
    ensures LookOk(rules, Next(rules, s, step), e)
  {
    KeyKept(rules, s, step, e.id);
    if !e.second {
      FirstLookKept(rules, s, step, e);
    } else if e.found.Some? {
      GiverGoesOn(rules, s, step, e.id, Got(e.found.value));
    } else {
      AskerGoesOn(rules, s, step, e.id);
    }
  }

  lemma AskerGoesOn(rules: Rules, s: State, step: Step, id: nat)
    requires Inv(rules, s) && Enabled(s, step) && id in s.procs && AsksOrigin(rules, s, id)
    ensures var s' := Next(rules, s, step); id in s'.procs && AsksOrigin(rules, s', id)
  {
    StepMoves(rules, s, step);
    StepWrites(rules, s, step);
    StepResults(rules, s, step);
    if Mover(step) == Some(id) {
      StepStage(rules, s, step);
      if step.Decide? || step.Store? {
        AskerReturns(rules, s, step, id);
      }
    }
    AsksKept(rules, s, Next(rules, s, step), step, id);
  }

  lemma NewFirstLook(rules: Rules, s: State, id: nat)
    requires At(s, id, Arrived)
    ensures var s' := DoBegin(rules, s, id);
      forall i | |s.log| <= i < |s'.log| :: s'.log[i].Looked? ==> LookOk(rules, s', s'.log[i])
  {
  }

  lemma NewSecondLook(rules: Rules, s: State, id: nat)
    requires At(s, id, Rechecking)
    ensures var s' := DoRecheck(s, id);
      forall i | |s.log| <= i < |s'.log| :: s'.log[i].Looked? ==> LookOk(rules, s', s'.log[i])
  {
  }

  lemma NewLookOk(rules: Rules, s: State, step: Step, i: nat)
    requires s.cache.maxEntries >= 1 && Enabled(s, step)
    requires var s' := Next(rules, s, step); |s.log| <= i < |s'.log| && s'.log[i].Looked?
    ensures LookOk(rules, Next(rules, s, step), Next(rules, s, step).log[i])
  {
    StepWrites(rules, s, step);
    assert Writing(s, step, Next(rules, s, step).log[i]);
    if step.Begin? {
      NewFirstLook(rules, s, step.id);
    } else {
      NewSecondLook(rules, s, step.id);
    }
  }

  lemma StepLooks(rules: Rules, s: State, step: Step)
    requires Told(rules, s) && Enabled(s, step)
    ensures LooksOk(rules, Next(rules, s, step))
  {
    StepWrites(rules, s, step);
    var s' := Next(rules, s, step);
    forall i | 0 <= i < |s'.log| ensures LookOk(rules, s', s'.log[i]) {
      if s'.log[i].Looked? {
        if i < |s.log| {
          OldLookOk(rules, s, step, s.log[i]);
        } else {
          NewLookOk(rules, s, step, i);
        }
      }
    }
  }

  // ----- stores

  lemma StoreLogs(rules: Rules, s: State, id: nat)
    requires id in s.procs && s.procs[id].stage.Storing? && s.cache.maxEntries >= 1
    ensures HasStored(DoStore(s, id).log, id, s.procs[id].key)
  {
    var key, entry, log := s.procs[id].key, s.procs[id].stage.entry, DoStore(s, id).log;
    assert log[|s.log| + 1] == Stored(id, key, entry, s.now);
  }

  lemma HasStoredLater(log: seq<Event>, later: seq<Event>, id: nat, key: string)
    requires HasStored(log, id, key) && log <= later
    ensures HasStored(later, id, key)
  {
    InLonger(log, later);
    var entry: L.Entry, at: int :| Stored(id, key, entry, at) in log;
    assert Stored(id, key, entry, at) in later;
  }

  lemma DecideStores(rules: Rules, s: State, id: nat)
    requires id in s.procs && s.procs[id].stage.Answered? && Stores(rules, s.procs[id].stage.origin)
    ensures DoDecide(rules, s, id).procs[id].stage.Storing?
  {
  }

  /** A request with a storable answer gets past the store only by storing. */
  lemma MoverStores(rules: Rules, s: State, step: Step, id: nat, origin: Origin)
    requires s.cache.maxEntries >= 1 && Enabled(s, step) && Mover(step) == Some(id) && id in s.procs
    requires s.procs[id].stage == Answered(origin) || s.procs[id].stage.Storing?
    requires Stores(rules, origin)
    ensures Past(StageOf(Next(rules, s, step), id)) ==> HasStored(Next(rules, s, step).log, id, s.procs[id].key)
  {
    StepStage(rules, s, step);
    if s.procs[id].stage.Storing? {
      StoreLogs(rules, s, id);
    } else {
      DecideStores(rules, s, id);
    }
  }

  lemma StoreDoneStays(rules: Rules, s: State, s': State, step: Step, e: Event)
    requires e.Replied? && e.id in s.procs && StoreDone(rules, s, e) && Shape(s, s', step) && s.log <= s'.log
    requires Mover(step) == Some(e.id) && Stores(rules, e.origin) && !Past(s.procs[e.id].stage) ==>
      (Past(StageOf(s', e.id)) ==> HasStored(s'.log, e.id, s.procs[e.id].key))
    ensures StoreDone(rules, s', e)
  {
    if Stores(rules, e.origin) && Past(s.procs[e.id].stage) {
      HasStoredLater(s.log, s'.log, e.id, s.procs[e.id].key);
    }
  }

  lemma StoreDoneKept(rules: Rules, s: State, step: Step, e: Event)
    requires Inv(rules, s) && Enabled(s, step) && e.Replied? && EventOk(rules, s, e) && StoreDone(rules, s, e)
    ensures StoreDone(rules, Next(rules, s, step), e)
  {
    StepMoves(rules, s, step);
    StepWrites(rules, s, step);
    if Mover(step) == Some(e.id) && Stores(rules, e.origin) && !Past(s.procs[e.id].stage) {
      MoverStores(rules, s, step, e.id, e.origin);
    }
    StoreDoneStays(rules, s, Next(rules, s, step), step, e);
  }

  lemma NewReplyOk(rules: Rules, s: State, step: Step, e: Event)
    requires s.cache.maxEntries >= 1 && Enabled(s, step) && e.Replied? && Writing(s, step, e)
    ensures StoreDone(rules, Next(rules, s, step), e)
  {
  }

  lemma StepStores(rules: Rules, s: State, step: Step)
    requires Told(rules, s) && Enabled(s, step)
    ensures StoresDone(rules, Next(rules, s, step))
  {
    StepWrites(rules, s, step);
    var s' := Next(rules, s, step);
    forall i | 0 <= i < |s'.log| ensures StoreDone(rules, s', s'.log[i]) {
      if s'.log[i].Replied? {
        if i < |s.log| {
          assert EventOk(rules, s, s.log[i]) && StoreDone(rules, s, s.log[i]);
          StoreDoneKept(rules, s, step, s.log[i]);
        } else {
          NewReplyOk(rules, s, step, s'.log[i]);
        }
      }
    }
  }

  // ----- every step, every run

  /** Every step keeps the account. */
  lemma StepTold(rules: Rules, s: State, step: Step)
    requires Told(rules, s) && Enabled(s, step)
    ensures Told(rules, Next(rules, s, step))
  {
    StepHistory(rules, s, step);
    StepStagesTold(rules, s, step);
    StepResultsTold(rules, s, step);
    StepLooks(rules, s, step);
    StepStores(rules, s, step);
  }

  lemma {:induction false} RunTold(rules: Rules, s: State, steps: seq<Step>)
    requires Told(rules, s) && CanRun(rules, s, steps)
    ensures Told(rules, Run(rules, s, steps))
    decreases |steps|
  {
    if steps != [] {
      StepTold(rules, s, steps[0]);
      RunTold(rules, Next(rules, s, steps[0]), steps[1..]);
    }
  }

  lemma ReachableTold(rules: Rules, s: State)
    requires Reachable(rules, s)
    ensures Told(rules, s)
  {
    var maxEntries: int, maxBytes: int, now: int, steps: seq<Step> :|
      && maxEntries >= 1 && maxBytes >= 0
      && CanRun(rules, Init(maxEntries, maxBytes, now), steps)
      && s == Run(rules, Init(maxEntries, maxBytes, now), steps);
    RunTold(rules, Init(maxEntries, maxBytes, now), steps);
  }

  // ----- answers

  /** Why a request has been answered as it has. */
  ghost predicate Justified(rules: Rules, s: State, id: nat, response: Response, flight: Option<nat>)
    requires id in s.procs
  {
    var p := s.procs[id];
    match response
    case Bypassed => flight == None && rules.bypasses(p.req)
    case Hit(entry) => flight == None && !rules.bypasses(p.req) && FoundAtFirst(s.log, id, p.key, entry)
    case Miss(entry) =>
      && flight.Some? && !rules.bypasses(p.req)
      && Explained(rules, s.log, flight.value, p.key, Got(entry))
    case BadGateway =>
      && flight.Some? && !rules.bypasses(p.req)
      && exists req: Request, at: int :: Replied(flight.value, req, Failed, at) in s.log
  }

  /**
   * Every answer has its reason: a bypass the rules, a hit the first lookup, a miss the second lookup
   * of the flight's leader or what the origin told it, and a gateway error a failure of the origin.
   */
  lemma EveryAnswerJustified(rules: Rules, s: State, id: nat)
    requires Reachable(rules, s) && id in s.procs && s.procs[id].stage.Done?
    ensures Justified(rules, s, id, s.procs[id].stage.response, s.procs[id].stage.flight)
  {
    ReachableTold(rules, s);
    var p := s.procs[id];
    assert StageTold(rules, s.log, id, p) && StageOk(rules, s.log, s.now, id, p);
    if p.stage.flight.Some? {
      var leader := p.stage.flight.value;
      assert ResultTold(rules, s, leader) && p.stage.response == Respond(s.results[leader]);
      if p.stage.response.BadGateway? {
        var req: Request, origin: Origin, at: int :|
          Replied(leader, req, origin, at) in s.log && Outcome(rules, req, origin, s.results[leader]);
      }
    }
  }

  /** So a request has bypassed the cache exactly if the rules say so. */
  lemma BypassedIff(rules: Rules, s: State, id: nat)
    requires Reachable(rules, s) && id in s.procs && s.procs[id].stage.Done?
    ensures s.procs[id].stage.response.Bypassed? <==> rules.bypasses(s.procs[id].req)
  {
    EveryAnswerJustified(rules, s, id);
  }

  /** What the first lookup finds is what the request is answered with; otherwise it needs a flight. */
  lemma FirstLookupDecides(rules: Rules, s: State, id: nat, key: string, found: Option<L.Entry>, at: int)
    requires Reachable(rules, s) && Looked(id, key, false, found, at) in s.log
    ensures id in s.procs && rules.keyOf(s.procs[id].req) == key
    ensures found.Some? ==> s.procs[id].stage == Done(Hit(found.value), None)
    ensures found.None? && s.procs[id].stage.Done? ==>
      s.procs[id].stage.flight.Some? && (s.procs[id].stage.response.Miss? || s.procs[id].stage.response.BadGateway?)
  {
    ReachableTold(rules, s);
    var i :| 0 <= i < |s.log| && s.log[i] == Looked(id, key, false, found, at);
    assert LookOk(rules, s, s.log[i]);
    assert StageOk(rules, s.log, s.now, id, s.procs[id]) && StageTold(rules, s.log, id, s.procs[id]);
  }

  /**
   * What the second lookup of a leader finds is what everyone in its flight is answered with; if it
   * finds nothing, they are answered with what the origin's answer to the leader leads to.
   */
  lemma SecondLookupDecides(rules: Rules, s: State, leader: nat, key: string, found: Option<L.Entry>, at: int, id: nat)
    requires Reachable(rules, s) && Looked(leader, key, true, found, at) in s.log
    requires id in s.procs && s.procs[id].stage.Done? && s.procs[id].stage.flight == Some(leader)
    ensures found.Some? ==> s.procs[id].stage.response == Miss(found.value)
    ensures found.None? ==>
      leader in s.results && s.procs[id].stage.response == Respond(s.results[leader])
      && ByReply(rules, s.log, leader, s.results[leader])
  {
    ReachableTold(rules, s);
    var i :| 0 <= i < |s.log| && s.log[i] == Looked(leader, key, true, found, at);
    assert LookOk(rules, s, s.log[i]);
  }

  /** No storable answer is lost: before anyone is answered with it, it has been stored. */
  lemma StorableIsStored(rules: Rules, s: State, leader: nat, req: Request, origin: Origin, at: int)
    requires Reachable(rules, s) && Replied(leader, req, origin, at) in s.log && Stores(rules, origin)
    requires leader in s.procs && Past(s.procs[leader].stage)
    ensures HasStored(s.log, leader, rules.keyOf(req))
  {
    ReachableTold(rules, s);
    var i :| 0 <= i < |s.log| && s.log[i] == Replied(leader, req, origin, at);
    assert StoreDone(rules, s, s.log[i]) && EventOk(rules, s, s.log[i]);
    assert StageOk(rules, s.log, s.now, leader, s.procs[leader]);
  }
}
