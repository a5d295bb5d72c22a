/**
 * Bypassed requests leave no trace: deleting them from a run changes nothing for anyone else.
 */
module CacheFillErasure {
  import opened Strings
  import opened CacheFill
  import opened CacheFillSafety
  import L = Lru

  function WithoutIds(ids: seq<nat>, gone: set<nat>): seq<nat> {
    if ids == [] then []
    else
      var n := |ids| - 1;
      WithoutIds(ids[..n], gone) + if ids[n] in gone then [] else [ids[n]]
  }

  function Forget(c: L.Cache): L.Cache {
    c.(bypasses := 0)
  }

  /** The state without the requests `gone` and without the count of bypasses. */
  function Strip(s: State, gone: set<nat>): State {
    s.(procs := s.procs - gone, arrivals := WithoutIds(s.arrivals, gone), cache := Forget(s.cache))
  }

  predicate Concerns(step: Step, gone: set<nat>) {
    (step.Arrive? && step.id in gone) || (Mover(step).Some? && Mover(step).value in gone)
  }

  /** The run without the steps of the requests `gone`. */
  function Erase(steps: seq<Step>, gone: set<nat>): seq<Step> {
    if steps == [] then []
    else (if Concerns(steps[0], gone) then [] else [steps[0]]) + Erase(steps[1..], gone)
  }

  /** `gone` are exactly the bypassed requests, and they take no part in the protocol. */
  ghost predicate Apart(rules: Rules, s: State, gone: set<nat>) {
    forall id <- s.procs ::
      && (id in gone <==> rules.bypasses(s.procs[id].req))
      && (id in gone ==> s.procs[id].stage == Arrived || s.procs[id].stage == Done(Bypassed, None))
  }

  ghost predicate Names(rules: Rules, steps: seq<Step>, gone: set<nat>) {
    forall step <- steps :: step.Arrive? ==> (step.id in gone <==> rules.bypasses(step.req))
  }

  // ----- the cache does not look at its bypass counter

  lemma GetForgets(c: L.Cache, key: string, now: int)
    ensures L.Get(Forget(c), key, now) == (Forget(L.Get(c, key, now).0), L.Get(c, key, now).1)
  {
  }

  lemma SetForgets(c: L.Cache, key: string, entry: L.Entry)
    requires c.maxEntries >= 1
    ensures L.Set(Forget(c), key, entry) == Forget(L.Set(c, key, entry))
  {
  }

  lemma AdminForgets(c: L.Cache, purge: Purge)
    requires c.maxEntries >= 1
    ensures L.Apply(Forget(c), AdminCall(purge)) == Forget(L.Apply(c, AdminCall(purge)))
  {
  }

  // ----- one step

  lemma MoveStrips(s: State, id: nat, stage: Stage, gone: set<nat>)
    requires id in s.procs && id !in gone
    ensures Strip(Move(s, id, stage), gone) == Move(Strip(s, gone), id, stage)
  {
    assert s.procs[id := s.procs[id].(stage := stage)] - gone
      == (s.procs - gone)[id := s.procs[id].(stage := stage)];
  }

  lemma LookupStrips(s: State, id: nat, second: bool, gone: set<nat>)
    requires id in s.procs && id !in gone
    ensures Lookup(Strip(s, gone), id, second) == (Strip(Lookup(s, id, second).0, gone), Lookup(s, id, second).1)
  {
    GetForgets(s.cache, s.procs[id].key, s.now);
  }

  lemma BeginStrips(rules: Rules, s: State, id: nat, gone: set<nat>)
    requires id in s.procs && id !in gone && !rules.bypasses(s.procs[id].req)
    ensures Strip(DoBegin(rules, s, id), gone) == DoBegin(rules, Strip(s, gone), id)
  {
    LookupStrips(s, id, false, gone);
    var (s', found) := Lookup(s, id, false);
    MoveStrips(s', id, if found.Some? then Done(Hit(found.value), None) else Missed, gone);
  }

  lemma EnterStrips(s: State, id: nat, gone: set<nat>)
    requires id in s.procs && id !in gone
    ensures Strip(DoEnter(s, id), gone) == DoEnter(Strip(s, gone), id)
  {
    var key := s.procs[id].key;
    if key in s.flights {
      MoveStrips(s, id, Awaiting(s.flights[key]), gone);
    } else {
      MoveStrips(s.(flights := s.flights[key := id], log := s.log + [Led(id, key)]), id, Rechecking, gone);
    }
  }

  lemma RecheckStrips(s: State, id: nat, gone: set<nat>)
    requires id in s.procs && id !in gone
    ensures Strip(DoRecheck(s, id), gone) == DoRecheck(Strip(s, gone), id)
  {
    LookupStrips(s, id, true, gone);
    var (s', found) := Lookup(s, id, true);
    if found.Some? {
      MoveStrips(s', id, Returning(Got(found.value)), gone);
    } else {
      MoveStrips(s'.(log := s'.log + [Began(id, s.procs[id].key)]), id, Fetching, gone);
    }
  }

  lemma StoreStrips(s: State, id: nat, gone: set<nat>)
    requires id in s.procs && id !in gone && s.procs[id].stage.Storing? && s.cache.maxEntries >= 1
    ensures Strip(DoStore(s, id), gone) == DoStore(Strip(s, gone), id)
  {
    var key, entry := s.procs[id].key, s.procs[id].stage.entry;
    SetForgets(s.cache, key, entry);
    var cache := L.Set(s.cache, key, entry);
    var events := [Dropped(Lost(s.cache, cache), Evicted), Stored(id, key, entry, s.now)];
    MoveStrips(s.(cache := cache, log := s.log + events), id, Returning(Got(entry)), gone);
  }

  lemma FinishStrips(s: State, id: nat, gone: set<nat>)
    requires id in s.procs && id !in gone && s.procs[id].stage.Returning?
    ensures Strip(DoFinish(s, id), gone) == DoFinish(Strip(s, gone), id)
  {
    MoveStrips(s.(flights := s.flights - {s.procs[id].key}, results := s.results[id := s.procs[id].stage.result]),
               id, Awaiting(id), gone);
  }

  lemma ArriveStrips(rules: Rules, s: State, step: Step, gone: set<nat>)
    requires s.cache.maxEntries >= 1 && step.Arrive? && Enabled(s, step) && step.id !in gone
    ensures Strip(Next(rules, s, step), gone) == Next(rules, Strip(s, gone), step)
  {
    var p := Proc(step.req, rules.keyOf(step.req), Arrived);
    assert s.procs[step.id := p] - gone == (s.procs - gone)[step.id := p];
    assert (s.arrivals + [step.id])[..|s.arrivals|] == s.arrivals;
  }

  /** A step of anyone else does the same in the stripped state. */
  lemma {:induction false} OtherStep(rules: Rules, s: State, step: Step, gone: set<nat>)
    requires s.cache.maxEntries >= 1 && Apart(rules, s, gone)
    requires Enabled(s, step) && !Concerns(step, gone)
    ensures Enabled(Strip(s, gone), step)
    ensures Strip(Next(rules, s, step), gone) == Next(rules, Strip(s, gone), step)
  {
    match step {
      case Tick(_) =>
      case Admin(purge) => AdminForgets(s.cache, purge);
      case Arrive(_, _) => ArriveStrips(rules, s, step, gone);
      case Begin(id) => BeginStrips(rules, s, id, gone);
      case Enter(id) => EnterStrips(s, id, gone);
      case Recheck(id) => RecheckStrips(s, id, gone);
      case Answer(id, origin) =>
        MoveStrips(s.(log := s.log + [Replied(id, s.procs[id].req, origin, s.now)]), id, Answered(origin), gone);
      case Decide(id) =>
        MoveStrips(s, id, Decision(rules, s.procs[id], s.procs[id].stage.origin, s.now), gone);
      case Store(id) => StoreStrips(s, id, gone);
      case Finish(id) => FinishStrips(s, id, gone);
      case Deliver(id) =>
        var leader := s.procs[id].stage.leader;
        MoveStrips(s, id, Done(Respond(s.results[leader]), Some(leader)), gone);
    }
  }

  /** A step of a bypassed request is invisible in the stripped state. */
  lemma OwnStep(rules: Rules, s: State, step: Step, gone: set<nat>)
    requires s.cache.maxEntries >= 1 && Apart(rules, s, gone)
    requires Enabled(s, step) && Concerns(step, gone)
    ensures Strip(Next(rules, s, step), gone) == Strip(s, gone)
  {
    if step.Arrive? {
      var p := Proc(step.req, rules.keyOf(step.req), Arrived);
      assert s.procs[step.id := p] - gone == s.procs - gone;
      assert (s.arrivals + [step.id])[..|s.arrivals|] == s.arrivals;
    } else {
      assert step.Begin?;
      var p := s.procs[step.id].(stage := Done(Bypassed, None));
      assert s.procs[step.id := p] - gone == s.procs - gone;
    }
  }

  lemma StepApart(rules: Rules, s: State, step: Step, gone: set<nat>)
    requires s.cache.maxEntries >= 1 && Apart(rules, s, gone) && Enabled(s, step)
    requires step.Arrive? ==> (step.id in gone <==> rules.bypasses(step.req))
    ensures Apart(rules, Next(rules, s, step), gone)
  {
    StepMoves(rules, s, step);
  }

  // ----- whole runs

  /** The run without the bypassed requests is a run, and ends in the stripped state. */
  lemma {:induction false} ErasedRun(rules: Rules, s: State, steps: seq<Step>, gone: set<nat>)
    requires s.cache.maxEntries >= 1 && Apart(rules, s, gone)
    requires CanRun(rules, s, steps) && Names(rules, steps, gone)
    ensures CanRun(rules, Strip(s, gone), Erase(steps, gone))
    ensures Run(rules, Strip(s, gone), Erase(steps, gone)) == Strip(Run(rules, s, steps), gone)
    decreases |steps|
  {
    if steps != [] {
      var step, rest := steps[0], steps[1..];
      assert step in steps && forall other <- rest :: other in steps;
      StepApart(rules, s, step, gone);
      ErasedRun(rules, Next(rules, s, step), rest, gone);
      if Concerns(step, gone) {
        OwnStep(rules, s, step, gone);
        assert Erase(steps, gone) == Erase(rest, gone);
      } else {
        OtherStep(rules, s, step, gone);
        assert Erase(steps, gone)[1..] == Erase(rest, gone);
      }
    }
  }

  /**
   * Deleting the bypassed requests from any run leaves the responses to all other requests, the
   * cached entries with their order, the log and every counter but `bypasses` unchanged.
   */
  lemma BypassErasure(rules: Rules, maxEntries: int, maxBytes: int, now: int, steps: seq<Step>, gone: set<nat>)
    requires maxEntries >= 1
    requires CanRun(rules, Init(maxEntries, maxBytes, now), steps) && Names(rules, steps, gone)
    ensures var init := Init(maxEntries, maxBytes, now);
      && CanRun(rules, init, Erase(steps, gone))
      && var (full, erased) := (Run(rules, init, steps), Run(rules, init, Erase(steps, gone)));
      && erased.procs == full.procs - gone
      && Forget(erased.cache) == Forget(full.cache)
      && (erased.log, erased.results, erased.flights) == (full.log, full.results, full.flights)
  {
    var init := Init(maxEntries, maxBytes, now);
    assert init.procs - gone == init.procs;
    assert Strip(init, gone) == init;
    ErasedRun(rules, init, steps, gone);
  }
}
