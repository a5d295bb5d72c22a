/**
 * Progress of the cache-fill protocol: somebody can always move, and nobody moves forever.
 */
module CacheFillProgress {
  import opened Strings
  import opened CacheFill
  import opened CacheFillSafety

  // ----- sums over the requests

  /** The sum of a weight of stages over the requests in order of arrival. */
  function Total(ids: seq<nat>, procs: map<nat, Proc>, weight: Stage -> nat): nat
    requires forall id <- ids :: id in procs
  {
    if ids == [] then 0
    else
      var n := |ids| - 1;
      Total(ids[..n], procs, weight) + weight(procs[ids[n]].stage)
  }

  /** Every request has arrived once. */
  ghost predicate ArrivalsOk(s: State) {
    && (forall id :: id in s.arrivals <==> id in s.procs)
    && (forall i, j | 0 <= i < j < |s.arrivals| :: s.arrivals[i] != s.arrivals[j])
  }

  lemma {:induction false} TotalSame(ids: seq<nat>, p: map<nat, Proc>, q: map<nat, Proc>, weight: Stage -> nat)
    requires forall id <- ids :: id in p && id in q && p[id] == q[id]
    ensures Total(ids, p, weight) == Total(ids, q, weight)
  {
    if ids != [] {
      TotalSame(ids[..|ids| - 1], p, q, weight);
    }
  }

  /** Moving one request changes the sum by the difference of its two weights. */
  lemma {:induction false} TotalMoves(ids: seq<nat>, p: map<nat, Proc>, q: map<nat, Proc>, id: nat, weight: Stage -> nat)
    requires forall i <- ids :: i in p
    requires forall i, j | 0 <= i < j < |ids| :: ids[i] != ids[j]
    requires id in ids && id in q && q == p[id := q[id]]
    ensures Total(ids, q, weight) == Total(ids, p, weight) - weight(p[id].stage) + weight(q[id].stage)
    ensures weight(p[id].stage) <= Total(ids, p, weight)
  {
    var n := |ids| - 1;
    if ids[n] == id {
      TotalSame(ids[..n], p, q, weight);
    } else {
      TotalMoves(ids[..n], p, q, id, weight);
    }
  }

  lemma MoveTotal(s: State, s': State, id: nat, weight: Stage -> nat)
    requires ArrivalsOk(s) && Moved(s, s', id) && s'.arrivals == s.arrivals
    ensures ArrivalsOk(s')
    ensures Total(s'.arrivals, s'.procs, weight)
      == Total(s.arrivals, s.procs, weight) - weight(s.procs[id].stage) + weight(s'.procs[id].stage)
  {
    TotalMoves(s.arrivals, s.procs, s'.procs, id, weight);
  }

  lemma ArriveTotal(s: State, s': State, id: nat, p: Proc, weight: Stage -> nat)
    requires ArrivalsOk(s) && id !in s.procs
    requires s'.arrivals == s.arrivals + [id] && s'.procs == s.procs[id := p]
    ensures ArrivalsOk(s')
    ensures Total(s'.arrivals, s'.procs, weight) == Total(s.arrivals, s.procs, weight) + weight(p.stage)
  {
    TotalSame(s.arrivals, s.procs, s'.procs, weight);
    assert s'.arrivals[..|s.arrivals|] == s.arrivals;
  }

  /** What a step adds to a sum over the requests. */
  function Gain(s: State, s': State, step: Step, weight: Stage -> nat): int {
    match Mover(step)
    case Some(id) => if id in s.procs && id in s'.procs then weight(s'.procs[id].stage) - weight(s.procs[id].stage) else 0
    case None => if step.Arrive? then weight(Arrived) else 0
  }

  lemma GainTotal(s: State, s': State, step: Step, weight: Stage -> nat)
    requires ArrivalsOk(s) && Shape(s, s', step)
    ensures ArrivalsOk(s')
    ensures Total(s'.arrivals, s'.procs, weight)
      == Total(s.arrivals, s.procs, weight) + Gain(s, s', step, weight)
  {
    if Mover(step).Some? {
      MoveTotal(s, s', Mover(step).value, weight);
    } else if step.Arrive? {
      ArriveTotal(s, s', step.id, s'.procs[step.id], weight);
    }
  }

  lemma StepTotal(rules: Rules, s: State, s': State, step: Step, weight: Stage -> nat)
    requires s.cache.maxEntries >= 1 && ArrivalsOk(s) && Enabled(s, step) && s' == Next(rules, s, step)
    ensures ArrivalsOk(s')
    ensures Total(s'.arrivals, s'.procs, weight)
      == Total(s.arrivals, s.procs, weight) + Gain(s, s', step, weight)
  {
    StepMoves(rules, s, step);
    GainTotal(s, s', step, weight);
  }

  // ----- progress

  /** How many steps a request still has before it, at most. */
  function Rank(stage: Stage): nat {
    match stage
    case Arrived => 8
    case Missed => 7
    case Rechecking => 6
    case Fetching => 5
    case Answered(_) => 4
    case Storing(_) => 3
    case Returning(_) => 2
    case Awaiting(_) => 1
    case Done(_, _) => 0
  }

  function Work(s: State): nat
    requires ArrivalsOk(s)
  {
    Total(s.arrivals, s.procs, Rank)
  }

  /** Each step of a request lowers the measure; the clock and the admin leave it alone. */
  lemma StepWork(rules: Rules, s: State, step: Step)
    requires s.cache.maxEntries >= 1 && ArrivalsOk(s) && Enabled(s, step)
    ensures ArrivalsOk(Next(rules, s, step))
    ensures Mover(step).Some? ==> Work(Next(rules, s, step)) < Work(s)
    ensures Mover(step).None? && !step.Arrive? ==> Work(Next(rules, s, step)) == Work(s)
  {
    StepTotal(rules, s, Next(rules, s, step), step, Rank);
    if Mover(step).Some? {
      StepRank(rules, s, step);
    }
  }

  lemma StepRank(rules: Rules, s: State, step: Step)
    requires s.cache.maxEntries >= 1 && Enabled(s, step) && Mover(step).Some?
    ensures var id := Mover(step).value;
      Rank(StageOf(Next(rules, s, step), id)) < Rank(StageOf(s, id))
  {
    StepStage(rules, s, step);
    RankFalls(step, StageOf(s, Mover(step).value), StageOf(Next(rules, s, step), Mover(step).value));
  }

  lemma RankFalls(step: Step, from: Stage, to: Stage)
    requires Onward(step, from, to)
    ensures Rank(to) < Rank(from)
  {
  }

  /** How many steps of a run are steps of requests. */
  function Moves(steps: seq<Step>): nat {
    if steps == [] then 0 else (if Mover(steps[0]).Some? then 1 else 0) + Moves(steps[1..])
  }

  /** Without new arrivals, every run has at most `Work` request steps, whatever clock and admin do. */
  lemma {:induction false} BoundedWork(rules: Rules, s: State, steps: seq<Step>)
    requires s.cache.maxEntries >= 1 && ArrivalsOk(s) && CanRun(rules, s, steps)
    requires forall step <- steps :: !step.Arrive?
    ensures ArrivalsOk(Run(rules, s, steps))
    ensures Moves(steps) + Work(Run(rules, s, steps)) <= Work(s)
    decreases |steps|
  {
    if steps != [] {
      assert !steps[0].Arrive?;
      StepWork(rules, s, steps[0]);
      BoundedWork(rules, Next(rules, s, steps[0]), steps[1..]);
    }
  }

  /** The step a request can take by itself; the origin may answer anything. */
  function OwnStep(p: Proc, id: nat, origin: Origin): Step {
    match p.stage
    case Arrived => Begin(id)
    case Missed => Enter(id)
    case Rechecking => Recheck(id)
    case Fetching => Answer(id, origin)
    case Answered(_) => Decide(id)
    case Storing(_) => Store(id)
    case Returning(_) => Finish(id)
    case Awaiting(_) => Deliver(id)
    case Done(_, _) => Tick(0)
  }

  /**
   * In every reachable state with an unanswered request some request can take a step: the unanswered
   * one itself, or the leader it waits for. Whatever the origin answers, a failure included, counts.
   */
  lemma NeverStuck(rules: Rules, s: State, id: nat, origin: Origin) returns (step: Step)
    requires Reachable(rules, s) && id in s.procs && !s.procs[id].stage.Done?
    ensures Enabled(s, step) && Mover(step).Some?
    ensures var mover := Mover(step).value;
      mover == id || (s.procs[id].stage.Awaiting? && mover == s.procs[id].stage.leader)
  {
    ReachableInv(rules, s);
    var stage := s.procs[id].stage;
    var mover := if stage.Awaiting? && stage.leader !in s.results then stage.leader else id;
    step := OwnStep(s.procs[mover], mover, origin);
    OwnStepEnabled(s, mover, origin);
  }

  lemma OwnStepEnabled(s: State, id: nat, origin: Origin)
    requires id in s.procs && !s.procs[id].stage.Done?
    requires s.procs[id].stage.Awaiting? ==> s.procs[id].stage.leader in s.results
    ensures var step := OwnStep(s.procs[id], id, origin); Enabled(s, step) && Mover(step) == Some(id)
  {
  }
}
