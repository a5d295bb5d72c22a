/**
 * What a purge does to the flights under way: exactly when an answer given before it is cached after.
 */
module CacheFillPurge {
  import opened Strings
  import opened CacheFill
  import opened CacheFillSafety
  import opened CacheFillHistory
  import opened CacheFillTheorems
  import CacheKey
  import L = Lru

  /** The cache holds under `key` what the request `id` has stored at position `j` of the log. */
  ghost predicate HoldsAt(s: State, key: string, id: nat, j: nat) {
    && j < |s.log| && s.log[j].Stored? && s.log[j].id == id && s.log[j].key == key
    && L.Find(s.cache.items, key) == Some(s.log[j].entry)
    && forall m | j < m < |s.log| :: !(s.log[m].Dropped? && key in s.log[m].keys)
  }

  ghost predicate HoldsFrom(s: State, key: string, id: nat) {
    exists j: nat :: HoldsAt(s, key, id, j)
  }

  /** The origin had answered the request by then. */
  ghost predicate HasReply(s: State, id: nat) {
    exists i | 0 <= i < |s.log| :: s.log[i].Replied? && s.log[i].id == id
  }

  /** The keys a purge is about. */
  predicate Selects(purge: Purge, key: string) {
    match purge
    case PurgeKey(k) => key == k
    case PurgePath(path) => CacheKey.MatchesPath(key, path)
    case PurgePrefix(prefix) => CacheKey.MatchesPrefix(key, prefix)
    case PurgeAll => true
  }

  function Purged(rules: Rules, s: State, purge: Purge): State
    requires s.cache.maxEntries >= 1
  {
    Next(rules, s, Admin(purge))
  }

  /** Some run after the purge leads to a cache with an answer from before it. */
  ghost predicate Outlives(rules: Rules, s: State, purge: Purge, key: string)
    requires s.cache.maxEntries >= 1
  {
    exists steps: seq<Step>, id: nat ::
      && CanRun(rules, Purged(rules, s, purge), steps)
      && HoldsFrom(Run(rules, Purged(rules, s, purge), steps), key, id) && HasReply(s, id)
  }

  /** The request holds an answer it is going to store. */
  predicate WillStore(rules: Rules, p: Proc) {
    p.stage.Storing? || (p.stage.Answered? && Stores(rules, p.stage.origin))
  }

  /** A logged store has a logged answer to the same request, which does not bypass the cache. */
  lemma StoredHasReply(rules: Rules, s: State, j: nat) returns (i: nat)
    requires Inv(rules, s) && j < |s.log| && s.log[j].Stored?
    ensures i < |s.log| && s.log[i].Replied? && s.log[i].id == s.log[j].id
    ensures rules.keyOf(s.log[i].req) == s.log[j].key && !rules.bypasses(s.log[i].req)
  {
    var req, origin, at := StoredFromOrigin(rules, s, j);
    i :| 0 <= i < j && s.log[i] == Replied(s.log[j].id, req, origin, at);
  }

  /** What is held was stored by a request that does not bypass the cache, under its own key. */
  lemma HolderEngaged(rules: Rules, s: State, key: string, id: nat)
    requires Reachable(rules, s) && HoldsFrom(s, key, id)
    ensures id in s.procs && rules.keyOf(s.procs[id].req) == key && !rules.bypasses(s.procs[id].req)
  {
    ReachableHistory(rules, s);
    var j: nat :| HoldsAt(s, key, id, j);
    var i := StoredHasReply(rules, s, j);
    assert EventOk(rules, s, s.log[i]);
  }

  // ----- only requests that will store can

  /** The origin has answered, and what it said is stored already or never will be. */
  predicate Settled(rules: Rules, p: Proc) {
    Past(p.stage) || (p.stage.Answered? && !Stores(rules, p.stage.origin))
  }

  lemma SettledDecides(rules: Rules, s: State, id: nat)
    requires id in s.procs && s.procs[id].stage.Answered? && Settled(rules, s.procs[id])
    ensures Past(StageOf(DoDecide(rules, s, id), id))
  {
  }

  /** A settled request stays settled and stores nothing. */
  lemma SettledStep(rules: Rules, s: State, step: Step, id: nat)
    requires s.cache.maxEntries >= 1 && Enabled(s, step)
    requires id in s.procs && Settled(rules, s.procs[id])
    ensures var s' := Next(rules, s, step);
      && id in s'.procs && Settled(rules, s'.procs[id])
      && s.log <= s'.log
      && forall i | |s.log| <= i < |s'.log| :: s'.log[i].Stored? ==> s'.log[i].id != id
  {
    StepMoves(rules, s, step);
    StepWrites(rules, s, step);
    var s' := Next(rules, s, step);
    if Mover(step) == Some(id) {
      StepStage(rules, s, step);
      if step.Decide? {
        SettledDecides(rules, s, id);
      }
    }
    forall i | |s.log| <= i < |s'.log| && s'.log[i].Stored? ensures s'.log[i].id != id {
      assert Writing(s, step, s'.log[i]);
    }
  }

  lemma {:induction false} SettledRun(rules: Rules, s: State, steps: seq<Step>, id: nat)
    requires s.cache.maxEntries >= 1 && CanRun(rules, s, steps)
    requires id in s.procs && Settled(rules, s.procs[id])
    ensures var s' := Run(rules, s, steps);
      && s.log <= s'.log
      && forall i | |s.log| <= i < |s'.log| :: s'.log[i].Stored? ==> s'.log[i].id != id
    decreases |steps|
  {
    if steps != [] {
      SettledStep(rules, s, steps[0], id);
      SettledRun(rules, Next(rules, s, steps[0]), steps[1..], id);
    }
  }

  lemma {:induction false} KeyStays(rules: Rules, s: State, steps: seq<Step>, id: nat)
    requires s.cache.maxEntries >= 1 && CanRun(rules, s, steps) && id in s.procs
    ensures var s' := Run(rules, s, steps);
      id in s'.procs && s'.procs[id].key == s.procs[id].key && s.log <= s'.log
    decreases |steps|
  {
    if steps != [] {
      StepMoves(rules, s, steps[0]);
      StepWrites(rules, s, steps[0]);
      KeyStays(rules, Next(rules, s, steps[0]), steps[1..], id);
    }
  }

  /** An answered request is settled or will store. */
  lemma AnsweredStage(rules: Rules, s: State, id: nat)
    requires History(rules, s) && HasReply(s, id)
    ensures id in s.procs && (Settled(rules, s.procs[id]) || WillStore(rules, s.procs[id]))
  {
    var i :| 0 <= i < |s.log| && s.log[i].Replied? && s.log[i].id == id;
    assert EventOk(rules, s, s.log[i]);
  }

  /** A purge takes away exactly the keys it selects and leaves the other entries alone. */
  lemma PurgeTakes(c: L.Cache, purge: Purge)
    requires L.Valid(c)
    ensures var c' := L.Apply(c, AdminCall(purge));
      && L.Shrinks(c, c')
      && forall key :: key in L.Keys(c'.items) <==> key in L.Keys(c.items) && !Selects(purge, key)
  {
    match purge {
      case PurgeKey(key) => L.RemoveShrinks(c, {key});
      case PurgePath(path) => L.RemoveShrinks(c, L.KeysWithPath(c, path));
      case PurgePrefix(prefix) => L.RemoveShrinks(c, L.KeysWithPrefix(c, prefix));
      case PurgeAll => assert L.Keys([]) == {};
    }
  }

  /** It writes one event, which names those keys. */
  lemma PurgeDrops(rules: Rules, s: State, purge: Purge)
    requires L.Valid(s.cache)
    ensures var s' := Purged(rules, s, purge);
      && s'.procs == s.procs && |s'.log| == |s.log| + 1 && s'.log[..|s.log|] == s.log
      && s'.log[|s.log|].Dropped?
      && forall key :: key in s'.log[|s.log|].keys <==> key in L.Keys(s.cache.items) && Selects(purge, key)
  {
    PurgeTakes(s.cache, purge);
  }

  /** What is held after the purge was stored after it, or was held and not selected. */
  lemma StoredAfterPurge(rules: Rules, s: State, purge: Purge, later: State, key: string, id: nat, j: nat)
    requires Inv(rules, s) && Purged(rules, s, purge).log <= later.log && HoldsAt(later, key, id, j)
    ensures j >= |Purged(rules, s, purge).log| || (key in L.Keys(s.cache.items) && !Selects(purge, key))
  {
    PurgeDrops(rules, s, purge);
    assert later.log[|s.log|] == Purged(rules, s, purge).log[|s.log|];
    if j < |s.log| {
      assert later.log[..|s.log|] == s.log;
      HeldUntilDropped(later.log, key, j, |s.log|);
      assert Latest(s.log, key) == L.Find(s.cache.items, key);
    }
  }

  /** What a request has stored is held under its own key. */
  lemma HeldUnderOwnKey(rules: Rules, s: State, steps: seq<Step>, key: string, id: nat, j: nat)
    requires History(rules, s) && CanRun(rules, s, steps) && id in s.procs
    requires HoldsAt(Run(rules, s, steps), key, id, j)
    ensures s.procs[id].key == key && s.log <= Run(rules, s, steps).log
  {
    RunHistory(rules, s, steps);
    KeyStays(rules, s, steps, id);
    assert EventOk(rules, Run(rules, s, steps), Run(rules, s, steps).log[j]);
  }

  /** The request whose entry is held after the purge was not settled at the purge, or the purge left its key. */
  lemma HolderNotSettled(rules: Rules, s: State, purge: Purge, steps: seq<Step>, key: string, id: nat, j: nat)
    requires Inv(rules, s) && CanRun(rules, Purged(rules, s, purge), steps)
    requires HoldsAt(Run(rules, Purged(rules, s, purge), steps), key, id, j)
    requires id in s.procs && Purged(rules, s, purge).procs == s.procs
    ensures !Settled(rules, s.procs[id]) || (key in L.Keys(s.cache.items) && !Selects(purge, key))
  {
    if Settled(rules, s.procs[id]) {
      SettledRun(rules, Purged(rules, s, purge), steps, id);
      StoredAfterPurge(rules, s, purge, Run(rules, Purged(rules, s, purge), steps), key, id, j);
    }
  }

  lemma OutlivesOnlyIf(rules: Rules, s: State, purge: Purge, key: string, steps: seq<Step>, id: nat)
    requires Reachable(rules, s) && s.cache.maxEntries >= 1
    requires CanRun(rules, Purged(rules, s, purge), steps)
    requires HoldsFrom(Run(rules, Purged(rules, s, purge), steps), key, id) && HasReply(s, id)
    ensures
      || (id in s.procs && s.procs[id].key == key && WillStore(rules, s.procs[id]))
      || (key in L.Keys(s.cache.items) && !Selects(purge, key))
  {
    ReachableHistory(rules, s);
    StepHistory(rules, s, Admin(purge));
    PurgeDrops(rules, s, purge);
    var j: nat :| HoldsAt(Run(rules, Purged(rules, s, purge), steps), key, id, j);
    AnsweredStage(rules, s, id);
    HeldUnderOwnKey(rules, Purged(rules, s, purge), steps, key, id, j);
    HolderNotSettled(rules, s, purge, steps, key, id, j);
  }

  // ----- and they do

  /** A store leaves the cache holding what was stored. */
  lemma StoreHolds(s: State, id: nat)
    requires L.Valid(s.cache) && id in s.procs && s.procs[id].stage.Storing?
    ensures HoldsFrom(DoStore(s, id), s.procs[id].key, id)
  {
    var key, entry := s.procs[id].key, s.procs[id].stage.entry;
    L.SetFinds(s.cache, key, entry);
    var s' := DoStore(s, id);
    assert s'.log[|s.log| + 1] == Stored(id, key, entry, s.now);
    assert HoldsAt(s', key, id, |s.log| + 1);
  }

  /** The run in which the request decides, if it has not yet, and stores. */
  lemma StoringOutlives(rules: Rules, s: State, purge: Purge, id: nat)
    requires Inv(rules, s) && id in s.procs && s.procs[id].stage.Storing?
    ensures var steps := [Store(id)];
      && CanRun(rules, Purged(rules, s, purge), steps)
      && HoldsFrom(Run(rules, Purged(rules, s, purge), steps), s.procs[id].key, id)
  {
    var start := Purged(rules, s, purge);
    StepInv(rules, s, Admin(purge));
    StoreHolds(start, id);
    RunOne(rules, start, Store(id));
  }

  lemma RunOne(rules: Rules, s: State, step: Step)
    requires s.cache.maxEntries >= 1 && Enabled(s, step)
    ensures CanRun(rules, s, [step]) && Run(rules, s, [step]) == Next(rules, s, step)
  {
    assert [step][1..] == [];
    assert CanRun(rules, Next(rules, s, step), []);
    assert Run(rules, Next(rules, s, step), []) == Next(rules, s, step);
  }

  lemma RunTwo(rules: Rules, s: State, one: Step, two: Step)
    requires s.cache.maxEntries >= 1 && Enabled(s, one) && Enabled(Next(rules, s, one), two)
    ensures CanRun(rules, s, [one, two]) && Run(rules, s, [one, two]) == Next(rules, Next(rules, s, one), two)
  {
    assert [one, two][1..] == [two];
    RunOne(rules, Next(rules, s, one), two);
  }

  lemma AnsweredOutlives(rules: Rules, s: State, purge: Purge, id: nat)
    requires Inv(rules, s) && id in s.procs && s.procs[id].stage.Answered? && WillStore(rules, s.procs[id])
    ensures var steps := [Decide(id), Store(id)];
      && CanRun(rules, Purged(rules, s, purge), steps)
      && HoldsFrom(Run(rules, Purged(rules, s, purge), steps), s.procs[id].key, id)
  {
    var start := Purged(rules, s, purge);
    StepInv(rules, s, Admin(purge));
    StoreHolds(DoDecide(rules, start, id), id);
    RunTwo(rules, start, Decide(id), Store(id));
  }

  /** A request that will store has its answer in the log. */
  lemma WillStoreHasReply(rules: Rules, s: State, id: nat)
    requires Inv(rules, s) && id in s.procs && WillStore(rules, s.procs[id])
    ensures HasReply(s, id)
  {
    var p := s.procs[id];
    assert StageOk(rules, s.log, s.now, id, p);
    if p.stage.Answered? {
      var at :| Replied(id, p.req, p.stage.origin, at) in s.log;
    } else {
      var req, origin, at :| Replied(id, req, origin, at) in s.log;
    }
  }

  lemma OutlivesIf(rules: Rules, s: State, purge: Purge, id: nat)
    requires Reachable(rules, s) && s.cache.maxEntries >= 1
    requires id in s.procs && WillStore(rules, s.procs[id])
    ensures Outlives(rules, s, purge, s.procs[id].key)
  {
    ReachableInv(rules, s);
    WillStoreHasReply(rules, s, id);
    if s.procs[id].stage.Storing? {
      StoringOutlives(rules, s, purge, id);
    } else {
      AnsweredOutlives(rules, s, purge, id);
    }
  }

  /** What is held some request has stored, with an answer from the origin. */
  lemma HeldFromReply(rules: Rules, s: State, key: string) returns (id: nat, j: nat)
    requires Reachable(rules, s) && key in L.Keys(s.cache.items)
    ensures HoldsAt(s, key, id, j) && HasReply(s, id)
  {
    var stored, req, origin, replied := CachedFromOrigin(rules, s, key, L.Find(s.cache.items, key).value);
    j, id := stored, s.log[stored].id;
    var i :| 0 <= i < j && s.log[i] == Replied(id, req, origin, replied);
  }

  lemma UnselectedFound(rules: Rules, s: State, purge: Purge, key: string)
    requires L.Valid(s.cache) && key in L.Keys(s.cache.items) && !Selects(purge, key)
    ensures L.Find(Purged(rules, s, purge).cache.items, key) == L.Find(s.cache.items, key)
  {
    PurgeTakes(s.cache, purge);
  }

  lemma HoldsOn(s: State, s': State, key: string, id: nat, j: nat)
    requires HoldsAt(s, key, id, j) && L.Find(s'.cache.items, key) == L.Find(s.cache.items, key)
    requires |s'.log| == |s.log| + 1 && s'.log[..|s.log|] == s.log
    requires s'.log[|s.log|].Dropped? && key !in s'.log[|s.log|].keys
    ensures HoldsAt(s', key, id, j)
  {
    assert forall m | 0 <= m < |s.log| :: s'.log[m] == s'.log[..|s.log|][m];
  }

  /** An entry the purge does not select is still held right after it. */
  lemma UnselectedOutlives(rules: Rules, s: State, purge: Purge, key: string)
    requires Reachable(rules, s) && s.cache.maxEntries >= 1
    requires key in L.Keys(s.cache.items) && !Selects(purge, key)
    ensures Outlives(rules, s, purge, key)
  {
    ReachableInv(rules, s);
    var id, j := HeldFromReply(rules, s, key);
    var s' := Purged(rules, s, purge);
    UnselectedFound(rules, s, purge, key);
    PurgeDrops(rules, s, purge);
    HoldsOn(s, s', key, id, j);
    assert CanRun(rules, s', []) && Run(rules, s', []) == s' && HoldsFrom(s', key, id);
  }

  /**
   * After any purge the cache can come to hold, under a key, an answer given before it, exactly when
   * at the purge a request with that key is about to store, or has an answer that is going to be
   * stored, or the key is held and the purge is not about it.
   */
  lemma PurgeOutlivedIff(rules: Rules, s: State, purge: Purge, key: string)
    requires Reachable(rules, s) && s.cache.maxEntries >= 1
    ensures Outlives(rules, s, purge, key)
      <==>
        || (exists id <- s.procs :: s.procs[id].key == key && WillStore(rules, s.procs[id]))
        || (key in L.Keys(s.cache.items) && !Selects(purge, key))
  {
    if Outlives(rules, s, purge, key) {
      var steps: seq<Step>, id: nat :|
        && CanRun(rules, Purged(rules, s, purge), steps)
        && HoldsFrom(Run(rules, Purged(rules, s, purge), steps), key, id) && HasReply(s, id);
      OutlivesOnlyIf(rules, s, purge, key, steps, id);
    }
    if id :| id in s.procs && s.procs[id].key == key && WillStore(rules, s.procs[id]) {
      OutlivesIf(rules, s, purge, id);
    }
    if key in L.Keys(s.cache.items) && !Selects(purge, key) {
      UnselectedOutlives(rules, s, purge, key);
    }
  }
}
