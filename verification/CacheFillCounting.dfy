/**
 * What the counters of the cache count, over every run of the cache-fill protocol.
 */
module CacheFillCounting {
  import opened CacheFill
  import opened CacheFillSafety
  import opened CacheFillProgress
  import L = Lru

  /** How often things happened, according to a log; drops are counted in entries. */
  datatype Tally = Tally(
    looks: nat, rechecks: nat, found: nat, refound: nat, led: nat, stored: nat, expired: nat, evicted: nat, purged: nat)

  function Note(t: Tally, event: Event): Tally {
    match event
    case Looked(_, _, second, found, _) =>
      var n := if found.Some? then 1 else 0;
      if second then t.(rechecks := t.rechecks + 1, refound := t.refound + n)
      else t.(looks := t.looks + 1, found := t.found + n)
    case Led(_, _) => t.(led := t.led + 1)
    case Stored(_, _, _, _) => t.(stored := t.stored + 1)
    case Dropped(keys, Expired) => t.(expired := t.expired + |keys|)
    case Dropped(keys, Evicted) => t.(evicted := t.evicted + |keys|)
    case Dropped(keys, Purged) => t.(purged := t.purged + |keys|)
    case _ => t
  }

  function Count(log: seq<Event>): Tally {
    if log == [] then Tally(0, 0, 0, 0, 0, 0, 0, 0, 0)
    else
      var n := |log| - 1;
      Note(Count(log[..n]), log[n])
  }

  lemma CountAppend(log: seq<Event>, event: Event)
    ensures Count(log + [event]) == Note(Count(log), event)
  {
    assert (log + [event])[..|log|] == log;
  }

  lemma CountAppendTwo(log: seq<Event>, e1: Event, e2: Event)
    ensures Count(log + [e1, e2]) == Note(Note(Count(log), e1), e2)
  {
    var one := log + [e1];
    assert log + [e1, e2] == one + [e2];
    CountAppend(log, e1);
    CountAppend(one, e2);
  }

  /** The counters of a cache, in terms of a tally. */
  ghost predicate Counted(c: L.Cache, t: Tally) {
    && c.hits == t.found + t.refound && c.hits + c.misses == t.looks + t.rechecks
    && c.stores == t.stored
    && c.evictions == t.evicted
    && t.stored == |c.items| + t.evicted + t.expired + t.purged
  }

  /** One for a request that has gone through the first lookup. */
  function LookedUp(stage: Stage): nat {
    if stage.Arrived? || (stage.Done? && stage.response.Bypassed?) then 0 else 1
  }

  /** One for a leader that has not made its second lookup yet. */
  function BeforeRecheck(stage: Stage): nat {
    if stage.Rechecking? then 1 else 0
  }

  /** One for a request that has bypassed the cache. */
  function BypassedOne(stage: Stage): nat {
    if stage.Done? && stage.response.Bypassed? then 1 else 0
  }

  /** One for a request that has been answered with a hit. */
  function HitOne(stage: Stage): nat {
    if stage.Done? && stage.response.Hit? then 1 else 0
  }

  ghost predicate CountInv(rules: Rules, s: State) {
    && Inv(rules, s) && ArrivalsOk(s)
    && var t := Count(s.log);
    && Counted(s.cache, t)
    && t.looks == Total(s.arrivals, s.procs, LookedUp)
    && t.found == Total(s.arrivals, s.procs, HitOne)
    && s.cache.bypasses == Total(s.arrivals, s.procs, BypassedOne)
    && t.rechecks + Total(s.arrivals, s.procs, BeforeRecheck) == t.led
  }

  /** How a step moves the tally: lookups follow the stages of the requests. */
  ghost predicate Follows(s: State, s': State, step: Step) {
    var (t, t') := (Count(s.log), Count(s'.log));
    && Counted(s'.cache, t')
    && t'.looks == t.looks + Gain(s, s', step, LookedUp)
    && t'.found == t.found + Gain(s, s', step, HitOne)
    && s'.cache.bypasses == s.cache.bypasses + Gain(s, s', step, BypassedOne)
    && t'.rechecks - t'.led == t.rechecks - t.led - Gain(s, s', step, BeforeRecheck)
  }

  // ----- a cache loses as many entries as keys

  lemma LostCount(before: L.Cache, after: L.Cache)
    requires L.Distinct(before.items) && L.Distinct(after.items) && L.Keys(after.items) <= L.Keys(before.items)
    ensures |Lost(before, after)| == |before.items| - |after.items|
  {
    L.KeyCount(before.items);
    L.KeyCount(after.items);
    assert L.Keys(before.items) == L.Keys(after.items) + Lost(before, after);
  }

  /** The tally of one lookup. */
  lemma LookNoted(c: L.Cache, after: L.Cache, t: Tally, keys: set<string>, look: Event)
    requires Counted(c, t) && look.Looked? && |keys| == |c.items| - |after.items|
    requires after.hits == c.hits + (if look.found.Some? then 1 else 0)
    requires after.hits + after.misses == c.hits + c.misses + 1
    requires after.stores == c.stores && after.evictions == c.evictions
    ensures Counted(after, Note(Note(t, Dropped(keys, Expired)), look))
  {
  }

  lemma GetCounters(c: L.Cache, key: string, now: int)
    ensures var (after, found) := L.Get(c, key, now);
      && after.hits == c.hits + (if found.Some? then 1 else 0)
      && after.hits + after.misses == c.hits + c.misses + 1
      && after.stores == c.stores && after.evictions == c.evictions && after.bypasses == c.bypasses
  {
  }

  lemma {:induction false} GetCounted(c: L.Cache, t: Tally, look: Event, key: string, now: int)
    requires L.Valid(c) && Counted(c, t) && look.Looked? && look.found == L.Get(c, key, now).1
    ensures var after := L.Get(c, key, now).0;
      Counted(after, Note(Note(t, Dropped(Lost(c, after), Expired)), look))
  {
    var after := L.Get(c, key, now).0;
    GetCounters(c, key, now);
    L.GetValid(c, key, now);
    L.GetShrinks(c, key, now);
    LostCount(c, after);
    LookNoted(c, after, t, Lost(c, after), look);
  }

  lemma LookupCounted(s: State, id: nat, second: bool)
    requires L.Valid(s.cache) && Counted(s.cache, Count(s.log)) && id in s.procs
    ensures var (s', found) := Lookup(s, id, second);
      var (t, t') := (Count(s.log), Count(s'.log));
      && Counted(s'.cache, t') && t'.led == t.led && s'.cache.bypasses == s.cache.bypasses
      && t'.found == t.found + (if !second && found.Some? then 1 else 0)
      && t'.looks == t.looks + (if second then 0 else 1)
      && t'.rechecks == t.rechecks + (if second then 1 else 0)
  {
    var key := s.procs[id].key;
    var (s', found) := Lookup(s, id, second);
    var look := Looked(id, key, second, found, s.now);
    GetCounters(s.cache, key, s.now);
    GetCounted(s.cache, Count(s.log), look, key, s.now);
    CountAppendTwo(s.log, Dropped(Lost(s.cache, s'.cache), Expired), look);
  }

  /** The tally of one store. */
  lemma StoreNoted(c: L.Cache, after: L.Cache, t: Tally, keys: set<string>, store: Event)
    requires Counted(c, t) && store.Stored? && |keys| == |c.items| + 1 - |after.items|
    requires after.hits == c.hits && after.misses == c.misses
    requires after.stores == c.stores + 1 && after.evictions == c.evictions + |keys|
    ensures Counted(after, Note(Note(t, Dropped(keys, Evicted)), store))
  {
  }

  lemma MinusOther(a: set<string>, b: set<string>, key: string)
    requires key !in a
    ensures a - ({key} + b) == a - b
  {
  }

  /** A store under an absent key adds one entry and loses what it evicts. */
  lemma SetLoses(c: L.Cache, key: string, entry: L.Entry)
    requires L.Valid(c) && key !in L.Keys(c.items)
    ensures |Lost(c, L.Set(c, key, entry))| == |c.items| - |L.Kept(c, key, entry)|
  {
    var kept := L.Kept(c, key, entry);
    L.DropNothing(c.items, {key});
    L.DistinctPrefix(c.items, kept);
    LostCount(c, c.(items := kept));
    L.FrontFacts(L.Item(key, entry), kept);
    MinusOther(L.Keys(c.items), L.Keys(kept), key);
  }

  lemma SetCounted(c: L.Cache, t: Tally, store: Event, key: string, entry: L.Entry)
    requires L.Valid(c) && Counted(c, t) && key !in L.Keys(c.items) && store.Stored?
    ensures var after := L.Set(c, key, entry);
      Counted(after, Note(Note(t, Dropped(Lost(c, after), Evicted)), store))
  {
    var after := L.Set(c, key, entry);
    SetLoses(c, key, entry);
    L.DropNothing(c.items, {key});
    StoreNoted(c, after, t, Lost(c, after), store);
  }

  lemma StoreGain(s: State, id: nat)
    requires id in s.procs && s.procs[id].stage.Storing? && s.cache.maxEntries >= 1
    ensures Gain(s, DoStore(s, id), Store(id), LookedUp) == 0
    ensures Gain(s, DoStore(s, id), Store(id), BeforeRecheck) == 0
    ensures Gain(s, DoStore(s, id), Store(id), HitOne) == Gain(s, DoStore(s, id), Store(id), BypassedOne) == 0
  {
  }

  lemma {:induction false} StoreTally(s: State, id: nat)
    requires L.Valid(s.cache) && Counted(s.cache, Count(s.log))
    requires id in s.procs && s.procs[id].stage.Storing? && s.procs[id].key !in L.Keys(s.cache.items)
    ensures var (s', t) := (DoStore(s, id), Count(s.log));
      && Counted(s'.cache, Count(s'.log))
      && SameLooks(t, Count(s'.log))
  {
    var key, entry := s.procs[id].key, s.procs[id].stage.entry;
    var dropped := Dropped(Lost(s.cache, L.Set(s.cache, key, entry)), Evicted);
    SetCounted(s.cache, Count(s.log), Stored(id, key, entry, s.now), key, entry);
    CountAppendTwo(s.log, dropped, Stored(id, key, entry, s.now));
  }

  /** The tally of lookups and flights has not moved. */
  predicate SameLooks(t: Tally, t': Tally) {
    (t'.looks, t'.rechecks, t'.found, t'.led) == (t.looks, t.rechecks, t.found, t.led)
  }

  lemma {:induction false} StoreCounted(s: State, id: nat)
    requires L.Valid(s.cache) && Counted(s.cache, Count(s.log))
    requires id in s.procs && s.procs[id].stage.Storing? && s.procs[id].key !in L.Keys(s.cache.items)
    ensures Follows(s, DoStore(s, id), Store(id))
  {
    StoreTally(s, id);
    StoreGain(s, id);
  }

  lemma AdminCounters(c: L.Cache, purge: Purge)
    requires c.maxEntries >= 1
    ensures var after := L.Apply(c, AdminCall(purge));
      && (after.hits, after.misses, after.stores, after.evictions) == (c.hits, c.misses, c.stores, c.evictions)
      && after.bypasses == c.bypasses
  {
  }

  /** The tally of one purge. */
  lemma PurgeNoted(c: L.Cache, after: L.Cache, t: Tally, keys: set<string>)
    requires Counted(c, t) && |keys| == |c.items| - |after.items|
    requires (after.hits, after.misses, after.stores, after.evictions) == (c.hits, c.misses, c.stores, c.evictions)
    ensures Counted(after, Note(t, Dropped(keys, Purged)))
  {
  }

  lemma AdminTally(rules: Rules, s: State, purge: Purge)
    requires Inv(rules, s) && Counted(s.cache, Count(s.log))
    ensures var (s', t) := (DoAdmin(s, purge), Count(s.log));
      && Counted(s'.cache, Count(s'.log)) && s'.cache.bypasses == s.cache.bypasses
      && SameLooks(t, Count(s'.log))
  {
    var after := L.Apply(s.cache, AdminCall(purge));
    AdminKeeps(rules, s, purge);
    AdminCounters(s.cache, purge);
    LostCount(s.cache, after);
    PurgeNoted(s.cache, after, Count(s.log), Lost(s.cache, after));
    CountAppend(s.log, Dropped(Lost(s.cache, after), Purged));
  }

  lemma AdminCounted(rules: Rules, s: State, purge: Purge)
    requires Inv(rules, s) && Counted(s.cache, Count(s.log))
    ensures Follows(s, DoAdmin(s, purge), Admin(purge))
  {
    AdminTally(rules, s, purge);
  }

  // ----- every step, every run

  lemma BeginCounted(rules: Rules, s: State, id: nat)
    requires L.Valid(s.cache) && Counted(s.cache, Count(s.log)) && At(s, id, Arrived)
    ensures Follows(s, DoBegin(rules, s, id), Begin(id))
  {
    if !rules.bypasses(s.procs[id].req) {
      LookupCounted(s, id, false);
    }
  }

  lemma EnterGain(s: State, id: nat)
    requires At(s, id, Missed)
    ensures Gain(s, DoEnter(s, id), Enter(id), LookedUp) == 0
    ensures Gain(s, DoEnter(s, id), Enter(id), HitOne) == Gain(s, DoEnter(s, id), Enter(id), BypassedOne) == 0
    ensures Gain(s, DoEnter(s, id), Enter(id), BeforeRecheck) == if s.procs[id].key in s.flights then 0 else 1
  {
  }

  lemma EnterTally(s: State, id: nat)
    requires Counted(s.cache, Count(s.log)) && At(s, id, Missed)
    ensures var (s', t) := (DoEnter(s, id), Count(s.log));
      && Counted(s'.cache, Count(s'.log))
      && Count(s'.log) == t.(led := t.led + if s.procs[id].key in s.flights then 0 else 1)
  {
    CountAppend(s.log, Led(id, s.procs[id].key));
  }

  lemma EnterCounted(s: State, id: nat)
    requires Counted(s.cache, Count(s.log)) && At(s, id, Missed)
    ensures Follows(s, DoEnter(s, id), Enter(id))
  {
    EnterGain(s, id);
    EnterTally(s, id);
  }

  lemma RecheckGain(s: State, id: nat)
    requires At(s, id, Rechecking)
    ensures Gain(s, DoRecheck(s, id), Recheck(id), LookedUp) == 0
    ensures Gain(s, DoRecheck(s, id), Recheck(id), HitOne) == Gain(s, DoRecheck(s, id), Recheck(id), BypassedOne) == 0
    ensures Gain(s, DoRecheck(s, id), Recheck(id), BeforeRecheck) == -1
  {
  }

  lemma RecheckCounted(s: State, id: nat)
    requires L.Valid(s.cache) && Counted(s.cache, Count(s.log)) && At(s, id, Rechecking)
    ensures Follows(s, DoRecheck(s, id), Recheck(id))
  {
    LookupCounted(s, id, true);
    var (looked, found) := Lookup(s, id, true);
    CountAppend(looked.log, Began(id, s.procs[id].key));
    var s' := DoRecheck(s, id);
    RecheckGain(s, id);
    assert s'.cache == looked.cache && Count(s'.log) == Count(looked.log);
  }

  lemma {:induction false} AnswerCounted(rules: Rules, s: State, id: nat, origin: Origin)
    requires s.cache.maxEntries >= 1 && Counted(s.cache, Count(s.log)) && At(s, id, Fetching)
    ensures Follows(s, Next(rules, s, Answer(id, origin)), Answer(id, origin))
  {
    CountAppend(s.log, Replied(id, s.procs[id].req, origin, s.now));
  }

  lemma {:induction false} StepCounted(rules: Rules, s: State, step: Step)
    requires CountInv(rules, s) && Enabled(s, step)
    ensures Follows(s, Next(rules, s, step), step)
  {
    match step {
      case Begin(id) => BeginCounted(rules, s, id);
      case Enter(id) => EnterCounted(s, id);
      case Recheck(id) => RecheckCounted(s, id);
      case Answer(id, origin) => AnswerCounted(rules, s, id, origin);
      case Store(id) => StoreCounted(s, id);
      case Admin(purge) => AdminCounted(rules, s, purge);
      case _ => BystanderGain(rules, s, step);
    }
  }

  /** The remaining steps leave log, cache and both sums alone. */
  lemma BystanderGain(rules: Rules, s: State, step: Step)
    requires s.cache.maxEntries >= 1 && Enabled(s, step)
    requires step.Tick? || step.Arrive? || step.Decide? || step.Finish? || step.Deliver?
    ensures var s' := Next(rules, s, step);
      && s'.log == s.log && s'.cache == s.cache
      && Gain(s, s', step, LookedUp) == 0 && Gain(s, s', step, BeforeRecheck) == 0
      && Gain(s, s', step, HitOne) == 0 && Gain(s, s', step, BypassedOne) == 0
  {
  }

  /** Sums that move with the stages keep up with a tally that follows them. */
  lemma CountKept(rules: Rules, s: State, s': State, step: Step)
    requires CountInv(rules, s) && Inv(rules, s') && ArrivalsOk(s') && Follows(s, s', step)
    requires Total(s'.arrivals, s'.procs, LookedUp)
      == Total(s.arrivals, s.procs, LookedUp) + Gain(s, s', step, LookedUp)
    requires Total(s'.arrivals, s'.procs, BeforeRecheck)
      == Total(s.arrivals, s.procs, BeforeRecheck) + Gain(s, s', step, BeforeRecheck)
    requires Total(s'.arrivals, s'.procs, HitOne) == Total(s.arrivals, s.procs, HitOne) + Gain(s, s', step, HitOne)
    requires Total(s'.arrivals, s'.procs, BypassedOne)
      == Total(s.arrivals, s.procs, BypassedOne) + Gain(s, s', step, BypassedOne)
    ensures CountInv(rules, s')
  {
  }

  lemma {:induction false} StepCountInv(rules: Rules, s: State, step: Step)
    requires CountInv(rules, s) && Enabled(s, step)
    ensures CountInv(rules, Next(rules, s, step))
  {
    StepInv(rules, s, step);
    StepCounted(rules, s, step);
    var s' := Next(rules, s, step);
    StepTotal(rules, s, s', step, LookedUp);
    StepTotal(rules, s, s', step, BeforeRecheck);
    StepTotal(rules, s, s', step, HitOne);
    StepTotal(rules, s, s', step, BypassedOne);
    CountKept(rules, s, s', step);
  }

  lemma {:induction false} RunCountInv(rules: Rules, s: State, steps: seq<Step>)
    requires CountInv(rules, s) && CanRun(rules, s, steps)
    ensures CountInv(rules, Run(rules, s, steps))
    decreases |steps|
  {
    if steps != [] {
      StepCountInv(rules, s, steps[0]);
      RunCountInv(rules, Next(rules, s, steps[0]), steps[1..]);
    }
  }

  lemma ReachableCounted(rules: Rules, s: State)
    requires Reachable(rules, s)
    ensures CountInv(rules, s)
  {
    var maxEntries: int, maxBytes: int, now: int, steps: seq<Step> :|
      && maxEntries >= 1 && maxBytes >= 0
      && CanRun(rules, Init(maxEntries, maxBytes, now), steps)
      && s == Run(rules, Init(maxEntries, maxBytes, now), steps);
    RunCountInv(rules, Init(maxEntries, maxBytes, now), steps);
  }

  /**
   * Every stored entry is held, evicted, expired or purged; hits and misses together are one per
   * request that was looked up and one per flight led, less the flights about to make their lookup;
   * hits are the requests answered with one and the second lookups that found something, and
   * bypasses the requests that bypassed the cache.
   */
  lemma CountingIdentities(rules: Rules, s: State)
    requires Reachable(rules, s)
    ensures ArrivalsOk(s)
    ensures var t := Count(s.log);
      && s.cache.stores == |s.cache.items| + s.cache.evictions + t.expired + t.purged
      && s.cache.stores == t.stored && s.cache.evictions == t.evicted
      && s.cache.hits + s.cache.misses
           == Total(s.arrivals, s.procs, LookedUp) + t.led - Total(s.arrivals, s.procs, BeforeRecheck)
      && s.cache.hits == Total(s.arrivals, s.procs, HitOne) + t.refound
      && s.cache.bypasses == Total(s.arrivals, s.procs, BypassedOne)
  {
    ReachableCounted(rules, s);
  }
}
