/**
 * Safety of the cache-fill protocol in every reachable state: single fetch, no overwriting store,
 * provenance, freshness and fan-out.
 */
module CacheFillTheorems {
  import opened Strings
  import opened Http
  import opened CacheFill
  import opened CacheFillSafety
  import opened CacheFillHistory
  import L = Lru

  // ----- one fetch per key

  /** At most one request per key leads a flight, so at most one has the origin at work on it. */
  lemma OneFetchPerKey(rules: Rules, s: State, i: nat, j: nat)
    requires Reachable(rules, s)
    requires i in s.procs && j in s.procs && s.procs[i].key == s.procs[j].key
    requires Leading(s.procs[i].stage) && Leading(s.procs[j].stage)
    ensures i == j
  {
    ReachableInv(rules, s);
    OneLeader(s, i, j);
  }

  /** While a leader is between its second lookup and its store, every lookup of its key misses. */
  lemma KeyAbsentWhileFetching(rules: Rules, s: State, id: nat, now: int)
    requires Reachable(rules, s)
    requires id in s.procs && Committed(s.procs[id].stage)
    ensures L.Get(s.cache, s.procs[id].key, now).1 == None
    ensures L.Drop(s.cache.items, {s.procs[id].key}) == s.cache.items
  {
    ReachableInv(rules, s);
    L.DropNothing(s.cache.items, {s.procs[id].key});
  }

  // ----- the order of stores, fetches and removals

  lemma {:induction false} HeldUntilDropped(log: seq<Event>, key: string, i: nat, j: nat)
    requires i < j <= |log| && log[i].Stored? && log[i].key == key
    requires forall m | i < m < j :: !(log[m].Dropped? && key in log[m].keys)
    ensures Latest(log[..j], key).Some?
  {
    assert log[..j][..j - 1] == log[..j - 1];
    if j > i + 1 {
      HeldUntilDropped(log, key, i, j - 1);
    }
  }

  /**
   * After a store of a key, neither a fetch of that key begins nor another store of it happens
   * before the entry has been dropped: stores never overwrite, and held entries are not fetched.
   */
  lemma RemovalBeforeRefill(rules: Rules, s: State, i: nat, j: nat)
    requires Reachable(rules, s) && i < j < |s.log|
    requires s.log[i].Stored?
    requires (s.log[j].Began? && s.log[j].key == s.log[i].key) || (s.log[j].Stored? && s.log[j].key == s.log[i].key)
    ensures exists m | i < m < j :: s.log[m].Dropped? && s.log[i].key in s.log[m].keys
  {
    ReachableInv(rules, s);
    assert GoodEvent(rules, s.log[..j], s.log[j]);
    if forall m | i < m < j :: !(s.log[m].Dropped? && s.log[i].key in s.log[m].keys) {
      HeldUntilDropped(s.log, s.log[i].key, i, j);
      assert false;
    }
  }

  // ----- provenance

  /** What a logged store has stored, some logged answer has said. */
  lemma StoredFromOrigin(rules: Rules, s: State, j: nat) returns (req: Request, origin: Origin, replied: int)
    requires Inv(rules, s) && j < |s.log| && s.log[j].Stored?
    ensures Replied(s.log[j].id, req, origin, replied) in s.log[..j] && origin.Reply?
    ensures rules.keyOf(req) == s.log[j].key && !rules.bypasses(req) && rules.storable(origin.status, origin.headers)
    ensures var entry := s.log[j].entry;
      replied <= entry.storedAt <= s.log[j].at && entry == Stamped(rules, req, s.log[j].key, origin, entry.storedAt)
  {
    assert GoodEvent(rules, s.log[..j], s.log[j]);
    var (id, key, entry) := (s.log[j].id, s.log[j].key, s.log[j].entry);
    req, origin, replied :|
      && Replied(id, req, origin, replied) in s.log[..j] && replied <= entry.storedAt
      && origin.Reply?
      && rules.keyOf(req) == key && !rules.bypasses(req)
      && rules.storable(origin.status, origin.headers)
      && entry == Stamped(rules, req, key, origin, entry.storedAt);
  }

  /**
   * Every cached entry is an answer of the origin to a request with this very key, judged storable,
   * with the lifetime of that request's path and that answer's headers. It is the latest entry
   * stored under the key, and was not dropped since. Its time stamp lies between answer and store.
   */
  lemma CachedFromOrigin(rules: Rules, s: State, key: string, entry: L.Entry)
    returns (j: nat, req: Request, origin: Origin, replied: int)
    requires Reachable(rules, s) && L.Find(s.cache.items, key) == Some(entry)
    ensures j < |s.log| && s.log[j].Stored? && s.log[j].key == key && s.log[j].entry == entry
    ensures forall m | j < m < |s.log| :: !(s.log[m].Dropped? && key in s.log[m].keys)
    ensures Replied(s.log[j].id, req, origin, replied) in s.log[..j] && origin.Reply?
    ensures rules.keyOf(req) == key && !rules.bypasses(req) && rules.storable(origin.status, origin.headers)
    ensures entry.key == key && entry.ttl == rules.ttlOf(req.path, origin.headers)
    ensures (entry.status, entry.headers, entry.body) == (origin.status, origin.headers, origin.body)
    ensures entry.size == |entry.body|
    ensures replied <= entry.storedAt <= s.log[j].at <= s.now
  {
    ReachableHistory(rules, s);
    assert Latest(s.log, key) == Some(entry);
    j := LatestIsStored(s.log, key);
    assert EventOk(rules, s, s.log[j]);
    req, origin, replied := StoredFromOrigin(rules, s, j);
  }

  // ----- hits

  /**
   * A hit serves the latest un-dropped store of its key within its lifetime, which is counted from an
   * instant between the origin's answer and the store.
   */
  lemma HitIsLatestAndFresh(rules: Rules, s: State, id: nat, entry: L.Entry)
    returns (j: nat, req: Request, origin: Origin, replied: int)
    requires Reachable(rules, s) && At(s, id, Arrived)
    requires Next(rules, s, Begin(id)).procs[id].stage == Done(Hit(entry), None)
    ensures Latest(s.log, s.procs[id].key) == Some(entry)
    ensures j < |s.log| && s.log[j].Stored? && s.log[j].key == s.procs[id].key && s.log[j].entry == entry
    ensures forall m | j < m < |s.log| :: !(s.log[m].Dropped? && s.procs[id].key in s.log[m].keys)
    ensures Replied(s.log[j].id, req, origin, replied) in s.log[..j]
    ensures replied <= entry.storedAt <= s.log[j].at <= s.now <= entry.storedAt + entry.ttl
    ensures !rules.bypasses(s.procs[id].req)
  {
    ReachableInv(rules, s);
    L.GetShrinks(s.cache, s.procs[id].key, s.now);
    j, req, origin, replied := CachedFromOrigin(rules, s, s.procs[id].key, entry);
  }

  /** A miss of the first lookup means that nothing stored under the key is held and still fresh. */
  lemma MissMeansNothingFresh(rules: Rules, s: State, id: nat)
    requires Reachable(rules, s) && At(s, id, Arrived)
    requires Next(rules, s, Begin(id)).procs[id].stage == Missed
    ensures var held := Latest(s.log, s.procs[id].key);
      held.None? || s.now > held.value.storedAt + held.value.ttl
  {
    ReachableInv(rules, s);
  }

  // ----- fan-out

  /** Everyone in a flight gets the result of its leader, who asked for the same key. */
  lemma FanOut(rules: Rules, s: State, id: nat, leader: nat)
    requires Reachable(rules, s) && id in s.procs
    requires s.procs[id].stage.Done? && s.procs[id].stage.flight == Some(leader)
    ensures leader in s.procs && s.procs[leader].key == s.procs[id].key
    ensures leader in s.results && s.procs[id].stage.response == Respond(s.results[leader])
  {
    ReachableInv(rules, s);
  }

  /** No waiter is stranded: its leader still leads, or the result is there to collect. */
  lemma NoOneStranded(rules: Rules, s: State, id: nat)
    requires Reachable(rules, s) && id in s.procs && s.procs[id].stage.Awaiting?
    ensures var leader := s.procs[id].stage.leader;
      && leader in s.procs && s.procs[leader].key == s.procs[id].key
      && var key := s.procs[id].key;
      && (leader in s.results || (Leading(s.procs[leader].stage) && key in s.flights && s.flights[key] == leader))
  {
    ReachableInv(rules, s);
  }
}
