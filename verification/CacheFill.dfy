/**
 * The cache-fill protocol of `handleWithCache`, as a machine whose steps interleave freely.
 *
 * Any number of requests run at once. Each goes through lookup, entry into the single flight of its
 * key, second lookup, origin fetch, store decision, store, and delivery; the clock and the admin
 * API move between any two steps. A step is a lock-protected operation of the program or the
 * computation between two of them. `singleflight` is taken by its documented contract: one call in
 * flight per key, whose result goes to the caller that leads it and to all that joined it.
 *
 * The machine keeps a log of what happened, which no step reads.
 */
module CacheFill {
  import opened Strings
  import opened Http
  import L = Lru

  /** What the origin answers; a transport error or a cancelled request is a failure. */
  datatype Origin = Reply(status: int, headers: Headers, body: string) | Failed

  /** The decisions the protocol asks for, as arbitrary functions. */
  datatype Rules = Rules(
    bypasses: Request -> bool,
    keyOf: Request -> string,
    storable: (int, Headers) -> bool,
    ttlOf: (string, Headers) -> int)

  /** What a flight returns to everyone in it. */
  datatype Result = Got(entry: L.Entry) | Error

  datatype Response = Bypassed | Hit(entry: L.Entry) | Miss(entry: L.Entry) | BadGateway

  datatype Stage =
    | Arrived
    | Missed                                           // first lookup failed
    | Rechecking                                       // leads the flight, before the second lookup
    | Fetching                                         // the origin has the request
    | Answered(origin: Origin)
    | Storing(entry: L.Entry)                          // stamped, about to call Set
    | Returning(result: Result)                        // the flight's closure has its result
    | Awaiting(leader: nat)                            // in the flight of `leader`
    | Done(response: Response, flight: Option<nat>)

  datatype Proc = Proc(req: Request, key: string, stage: Stage)

  datatype Cause = Expired | Evicted | Purged

  datatype Event =
    | Looked(id: nat, key: string, second: bool, found: Option<L.Entry>, at: int)
    | Led(id: nat, key: string)
    | Began(id: nat, key: string)
    | Replied(id: nat, req: Request, origin: Origin, at: int)
    | Stored(id: nat, key: string, entry: L.Entry, at: int)
    | Dropped(keys: set<string>, cause: Cause)

  datatype State = State(
    now: int,
    cache: L.Cache,
    procs: map<nat, Proc>,
    arrivals: seq<nat>,
    flights: map<string, nat>,
    results: map<nat, Result>,
    log: seq<Event>)

  /** An admin purge. */
  datatype Purge = PurgeKey(key: string) | PurgePath(path: string) | PurgePrefix(prefix: string) | PurgeAll

  datatype Step =
    | Tick(elapsed: nat)
    | Arrive(id: nat, req: Request)
    | Begin(id: nat)
    | Enter(id: nat)
    | Recheck(id: nat)
    | Answer(id: nat, origin: Origin)
    | Decide(id: nat)
    | Store(id: nat)
    | Finish(id: nat)
    | Deliver(id: nat)
    | Admin(purge: Purge)

  function Init(maxEntries: int, maxBytes: int, now: int): State {
    State(now, L.Empty(maxEntries, maxBytes), map[], [], map[], map[], [])
  }

  // ----- steps

  predicate At(s: State, id: nat, stage: Stage) {
    id in s.procs && s.procs[id].stage == stage
  }

  predicate Enabled(s: State, step: Step) {
    match step
    case Tick(_) => true
    case Admin(_) => true
    case Arrive(id, _) => id !in s.procs
    case Begin(id) => At(s, id, Arrived)
    case Enter(id) => At(s, id, Missed)
    case Recheck(id) => At(s, id, Rechecking)
    case Answer(id, _) => At(s, id, Fetching)
    case Decide(id) => id in s.procs && s.procs[id].stage.Answered?
    case Store(id) => id in s.procs && s.procs[id].stage.Storing?
    case Finish(id) => id in s.procs && s.procs[id].stage.Returning?
    case Deliver(id) => id in s.procs && s.procs[id].stage.Awaiting? && s.procs[id].stage.leader in s.results
  }

  function Move(s: State, id: nat, stage: Stage): State
    requires id in s.procs
  {
    s.(procs := s.procs[id := s.procs[id].(stage := stage)])
  }

  /** The keys a change of the cache takes away. */
  function Lost(before: L.Cache, after: L.Cache): set<string> {
    L.Keys(before.items) - L.Keys(after.items)
  }

  /** A lookup of the request's key; an expired entry is dropped on the way. */
  function Lookup(s: State, id: nat, second: bool): (State, Option<L.Entry>)
    requires id in s.procs
  {
    var key := s.procs[id].key;
    var (cache, found) := L.Get(s.cache, key, s.now);
    var events := [Dropped(Lost(s.cache, cache), Expired), Looked(id, key, second, found, s.now)];
    (s.(cache := cache, log := s.log + events), found)
  }

  function DoArrive(rules: Rules, s: State, id: nat, req: Request): State {
    s.(procs := s.procs[id := Proc(req, rules.keyOf(req), Arrived)], arrivals := s.arrivals + [id])
  }

  function DoBegin(rules: Rules, s: State, id: nat): State
    requires id in s.procs
  {
    if rules.bypasses(s.procs[id].req) then
      Move(s.(cache := L.Bypass(s.cache)), id, Done(Bypassed, None))
    else
      var (s', found) := Lookup(s, id, false);
      Move(s', id, if found.Some? then Done(Hit(found.value), None) else Missed)
  }

  function DoEnter(s: State, id: nat): State
    requires id in s.procs
  {
    var key := s.procs[id].key;
    if key in s.flights then Move(s, id, Awaiting(s.flights[key]))
    else Move(s.(flights := s.flights[key := id], log := s.log + [Led(id, key)]), id, Rechecking)
  }

  function DoRecheck(s: State, id: nat): State
    requires id in s.procs
  {
    var (s', found) := Lookup(s, id, true);
    if found.Some? then Move(s', id, Returning(Got(found.value)))
    else Move(s'.(log := s'.log + [Began(id, s.procs[id].key)]), id, Fetching)
  }

  function DoAnswer(s: State, id: nat, origin: Origin): State
    requires id in s.procs
  {
    Move(s.(log := s.log + [Replied(id, s.procs[id].req, origin, s.now)]), id, Answered(origin))
  }

  /** The entry `fetchFromOrigin` builds from a reply; its size is the length of the body. */
  function Fetched(origin: Origin): L.Entry
    requires origin.Reply?
  {
    L.Entry("", origin.status, origin.headers, origin.body, 0, 0, |origin.body|)
  }

  /** The same entry, completed for the store. */
  function Stamped(rules: Rules, req: Request, key: string, origin: Origin, at: int): L.Entry
    requires origin.Reply?
  {
    Fetched(origin).(key := key, ttl := rules.ttlOf(req.path, origin.headers), storedAt := at)
  }

  /** What the closure does with the answer: give up, store, or return it as it is. */
  function Decision(rules: Rules, p: Proc, origin: Origin, now: int): Stage {
    if origin.Failed? then Returning(Error)
    else if rules.storable(origin.status, origin.headers) then Storing(Stamped(rules, p.req, p.key, origin, now))
    else Returning(Got(Fetched(origin)))
  }

  function DoDecide(rules: Rules, s: State, id: nat): State
    requires id in s.procs && s.procs[id].stage.Answered?
  {
    Move(s, id, Decision(rules, s.procs[id], s.procs[id].stage.origin, s.now))
  }

  function DoStore(s: State, id: nat): State
    requires id in s.procs && s.procs[id].stage.Storing? && s.cache.maxEntries >= 1
  {
    var key, entry := s.procs[id].key, s.procs[id].stage.entry;
    var cache := L.Set(s.cache, key, entry);
    var events := [Dropped(Lost(s.cache, cache), Evicted), Stored(id, key, entry, s.now)];
    Move(s.(cache := cache, log := s.log + events), id, Returning(Got(entry)))
  }

  function DoFinish(s: State, id: nat): State
    requires id in s.procs && s.procs[id].stage.Returning?
  {
    Move(s.(flights := s.flights - {s.procs[id].key}, results := s.results[id := s.procs[id].stage.result]),
         id, Awaiting(id))
  }

  function DoDeliver(s: State, id: nat): State
    requires id in s.procs && s.procs[id].stage.Awaiting? && s.procs[id].stage.leader in s.results
  {
    var leader := s.procs[id].stage.leader;
    Move(s, id, Done(Respond(s.results[leader]), Some(leader)))
  }

  function Respond(result: Result): Response {
    match result
    case Got(entry) => Miss(entry)
    case Error => BadGateway
  }

  function AdminCall(purge: Purge): L.Call {
    match purge
    case PurgeKey(key) => L.CallDelete(key)
    case PurgePath(path) => L.CallDeleteByPath(path)
    case PurgePrefix(prefix) => L.CallDeleteByPrefix(prefix)
    case PurgeAll => L.CallPurge
  }

  function DoAdmin(s: State, purge: Purge): State
    requires s.cache.maxEntries >= 1
  {
    var cache := L.Apply(s.cache, AdminCall(purge));
    s.(cache := cache, log := s.log + [Dropped(Lost(s.cache, cache), Purged)])
  }

  function Next(rules: Rules, s: State, step: Step): (s': State)
    requires s.cache.maxEntries >= 1 && Enabled(s, step)
    ensures s'.cache.maxEntries == s.cache.maxEntries
  {
    match step
    case Tick(elapsed) => s.(now := s.now + elapsed)
    case Arrive(id, req) => DoArrive(rules, s, id, req)
    case Begin(id) => DoBegin(rules, s, id)
    case Enter(id) => DoEnter(s, id)
    case Recheck(id) => DoRecheck(s, id)
    case Answer(id, origin) => DoAnswer(s, id, origin)
    case Decide(id) => DoDecide(rules, s, id)
    case Store(id) => DoStore(s, id)
    case Finish(id) => DoFinish(s, id)
    case Deliver(id) => DoDeliver(s, id)
    case Admin(purge) => DoAdmin(s, purge)
  }

  // ----- runs

  predicate CanRun(rules: Rules, s: State, steps: seq<Step>)
    requires s.cache.maxEntries >= 1
    decreases |steps|
  {
    steps == [] || (Enabled(s, steps[0]) && CanRun(rules, Next(rules, s, steps[0]), steps[1..]))
  }

  function Run(rules: Rules, s: State, steps: seq<Step>): (s': State)
    requires s.cache.maxEntries >= 1 && CanRun(rules, s, steps)
    ensures s'.cache.maxEntries == s.cache.maxEntries
    decreases |steps|
  {
    if steps == [] then s else Run(rules, Next(rules, s, steps[0]), steps[1..])
  }

  /** The states some run from an empty cache reaches. */
  ghost predicate Reachable(rules: Rules, s: State) {
    exists maxEntries: int, maxBytes: int, now: int, steps: seq<Step> ::
      && maxEntries >= 1 && maxBytes >= 0
      && CanRun(rules, Init(maxEntries, maxBytes, now), steps)
      && s == Run(rules, Init(maxEntries, maxBytes, now), steps)
  }
}
