/**
 * `handleCachePurge` of the admin API: an exact key first, then a path.
 */
module Admin {
  import opened Strings
  import opened Http
  import opened CacheKey
  import opened MemoryBackend
  import CacheFill
  import CacheFillPurge
  import CacheFillTheorems
  import Handler
  import Path
  import Policy
  import L = Lru

  predicate LooksLikePath(key: string) {
    |key| > 0 && key[0] == '/'
  }

  /** The keys a purge request takes away. */
  function PurgedKeys(c: L.Cache, key: string): set<string> {
    if key in L.Keys(c.items) then {key}
    else if LooksLikePath(key) then L.KeysWithPath(c, key)
    else {}
  }

  /**
   * What a purge of `target` does: it takes the entry with that very key; if there is none and the
   * target starts with a slash, the entries whose third part it is; and nothing else.
   */
  ghost predicate TakenExactly(before: L.Cache, after: L.Cache, target: string, deleted: bool) {
    && target !in L.Keys(after.items)
    && (forall k :: k in L.Keys(after.items) <==> k in L.Keys(before.items) && !Takes(before, target, k))
    && L.Shrinks(before, after)
    && (deleted <==> exists k <- L.Keys(before.items) :: Takes(before, target, k))
    && (!deleted ==> after == before)
  }

  predicate Takes(before: L.Cache, target: string, key: string) {
    if target in L.Keys(before.items) then key == target
    else "/" <= target && MatchesPath(key, target)
  }

  lemma PurgeTakesExactly(c: L.Cache, target: string)
    requires L.Valid(c)
    ensures TakenExactly(c, L.Remove(c, PurgedKeys(c, target)), target, PurgedKeys(c, target) != {})
  {
    var keys := PurgedKeys(c, target);
    L.RemoveShrinks(c, keys);
    forall k <- L.Keys(c.items) ensures k in keys <==> Takes(c, target, k) {
      assert LooksLikePath(target) <==> "/" <= target;
    }
    if keys == {} {
      L.DropNothing(c.items, keys);
    }
  }

  /** A key that is not held is not deleted, and then the path counts. */
  lemma PathComesSecond(c: L.Cache, target: string)
    requires L.Valid(c) && target !in L.Keys(c.items)
    ensures L.Remove(c, {target}) == c
    ensures LooksLikePath(target) ==>
      && PurgedKeys(c, target) == L.KeysWithPath(c, target)
      && (|c.items| - |L.Remove(c, PurgedKeys(c, target)).items| > 0 <==> PurgedKeys(c, target) != {})
    ensures !LooksLikePath(target) ==> PurgedKeys(c, target) == {} && L.Remove(c, {}) == c
  {
    L.DropNothing(c.items, {target});
    if LooksLikePath(target) {
      L.DropFacts(c.items, L.KeysWithPath(c, target));
      CountsKeys(c.items, L.KeysWithPath(c, target));
    } else {
      L.DropNothing(c.items, {});
    }
  }

  /** Deletes the exact key or, failing that, every entry of the path; reports whether any entry went. */
  method HandleCachePurge(backend: MemoryBackend, url: string, key: string) returns (deleted: bool)
    requires backend.Valid()
    modifies backend
    ensures backend.Valid()
    ensures var target := if key == "" then url else key;
      && backend.Contents() == L.Remove(old(backend.Contents()), PurgedKeys(old(backend.Contents()), target))
      && deleted == (PurgedKeys(old(backend.Contents()), target) != {})
    ensures TakenExactly(old(backend.Contents()), backend.Contents(), if key == "" then url else key, deleted)
  {
    var target := if key == "" then url else key;
    ghost var before := backend.Contents();
    PurgeTakesExactly(before, target);
    deleted := backend.Delete(target);
    if !deleted {
      PathComesSecond(before, target);
      if |target| > 0 && target[0] == '/' {
        var count := backend.DeleteByPath(target);
        deleted := count > 0;
      }
    }
  }

  /** Dropping takes as many items as keys, when all the keys are there. */
  lemma CountsKeys(items: seq<L.Item>, keys: set<string>)
    requires L.Distinct(items) && keys <= L.Keys(items)
    ensures |items| - |L.Drop(items, keys)| == |keys|
  {
    L.DropFacts(items, keys);
    L.KeyCount(items);
    L.KeyCount(L.Drop(items, keys));
    assert L.Keys(items) == L.Keys(L.Drop(items, keys)) + keys;
  }

  /** Printed for a GET or HEAD, with a host that holds no bar. */
  predicate Printed(parts: Parts) {
    parts.m == "GET" && '|' !in parts.h
  }

  ghost predicate HandlerKeys(c: L.Cache) {
    forall key <- L.Keys(c.items) :: exists parts: Parts :: Printed(parts) && KeyFrom(parts) == key
  }

  /**
   * On a cache of handler keys a purge of a path is never an exact delete: it takes exactly the
   * entries whose path is the given one or continues it with a bar, and nothing for a path that
   * holds a bar itself.
   */
  lemma PathPurgeIsExact(c: L.Cache, path: string)
    requires HandlerKeys(c) && LooksLikePath(path)
    ensures path !in L.Keys(c.items)
    ensures forall parts: Parts | Printed(parts) && KeyFrom(parts) in L.Keys(c.items) ::
      KeyFrom(parts) in PurgedKeys(c, path) <==>
        '|' !in path && (parts.p == path || HasPrefix(parts.p, path + "|"))
  {
    forall parts: Parts | Printed(parts) ensures KeyFrom(parts) != path {
      PrintStart(parts.m, parts.h, parts.p, parts.q, parts.ae);
      assert KeyFrom(parts)[0] == (parts.m + "|")[0] == 'G';
    }
    forall parts: Parts | Printed(parts)
      ensures MatchesPath(KeyFrom(parts), path) <==> '|' !in path && (parts.p == path || HasPrefix(parts.p, path + "|"))
    {
      PathExact(parts.m, parts.h, parts.p, parts.q, parts.ae, path);
    }
  }

  /** A bar-free prefix purges exactly the entries whose path starts with it, and any other nothing. */
  lemma PrefixPurgeIsExact(c: L.Cache, prefix: string)
    ensures forall parts: Parts | Printed(parts) && KeyFrom(parts) in L.Keys(c.items) ::
      KeyFrom(parts) in L.KeysWithPrefix(c, prefix) <==> '|' !in prefix && HasPrefix(parts.p, prefix)
  {
    forall parts: Parts | Printed(parts)
      ensures MatchesPrefix(KeyFrom(parts), prefix) <==> '|' !in prefix && HasPrefix(parts.p, prefix)
    {
      PrefixExact(parts.m, parts.h, parts.p, parts.q, parts.ae, prefix);
    }
  }

  // ----- the handler's own cache

  ghost predicate BarFreeHosts(s: CacheFill.State) {
    forall id <- s.procs :: '|' !in s.procs[id].req.host
  }

  lemma PartsPrinted(req: Request)
    requires req.verb in ["GET", "HEAD"] && '|' !in req.host
    ensures Printed(Handler.PartsOf(req)) && KeyFrom(Handler.PartsOf(req)) == Handler.KeyOf(req)
  {
    KeyMethodGet(req.verb);
    assert forall i | 0 <= i < |req.host| :: ToLower(req.host)[i] == LowerChar(req.host[i]) != '|';
  }

  /** The key of an entry is printed from the request that stored it. */
  lemma HolderParts(policy: Policy.Policy, s: CacheFill.State, key: string, id: nat)
    requires CacheFill.Reachable(Handler.Configured(policy), s) && BarFreeHosts(s)
    requires CacheFillPurge.HoldsFrom(s, key, id)
    ensures id in s.procs && Printed(Handler.PartsOf(s.procs[id].req))
    ensures KeyFrom(Handler.PartsOf(s.procs[id].req)) == key
  {
    CacheFillPurge.HolderEngaged(Handler.Configured(policy), s, key, id);
    Handler.HolderCacheable(policy, s, key, id);
    PartsPrinted(s.procs[id].req);
  }

  /** Every entry in a reachable state is held from some request. */
  lemma HeldFromSome(policy: Policy.Policy, s: CacheFill.State, key: string) returns (id: nat)
    requires CacheFill.Reachable(Handler.Configured(policy), s) && key in L.Keys(s.cache.items)
    ensures CacheFillPurge.HoldsFrom(s, key, id)
  {
    var entry := L.Find(s.cache.items, key).value;
    var j, req, origin, replied := CacheFillTheorems.CachedFromOrigin(Handler.Configured(policy), s, key, entry);
    id := s.log[j].id;
    assert CacheFillPurge.HoldsAt(s, key, id, j);
  }

  /** In every reachable state of the handler, with bar-free hosts, the cache holds handler keys. */
  lemma ReachableHandlerKeys(policy: Policy.Policy, s: CacheFill.State)
    requires CacheFill.Reachable(Handler.Configured(policy), s) && BarFreeHosts(s)
    ensures HandlerKeys(s.cache)
  {
    forall key <- L.Keys(s.cache.items) ensures exists parts: Parts :: Printed(parts) && KeyFrom(parts) == key {
      var id := HeldFromSome(policy, s, key);
      HolderParts(policy, s, key, id);
    }
  }

  /**
   * So in the running proxy a purge of a path takes an entry exactly if the normalised path of the
   * request that stored it is the given one, or continues it with a bar.
   */
  lemma PathPurgeTakes(policy: Policy.Policy, s: CacheFill.State, path: string, key: string, id: nat)
    requires CacheFill.Reachable(Handler.Configured(policy), s) && BarFreeHosts(s)
    requires LooksLikePath(path) && CacheFillPurge.HoldsFrom(s, key, id)
    ensures id in s.procs
    ensures var p := Path.Normal(s.procs[id].req.path);
      key in PurgedKeys(s.cache, path) <==> '|' !in path && (p == path || HasPrefix(p, path + "|"))
  {
    ReachableHandlerKeys(policy, s);
    PathPurgeIsExact(s.cache, path);
    HolderParts(policy, s, key, id);
  }

  /** And a purge of a prefix takes it exactly if the prefix holds no bar and that path starts with it. */
  lemma PrefixPurgeTakes(policy: Policy.Policy, s: CacheFill.State, prefix: string, key: string, id: nat)
    requires CacheFill.Reachable(Handler.Configured(policy), s) && BarFreeHosts(s)
    requires CacheFillPurge.HoldsFrom(s, key, id)
    ensures id in s.procs
    ensures var p := Path.Normal(s.procs[id].req.path);
      key in L.KeysWithPrefix(s.cache, prefix) <==> '|' !in prefix && HasPrefix(p, prefix)
  {
    PrefixPurgeIsExact(s.cache, prefix);
    HolderParts(policy, s, key, id);
  }
}
