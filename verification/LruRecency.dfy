/**
 * The cache is least-recently-used: its order is the order of last use, read off the calls alone.
 */
module LruRecency {
  import opened Lru

  predicate Uses(call: Call, key: string) {
    (call.CallGet? && call.key == key) || (call.CallSet? && call.key == key)
  }

  /** The position of the last lookup or store of a key in a history of calls; -1 if there is none. */
  function LastUse(calls: seq<Call>, key: string): (at: int)
    ensures -1 <= at < |calls|
  {
    if calls == [] then -1
    else
      var n := |calls| - 1;
      if Uses(calls[n], key) then n else LastUse(calls[..n], key)
  }

  /** Items stand in the order of their last use, the latest first. */
  ghost predicate ByUse(items: seq<Item>, calls: seq<Call>) {
    forall i, j | 0 <= i < j < |items| :: LastUse(calls, items[i].key) > LastUse(calls, items[j].key)
  }

  lemma {:induction false} ByUseDrop(items: seq<Item>, keys: set<string>, calls: seq<Call>)
    requires ByUse(items, calls)
    ensures ByUse(Drop(items, keys), calls)
  {
    if items != [] {
      ByUseDrop(items[1..], keys, calls);
      var rest := Drop(items[1..], keys);
      forall i | 0 <= i < |rest| ensures LastUse(calls, items[0].key) > LastUse(calls, rest[i].key) {
        DropMembers(items[1..], keys);
        assert rest[i] in rest;
        var j :| 1 <= j < |items| && items[j] == rest[i];
      }
    }
  }

  /** A call that uses none of the items leaves their order of use alone. */
  lemma ByUseLater(items: seq<Item>, calls: seq<Call>, call: Call)
    requires ByUse(items, calls)
    requires forall item <- items :: !Uses(call, item.key)
    ensures ByUse(items, calls + [call])
  {
    forall i | 0 <= i < |items| ensures LastUse(calls + [call], items[i].key) == LastUse(calls, items[i].key) {
      LastUseAppend(calls, call, items[i].key);
    }
  }

  lemma LastUseAppend(calls: seq<Call>, call: Call, key: string)
    ensures LastUse(calls + [call], key) == if Uses(call, key) then |calls| else LastUse(calls, key)
  {
    assert (calls + [call])[..|calls|] == calls;
  }

  /** Putting the item just used in front of the others keeps the order. */
  lemma ByUseFront(items: seq<Item>, calls: seq<Call>, call: Call, front: Item)
    requires ByUse(items, calls) && Uses(call, front.key) && front.key !in Keys(items)
    ensures ByUse([front] + items, calls + [call])
  {
    forall item <- items ensures !Uses(call, item.key) {
      assert item.key in Keys(items);
    }
    ByUseLater(items, calls, call);
    LastUseAppend(calls, call, front.key);
    forall i | 0 <= i < |items| ensures LastUse(calls + [call], items[i].key) < |calls| {
      LastUseAppend(calls, call, items[i].key);
    }
  }

  lemma MissByUse(c: Cache, calls: seq<Call>, key: string, now: int)
    requires ByUse(c.items, calls) && key !in Keys(c.items)
    ensures ByUse(c.items, calls + [CallGet(key, now)])
  {
    assert forall item <- c.items :: item.key in Keys(c.items);
    ByUseLater(c.items, calls, CallGet(key, now));
  }

  lemma DropByUse(c: Cache, calls: seq<Call>, key: string, now: int)
    requires Valid(c) && ByUse(c.items, calls)
    ensures ByUse(Drop(c.items, {key}), calls + [CallGet(key, now)])
  {
    DropMembers(c.items, {key});
    ByUseDrop(c.items, {key}, calls);
    ByUseLater(Drop(c.items, {key}), calls, CallGet(key, now));
  }

  lemma HitByUse(c: Cache, calls: seq<Call>, key: string, now: int, entry: Entry)
    requires Valid(c) && ByUse(c.items, calls)
    ensures ByUse([Item(key, entry)] + Drop(c.items, {key}), calls + [CallGet(key, now)])
  {
    DropFacts(c.items, {key});
    ByUseDrop(c.items, {key}, calls);
    ByUseFront(Drop(c.items, {key}), calls, CallGet(key, now), Item(key, entry));
  }

  lemma GetByUse(c: Cache, calls: seq<Call>, key: string, now: int)
    requires Valid(c) && ByUse(c.items, calls)
    ensures ByUse(Get(c, key, now).0.items, calls + [CallGet(key, now)])
  {
    match Find(c.items, key) {
      case None => MissByUse(c, calls, key, now);
      case Some(entry) =>
        DropByUse(c, calls, key, now);
        HitByUse(c, calls, key, now, entry);
    }
  }

  lemma SetByUse(c: Cache, calls: seq<Call>, key: string, entry: Entry)
    requires Valid(c) && ByUse(c.items, calls)
    ensures ByUse(Set(c, key, entry).items, calls + [CallSet(key, entry)])
  {
    var rest, kept := Drop(c.items, {key}), Kept(c, key, entry);
    DropFacts(c.items, {key});
    DistinctPrefix(rest, kept);
    ByUseDrop(c.items, {key}, calls);
    assert forall i | 0 <= i < |kept| :: kept[i] == rest[i];
    ByUseFront(kept, calls, CallSet(key, entry), Item(key, entry));
  }

  lemma ApplyByUse(c: Cache, calls: seq<Call>, call: Call)
    requires Valid(c) && ByUse(c.items, calls)
    ensures ByUse(Apply(c, call).items, calls + [call])
  {
    match call {
      case CallGet(key, now) => GetByUse(c, calls, key, now);
      case CallSet(key, entry) => SetByUse(c, calls, key, entry);
      case CallDelete(key) =>
        ByUseDrop(c.items, {key}, calls);
        ByUseLater(Drop(c.items, {key}), calls, call);
      case CallDeleteByPrefix(prefix) =>
        ByUseDrop(c.items, KeysWithPrefix(c, prefix), calls);
        ByUseLater(Drop(c.items, KeysWithPrefix(c, prefix)), calls, call);
      case CallDeleteByPath(path) =>
        ByUseDrop(c.items, KeysWithPath(c, path), calls);
        ByUseLater(Drop(c.items, KeysWithPath(c, path)), calls, call);
      case CallPurge =>
      case CallBypass => ByUseLater(c.items, calls, call);
    }
  }

  lemma {:induction false} RunByUse(c: Cache, before: seq<Call>, calls: seq<Call>)
    requires Valid(c) && ByUse(c.items, before)
    ensures Valid(Run(c, calls)) && ByUse(Run(c, calls).items, before + calls)
    decreases |calls|
  {
    if calls == [] {
      assert before + calls == before;
    } else {
      ApplyValid(c, calls[0]);
      ApplyByUse(c, before, calls[0]);
      RunByUse(Apply(c, calls[0]), before + [calls[0]], calls[1..]);
      assert before + [calls[0]] + calls[1..] == before + calls;
    }
  }

  /** After any calls on a new cache, its order is the order of last use. */
  lemma RecencyIsLastUse(maxEntries: int, maxBytes: int, calls: seq<Call>)
    requires maxEntries >= 1 && maxBytes >= 0
    ensures ByUse(Run(Empty(maxEntries, maxBytes), calls).items, calls)
  {
    RunByUse(Empty(maxEntries, maxBytes), [], calls);
    assert [] + calls == calls;
  }

  lemma KeyIndex(items: seq<Item>, key: string) returns (i: nat)
    requires key in Keys(items)
    ensures i < |items| && items[i].key == key
  {
    i :| 0 <= i < |items| && items[i].key == key;
  }

  /** A key outside a prefix comes after every key in it. */
  lemma PrefixIsLater(items: seq<Item>, prefix: seq<Item>, calls: seq<Call>, outside: string, inside: string)
    requires ByUse(items, calls) && prefix <= items
    requires outside in Keys(items) && outside !in Keys(prefix) && inside in Keys(prefix)
    ensures LastUse(calls, outside) < LastUse(calls, inside)
  {
    forall m | 0 <= m < |prefix| ensures items[m].key != outside {
      assert prefix[m].key in Keys(prefix) && items[m] == prefix[m];
    }
    var i := KeyIndex(prefix, inside);
    var j := KeyIndex(items, outside);
    assert items[i] == prefix[i];
  }

  lemma StoreKeepsRecent(c: Cache, calls: seq<Call>, key: string, entry: Entry, evicted: string, kept: string)
    requires Valid(c) && ByUse(c.items, calls)
    requires evicted in Keys(c.items) && evicted !in Keys(Set(c, key, entry).items)
    requires kept in Keys(Set(c, key, entry).items) && kept != key
    ensures LastUse(calls, evicted) < LastUse(calls, kept)
  {
    var rest, left := Drop(c.items, {key}), Kept(c, key, entry);
    DropFacts(c.items, {key});
    ByUseDrop(c.items, {key}, calls);
    DistinctPrefix(rest, left);
    FrontFacts(Item(key, entry), left);
    PrefixIsLater(rest, left, calls, evicted, kept);
  }

  /**
   * A store evicts the least recently used: whatever it evicts was last used before everything it
   * keeps.
   */
  lemma EvictsLeastRecent(maxEntries: int, maxBytes: int, calls: seq<Call>, key: string, entry: Entry,
                          evicted: string, kept: string)
    requires maxEntries >= 1 && maxBytes >= 0
    requires var c := Run(Empty(maxEntries, maxBytes), calls);
      var after := Set(c, key, entry);
      && evicted in Keys(c.items) && evicted !in Keys(after.items)
      && kept in Keys(after.items) && kept != key
    ensures LastUse(calls, evicted) < LastUse(calls, kept)
  {
    RunByUse(Empty(maxEntries, maxBytes), [], calls);
    assert [] + calls == calls;
    StoreKeepsRecent(Run(Empty(maxEntries, maxBytes), calls), calls, key, entry, evicted, kept);
  }
}
