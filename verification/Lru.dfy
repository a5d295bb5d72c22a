/**
 * The cache as a value: entries in recency order under two limits, with its counters.
 *
 * This is the specification of `cache.MemoryBackend`. Time is a number of nanoseconds passed to
 * the operations that read the clock.
 */
module Lru {
  import opened Strings
  import opened Http
  import opened CacheKey

  datatype Entry = Entry(
    key: string,
    status: int,
    headers: Headers,
    body: string,
    storedAt: int,
    ttl: int,
    size: nat)

  predicate IsExpired(entry: Entry, now: int) {
    now - entry.storedAt > entry.ttl
  }

  /** An entry under the key it was stored with. */
  datatype Item = Item(key: string, entry: Entry)

  /** `items[0]` is the most recently used. */
  datatype Cache = Cache(
    maxEntries: int,
    maxBytes: int,
    items: seq<Item>,
    hits: nat,
    misses: nat,
    bypasses: nat,
    stores: nat,
    evictions: nat)

  function Empty(maxEntries: int, maxBytes: int): Cache {
    Cache(maxEntries, maxBytes, [], 0, 0, 0, 0, 0)
  }

  // ----- item lists

  function Keys(items: seq<Item>): set<string> {
    set item <- items :: item.key
  }

  ghost predicate Distinct(items: seq<Item>) {
    forall i, j | 0 <= i < j < |items| :: items[i].key != items[j].key
  }

  function Find(items: seq<Item>, key: string): (found: Option<Entry>)
    ensures found.Some? <==> key in Keys(items)
    ensures found.Some? ==> Item(key, found.value) in items
  {
    if items == [] then None
    else if items[0].key == key then Some(items[0].entry)
    else Find(items[1..], key)
  }

  /** The items whose key is not in `keys`, in the same order. */
  function Drop(items: seq<Item>, keys: set<string>): (rest: seq<Item>)
    ensures |rest| <= |items|
  {
    if items == [] then []
    else if items[0].key in keys then Drop(items[1..], keys)
    else [items[0]] + Drop(items[1..], keys)
  }

  function Bytes(items: seq<Item>): nat {
    if items == [] then 0 else items[0].entry.size + Bytes(items[1..])
  }

  // ----- operations

  /** The guard of the eviction loop: one more item of `size` bytes does not fit beside `items`. */
  predicate MustEvict(items: seq<Item>, maxEntries: int, maxBytes: int, size: nat) {
    |items| >= maxEntries || (Bytes(items) + size > maxBytes && |items| > 0)
  }

  /** What stays when the oldest item goes as long as the guard holds. */
  function Evict(items: seq<Item>, maxEntries: int, maxBytes: int, size: nat): (kept: seq<Item>)
    requires maxEntries >= 1
    ensures kept <= items
  {
    if MustEvict(items, maxEntries, maxBytes, size)
    then Evict(items[..|items| - 1], maxEntries, maxBytes, size)
    else items
  }

  function Get(c: Cache, key: string, now: int): (Cache, Option<Entry>) {
    match Find(c.items, key)
    case None => (c.(misses := c.misses + 1), None)
    case Some(entry) =>
      if IsExpired(entry, now) then
        (c.(items := Drop(c.items, {key}), misses := c.misses + 1), None)
      else
        (c.(items := [Item(key, entry)] + Drop(c.items, {key}), hits := c.hits + 1), Some(entry))
  }

  lemma GetMisses(c: Cache, key: string, now: int)
    requires Find(c.items, key).None?
    ensures Get(c, key, now) == (c.(misses := c.misses + 1), None)
  {
  }

  lemma GetExpires(c: Cache, key: string, now: int, entry: Entry)
    requires Find(c.items, key) == Some(entry) && IsExpired(entry, now)
    ensures Get(c, key, now) == (c.(items := Drop(c.items, {key}), misses := c.misses + 1), None)
  {
  }

  lemma GetHits(c: Cache, key: string, now: int, entry: Entry)
    requires Find(c.items, key) == Some(entry) && !IsExpired(entry, now)
    ensures Get(c, key, now)
      == (c.(items := [Item(key, entry)] + Drop(c.items, {key}), hits := c.hits + 1), Some(entry))
  {
  }

  /** The items left to share the cache with a new entry for `key`. */
  function Kept(c: Cache, key: string, entry: Entry): seq<Item>
    requires c.maxEntries >= 1
  {
    Evict(Drop(c.items, {key}), c.maxEntries, c.maxBytes, entry.size)
  }

  function Set(c: Cache, key: string, entry: Entry): Cache
    requires c.maxEntries >= 1
  {
    var kept := Kept(c, key, entry);
    c.(items := [Item(key, entry)] + kept,
       stores := c.stores + 1,
       evictions := c.evictions + (|Drop(c.items, {key})| - |kept|))
  }

  function Remove(c: Cache, keys: set<string>): Cache {
    c.(items := Drop(c.items, keys))
  }

  function KeysWithPrefix(c: Cache, prefix: string): set<string> {
    set key | key in Keys(c.items) && MatchesPrefix(key, prefix)
  }

  function KeysWithPath(c: Cache, path: string): set<string> {
    set key | key in Keys(c.items) && MatchesPath(key, path)
  }

  function Bypass(c: Cache): Cache {
    c.(bypasses := c.bypasses + 1)
  }

  /** A call on the backend. */
  datatype Call =
    | CallGet(key: string, now: int)
    | CallSet(key: string, entry: Entry)
    | CallDelete(key: string)
    | CallDeleteByPrefix(prefix: string)
    | CallDeleteByPath(path: string)
    | CallPurge
    | CallBypass

  function Apply(c: Cache, call: Call): Cache
    requires c.maxEntries >= 1
  {
    match call
    case CallGet(key, now) => Get(c, key, now).0
    case CallSet(key, entry) => Set(c, key, entry)
    case CallDelete(key) => Remove(c, {key})
    case CallDeleteByPrefix(prefix) => Remove(c, KeysWithPrefix(c, prefix))
    case CallDeleteByPath(path) => Remove(c, KeysWithPath(c, path))
    case CallPurge => c.(items := [])
    case CallBypass => Bypass(c)
  }

  // ----- facts about item lists

  lemma {:induction false} DropMembers(items: seq<Item>, keys: set<string>)
    ensures forall item :: item in Drop(items, keys) <==> item in items && item.key !in keys
  {
    if items != [] {
      DropMembers(items[1..], keys);
      assert items == [items[0]] + items[1..];
    }
  }

  lemma {:induction false} DropNothing(items: seq<Item>, keys: set<string>)
    requires Keys(items) !! keys
    ensures Drop(items, keys) == items
  {
    if items != [] {
      assert items[0].key in Keys(items);
      assert Keys(items[1..]) <= Keys(items);
      DropNothing(items[1..], keys);
    }
  }

  /** Dropping keys keeps the rest without duplicates, and takes away their bytes. */
  lemma {:induction false} DropFacts(items: seq<Item>, keys: set<string>)
    requires Distinct(items)
    ensures Distinct(Drop(items, keys))
    ensures Keys(Drop(items, keys)) == Keys(items) - keys
    ensures Bytes(Drop(items, keys)) <= Bytes(items)
  {
    if items != [] {
      DropFacts(items[1..], keys);
      assert items == [items[0]] + items[1..];
      assert Keys(items) == {items[0].key} + Keys(items[1..]);
      assert items[0].key !in Keys(items[1..]);
      var rest := Drop(items[1..], keys);
      if items[0].key !in keys {
        assert Keys([items[0]] + rest) == {items[0].key} + Keys(rest);
      }
    }
  }

  /** Dropping one present key takes away one item and its bytes. */
  lemma {:induction false} DropOne(items: seq<Item>, key: string)
    requires Distinct(items) && key in Keys(items)
    ensures |Drop(items, {key})| == |items| - 1
    ensures Bytes(Drop(items, {key})) == Bytes(items) - Find(items, key).value.size
  {
    assert items == [items[0]] + items[1..];
    assert Keys(items) == {items[0].key} + Keys(items[1..]);
    if items[0].key == key {
      DropNothing(items[1..], {key});
    } else {
      DropOne(items[1..], key);
    }
  }

  lemma ConsAppend(item: Item, x: seq<Item>, y: seq<Item>)
    ensures [item] + (x + y) == ([item] + x) + y
  {
  }

  lemma {:induction false} DropAppend(a: seq<Item>, b: seq<Item>, keys: set<string>)
    ensures Drop(a + b, keys) == Drop(a, keys) + Drop(b, keys)
  {
    if a == [] {
      assert a + b == b;
    } else {
      DropAppend(a[1..], b, keys);
      assert (a + b)[0] == a[0] && (a + b)[1..] == a[1..] + b;
      var x, y := Drop(a[1..], keys), Drop(b, keys);
      if a[0].key !in keys {
        ConsAppend(a[0], x, y);
      }
    }
  }

  /** Dropping the key of one item cuts that item out. */
  lemma {:induction false} DropAt(items: seq<Item>, i: nat)
    requires Distinct(items) && i < |items|
    ensures Drop(items, {items[i].key}) == items[..i] + items[i + 1..]
  {
    var keys, tail := {items[i].key}, items[i..];
    assert items == items[..i] + tail;
    DropAppend(items[..i], tail, keys);
    DropNothing(items[..i], keys);
    assert tail[1..] == items[i + 1..];
    DropNothing(tail[1..], keys);
  }

  lemma {:induction false} DropTwice(items: seq<Item>, k1: set<string>, k2: set<string>)
    ensures Drop(Drop(items, k1), k2) == Drop(items, k1 + k2)
  {
    if items != [] {
      DropTwice(items[1..], k1, k2);
    }
  }

  lemma {:induction false} FindDrop(items: seq<Item>, keys: set<string>, key: string)
    ensures Find(Drop(items, keys), key) == if key in keys then None else Find(items, key)
  {
    if items != [] {
      FindDrop(items[1..], keys, key);
    }
  }

  lemma {:induction false} BytesAppend(a: seq<Item>, b: seq<Item>)
    ensures Bytes(a + b) == Bytes(a) + Bytes(b)
  {
    if a == [] {
      assert a + b == b;
    } else {
      BytesAppend(a[1..], b);
      assert (a + b)[1..] == a[1..] + b;
    }
  }

  /** Putting an item with a new key in front. */
  lemma FrontFacts(item: Item, items: seq<Item>)
    requires Distinct(items) && item.key !in Keys(items)
    ensures Distinct([item] + items)
    ensures Keys([item] + items) == {item.key} + Keys(items)
    ensures Bytes([item] + items) == item.entry.size + Bytes(items)
  {
    assert ([item] + items)[1..] == items;
    assert forall i | 0 <= i < |items| :: items[i].key in Keys(items);
  }

  /** A list without duplicate keys has as many keys as items. */
  lemma {:induction false} KeyCount(items: seq<Item>)
    requires Distinct(items)
    ensures |Keys(items)| == |items|
  {
    if items != [] {
      KeyCount(items[1..]);
      assert items == [items[0]] + items[1..];
      assert Keys(items) == {items[0].key} + Keys(items[1..]);
      assert items[0].key !in Keys(items[1..]);
    }
  }

  lemma DistinctPrefix(items: seq<Item>, prefix: seq<Item>)
    requires Distinct(items) && prefix <= items
    ensures Distinct(prefix) && Keys(prefix) <= Keys(items)
    ensures Bytes(prefix) <= Bytes(items)
  {
    assert items == prefix + items[|prefix|..];
    BytesAppend(prefix, items[|prefix|..]);
    assert forall item <- prefix :: item in items;
  }

  lemma {:induction false} FindPrefix(items: seq<Item>, prefix: seq<Item>, key: string)
    requires prefix <= items && key in Keys(prefix)
    ensures Find(prefix, key) == Find(items, key)
  {
    if prefix[0].key != key {
      assert key in Keys(prefix[1..]);
      FindPrefix(items[1..], prefix[1..], key);
    }
  }

  /** The later cache holds a part of the earlier one, entry for entry. */
  ghost predicate Shrinks(before: Cache, after: Cache) {
    && Keys(after.items) <= Keys(before.items)
    && forall key <- Keys(after.items) :: Find(after.items, key) == Find(before.items, key)
  }

  lemma RemoveShrinks(c: Cache, keys: set<string>)
    requires Distinct(c.items)
    ensures Shrinks(c, Remove(c, keys))
    ensures Keys(Remove(c, keys).items) == Keys(c.items) - keys
  {
    DropFacts(c.items, keys);
    forall key <- Keys(Remove(c, keys).items) ensures Find(Remove(c, keys).items, key) == Find(c.items, key) {
      FindDrop(c.items, keys, key);
    }
  }

  /** A lookup keeps every other entry, and keeps its own exactly when it is a hit. */
  lemma GetShrinks(c: Cache, key: string, now: int)
    requires Distinct(c.items)
    ensures var (after, found) := Get(c, key, now);
      && Shrinks(c, after)
      && Keys(after.items) == (if found.Some? then Keys(c.items) else Keys(c.items) - {key})
      && (found.Some? ==> found == Find(c.items, key) && !IsExpired(found.value, now))
  {
    RemoveShrinks(c, {key});
    DropFacts(c.items, {key});
    var (after, found) := Get(c, key, now);
    if found.Some? {
      FrontFacts(Item(key, found.value), Drop(c.items, {key}));
      assert ([Item(key, found.value)] + Drop(c.items, {key}))[1..] == Drop(c.items, {key});
      forall k <- Keys(after.items) ensures Find(after.items, k) == Find(c.items, k) {
        FindDrop(c.items, {key}, k);
      }
    }
  }

  /** A store puts its entry under the key and keeps a part of the rest. */
  lemma SetFinds(c: Cache, key: string, entry: Entry)
    requires Valid(c)
    ensures Find(Set(c, key, entry).items, key) == Some(entry)
    ensures forall k <- Keys(Set(c, key, entry).items) | k != key ::
      k in Keys(c.items) && Find(Set(c, key, entry).items, k) == Find(c.items, k)
  {
    var rest, kept := Drop(c.items, {key}), Kept(c, key, entry);
    var after := Set(c, key, entry).items;
    DropFacts(c.items, {key});
    DistinctPrefix(rest, kept);
    FrontFacts(Item(key, entry), kept);
    assert after[1..] == kept;
    forall k <- Keys(after) | k != key ensures k in Keys(c.items) && Find(after, k) == Find(c.items, k) {
      FindPrefix(rest, kept, k);
      FindDrop(c.items, {key}, k);
    }
  }

  // ----- eviction

  /** A list that leaves room for one more entry of `size` bytes, or is empty. */
  predicate Fits(items: seq<Item>, maxEntries: int, maxBytes: int, size: nat) {
    |items| < maxEntries && (items == [] || Bytes(items) + size <= maxBytes)
  }

  /**
   * Eviction is minimal and in order of recency: what stays is the longest prefix of the recency
   * order that fits both limits.
   */
  lemma {:induction false} EvictLongestPrefix(items: seq<Item>, maxEntries: int, maxBytes: int, size: nat)
    requires maxEntries >= 1
    ensures var kept := Evict(items, maxEntries, maxBytes, size);
      && kept <= items && Fits(kept, maxEntries, maxBytes, size)
      && forall n | |kept| < n <= |items| :: !Fits(items[..n], maxEntries, maxBytes, size)
  {
    if MustEvict(items, maxEntries, maxBytes, size) {
      var m := |items| - 1;
      EvictLongestPrefix(items[..m], maxEntries, maxBytes, size);
      var kept := Evict(items, maxEntries, maxBytes, size);
      forall n | |kept| < n <= |items| ensures !Fits(items[..n], maxEntries, maxBytes, size) {
        if n == |items| {
          assert items[..n] == items;
        } else {
          assert items[..m][..n] == items[..n];
        }
      }
    }
  }

  /**
   * A store puts its entry in front and keeps of the others, in their order, as many of the most recent
   * ones as fit beside it; what is lost is counted as evicted, a replaced entry is not.
   */
  lemma {:induction false} SetKeepsMost(c: Cache, key: string, entry: Entry)
    requires c.maxEntries >= 1 && Distinct(c.items)
    ensures var (after, others) := (Set(c, key, entry), Drop(c.items, {key}));
      && after.items != [] && after.items[0] == Item(key, entry)
      && after.items[1..] <= others && Fits(after.items[1..], c.maxEntries, c.maxBytes, entry.size)
      && (forall n | |after.items| <= n <= |others| :: !Fits(others[..n], c.maxEntries, c.maxBytes, entry.size))
      && after.evictions == c.evictions + |Keys(c.items) - Keys(after.items)|
      && after.stores == c.stores + 1
      && (after.hits, after.misses, after.bypasses) == (c.hits, c.misses, c.bypasses)
  {
    var others, kept := Drop(c.items, {key}), Kept(c, key, entry);
    EvictLongestPrefix(others, c.maxEntries, c.maxBytes, entry.size);
    DropFacts(c.items, {key});
    DistinctPrefix(others, kept);
    FrontFacts(Item(key, entry), kept);
    LostKeys(c.items, others, kept, key);
    assert ([Item(key, entry)] + kept)[1..] == kept;
  }

  lemma LostKeys(items: seq<Item>, others: seq<Item>, kept: seq<Item>, key: string)
    requires Distinct(others) && Distinct(kept)
    requires Keys(others) == Keys(items) - {key} && Keys(kept) <= Keys(others)
    ensures |Keys(items) - ({key} + Keys(kept))| == |others| - |kept|
  {
    KeyCount(others);
    KeyCount(kept);
    var lost := Keys(items) - ({key} + Keys(kept));
    assert Keys(others) == Keys(kept) + lost && Keys(kept) !! lost;
  }

  /**
   * The eviction loop can stop exactly when `maxEntries` is at least one: with a smaller limit the
   * guard holds of every list, the empty one included.
   */
  lemma EvictionStopsIff(maxEntries: int, maxBytes: int, size: nat)
    ensures (exists items :: !MustEvict(items, maxEntries, maxBytes, size)) <==> maxEntries >= 1
  {
    if maxEntries >= 1 {
      assert !MustEvict([], maxEntries, maxBytes, size);
    }
  }

  // ----- the invariant of every call

  ghost predicate Valid(c: Cache) {
    && c.maxEntries >= 1 && c.maxBytes >= 0
    && Distinct(c.items)
    && |c.items| <= c.maxEntries
    && (Bytes(c.items) <= c.maxBytes || |c.items| == 1)
  }

  lemma RemoveValid(c: Cache, keys: set<string>)
    requires Valid(c)
    ensures Valid(Remove(c, keys))
  {
    DropFacts(c.items, keys);
    if |Drop(c.items, keys)| == |c.items| == 1 {
      assert c.items[0] in c.items;
      assert Drop(c.items, keys)[0] in c.items;
    }
  }

  lemma GetValid(c: Cache, key: string, now: int)
    requires Valid(c)
    ensures Valid(Get(c, key, now).0)
    ensures Bytes(Get(c, key, now).0.items) <= Bytes(c.items)
  {
    DropFacts(c.items, {key});
    RemoveValid(c, {key});
    if key in Keys(c.items) {
      DropOne(c.items, key);
      FrontFacts(Item(key, Find(c.items, key).value), Drop(c.items, {key}));
    }
  }

  lemma SetValid(c: Cache, key: string, entry: Entry)
    requires Valid(c)
    ensures Valid(Set(c, key, entry))
    ensures Keys(Set(c, key, entry).items) <= Keys(c.items) + {key}
    ensures key in Keys(Set(c, key, entry).items)
  {
    var rest, kept := Drop(c.items, {key}), Kept(c, key, entry);
    DropFacts(c.items, {key});
    EvictLongestPrefix(rest, c.maxEntries, c.maxBytes, entry.size);
    DistinctPrefix(rest, kept);
    FrontFacts(Item(key, entry), kept);
  }

  /** Every call keeps the representation within its limits; one entry may exceed `maxBytes`, alone. */
  lemma ApplyValid(c: Cache, call: Call)
    requires Valid(c)
    ensures Valid(Apply(c, call))
  {
    match call {
      case CallGet(key, now) => GetValid(c, key, now);
      case CallSet(key, entry) => SetValid(c, key, entry);
      case CallDelete(key) => RemoveValid(c, {key});
      case CallDeleteByPrefix(prefix) => RemoveValid(c, KeysWithPrefix(c, prefix));
      case CallDeleteByPath(path) => RemoveValid(c, KeysWithPath(c, path));
      case CallPurge =>
      case CallBypass =>
    }
  }

  function Run(c: Cache, calls: seq<Call>): (r: Cache)
    requires c.maxEntries >= 1
    ensures r.maxEntries == c.maxEntries && r.maxBytes == c.maxBytes
    decreases |calls|
  {
    if calls == [] then c else Run(Apply(c, calls[0]), calls[1..])
  }

  /** The invariant holds after every sequence of calls on a new cache. */
  lemma {:induction false} RunValid(c: Cache, calls: seq<Call>)
    requires Valid(c)
    ensures Valid(Run(c, calls))
    decreases |calls|
  {
    if calls != [] {
      ApplyValid(c, calls[0]);
      RunValid(Apply(c, calls[0]), calls[1..]);
    }
  }
}
