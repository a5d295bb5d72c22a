/**
 * Growing the cache never turns a hit into a miss: the inclusion theorem for two runs of the same
 * calls on caches with different entry limits.
 */
module LruInclusion {
  import opened Strings
  import opened Lru

  /** `a` is a subsequence of `b`. */
  ghost predicate Sub(a: seq<Item>, b: seq<Item>) {
    if a == [] then true
    else if b == [] then false
    else (a[0] == b[0] && Sub(a[1..], b[1..])) || Sub(a, b[1..])
  }

  lemma {:induction false} SubTail(a: seq<Item>, b: seq<Item>)
    requires Sub(a, b) && a != []
    ensures Sub(a[1..], b)
    decreases |b|
  {
    if a[0] == b[0] && Sub(a[1..], b[1..]) {
      SubSkip(a[1..], b);
    } else {
      SubTail(a, b[1..]);
      SubSkip(a[1..], b);
    }
  }

  lemma SubSkip(a: seq<Item>, b: seq<Item>)
    requires b != [] && Sub(a, b[1..])
    ensures Sub(a, b)
  {
  }

  lemma {:induction false} SubFacts(a: seq<Item>, b: seq<Item>)
    requires Sub(a, b)
    ensures |a| <= |b| && Bytes(a) <= Bytes(b) && Keys(a) <= Keys(b)
    ensures forall item <- a :: item in b
    decreases |b|
  {
    if a != [] {
      assert a == [a[0]] + a[1..] && b == [b[0]] + b[1..];
      if a[0] == b[0] && Sub(a[1..], b[1..]) {
        SubFacts(a[1..], b[1..]);
      } else {
        SubFacts(a, b[1..]);
      }
      assert forall item <- a :: item in b;
    }
  }

  lemma {:induction false} SubDrop(a: seq<Item>, b: seq<Item>, keys: set<string>)
    requires Sub(a, b)
    ensures Sub(Drop(a, keys), Drop(b, keys))
    decreases |b|
  {
    if a != [] {
      if a[0] == b[0] && Sub(a[1..], b[1..]) {
        SubDrop(a[1..], b[1..], keys);
        var da, db := Drop(a[1..], keys), Drop(b[1..], keys);
        assert ([a[0]] + da)[1..] == da && ([b[0]] + db)[1..] == db;
      } else {
        SubDrop(a, b[1..], keys);
        var db := Drop(b[1..], keys);
        assert ([b[0]] + db)[1..] == db;
      }
    }
  }

  lemma SubCons(x: Item, a: seq<Item>, b: seq<Item>)
    requires Sub(a, b)
    ensures Sub([x] + a, [x] + b) && Sub(a, [x] + b)
  {
    assert ([x] + a)[1..] == a && ([x] + b)[1..] == b;
  }

  /** Cutting at least as many items off the end of the subsequence keeps it one. */
  lemma {:induction false} SubTake(a: seq<Item>, b: seq<Item>, i: nat, j: nat)
    requires Sub(a, b) && i <= |a| && j <= |b| && |a| - i >= |b| - j
    ensures Sub(a[..i], b[..j])
    decreases |b|
  {
    SubFacts(a, b);
    if i > 0 {
      assert j > 0;
      assert b[..j][1..] == b[1..][..j - 1];
      if a[0] == b[0] && Sub(a[1..], b[1..]) {
        SubTake(a[1..], b[1..], i - 1, j - 1);
        assert a[..i][1..] == a[1..][..i - 1];
      } else {
        SubTake(a, b[1..], i, j - 1);
      }
    }
  }

  /** Items found in a subsequence of a duplicate-free list are the ones found in the list. */
  lemma {:induction false} SubFind(a: seq<Item>, b: seq<Item>, key: string)
    requires Sub(a, b) && Distinct(b)
    ensures Find(a, key).Some? ==> Find(b, key) == Find(a, key)
  {
    SubFacts(a, b);
    if Find(a, key).Some? {
      UniqueItem(b, Item(key, Find(a, key).value), Item(key, Find(b, key).value));
    }
  }

  lemma UniqueItem(items: seq<Item>, x: Item, y: Item)
    requires Distinct(items) && x in items && y in items && x.key == y.key
    ensures x == y
  {
  }

  // ----- the relation between the two caches

  /** The byte limit does not bind on this call. */
  predicate Slack(c: Cache, call: Call) {
    call.CallSet? ==> Bytes(Drop(c.items, {call.key})) + call.entry.size <= c.maxBytes
  }

  ghost predicate Included(small: Cache, large: Cache) {
    && Valid(small) && Valid(large)
    && small.maxEntries <= large.maxEntries && small.maxBytes == large.maxBytes
    && Sub(small.items, large.items)
    && |large.items| - |small.items| <= large.maxEntries - small.maxEntries
  }

  lemma {:induction false} DropGap(a: seq<Item>, b: seq<Item>, keys: set<string>)
    requires Sub(a, b)
    ensures |Drop(b, keys)| - |Drop(a, keys)| <= |b| - |a|
    decreases |b|
  {
    if a != [] {
      if a[0] == b[0] && Sub(a[1..], b[1..]) {
        DropGap(a[1..], b[1..], keys);
      } else {
        DropGap(a, b[1..], keys);
      }
    }
  }

  lemma RemoveIncluded(small: Cache, large: Cache, keys: set<string>)
    requires Included(small, large)
    ensures Included(Remove(small, keys), Remove(large, keys))
  {
    RemoveValid(small, keys);
    RemoveValid(large, keys);
    SubDrop(small.items, large.items, keys);
    DropGap(small.items, large.items, keys);
  }

  /** A lookup keeps the subsequence, and its hit in the small cache is its answer in the large one. */
  lemma GetSub(small: Cache, large: Cache, key: string, now: int)
    requires Valid(small) && Valid(large) && Sub(small.items, large.items)
    ensures Sub(Get(small, key, now).0.items, Get(large, key, now).0.items)
    ensures Get(small, key, now).1.Some? ==> Get(large, key, now).1 == Get(small, key, now).1
  {
    SubFind(small.items, large.items, key);
    SubFacts(small.items, large.items);
    SubDrop(small.items, large.items, {key});
    if key in Keys(small.items) {
      SubCons(Item(key, Find(large.items, key).value), Drop(small.items, {key}), Drop(large.items, {key}));
    } else if key in Keys(large.items) {
      DropNothing(small.items, {key});
      SubCons(Item(key, Find(large.items, key).value), small.items, Drop(large.items, {key}));
    }
  }

  lemma GetIncluded(small: Cache, large: Cache, key: string, now: int)
    requires Included(small, large)
    ensures Included(Get(small, key, now).0, Get(large, key, now).0)
    ensures Get(small, key, now).1.Some? ==> Get(large, key, now).1 == Get(small, key, now).1
  {
    GetValid(small, key, now);
    GetValid(large, key, now);
    GetSub(small, large, key, now);
    SubFind(small.items, large.items, key);
    SubFacts(small.items, large.items);
    DropGap(small.items, large.items, {key});
    if key in Keys(small.items) {
      DropOne(small.items, key);
      DropOne(large.items, key);
    } else if key in Keys(large.items) {
      DropNothing(small.items, {key});
      DropOne(large.items, key);
    }
  }

  /** When bytes do not bind, eviction cuts the list to `maxEntries - 1` items. */
  lemma {:induction false} EvictCounts(items: seq<Item>, maxEntries: int, maxBytes: int, size: nat)
    requires maxEntries >= 1 && Bytes(items) + size <= maxBytes
    ensures Evict(items, maxEntries, maxBytes, size)
      == items[..if |items| < maxEntries then |items| else maxEntries - 1]
    decreases |items|
  {
    if |items| >= maxEntries {
      var m := |items| - 1;
      assert items == items[..m] + items[m..];
      BytesAppend(items[..m], items[m..]);
      EvictCounts(items[..m], maxEntries, maxBytes, size);
    }
  }

  lemma SetIncluded(small: Cache, large: Cache, key: string, entry: Entry)
    requires Included(small, large) && Slack(large, CallSet(key, entry))
    ensures Included(Set(small, key, entry), Set(large, key, entry))
  {
    SetValid(small, key, entry);
    SetValid(large, key, entry);
    RemoveIncluded(small, large, {key});
    var a, b := Drop(small.items, {key}), Drop(large.items, {key});
    SubFacts(a, b);
    EvictCounts(a, small.maxEntries, small.maxBytes, entry.size);
    EvictCounts(b, large.maxEntries, large.maxBytes, entry.size);
    SubTake(a, b, |Kept(small, key, entry)|, |Kept(large, key, entry)|);
    SubCons(Item(key, entry), Kept(small, key, entry), Kept(large, key, entry));
  }

  /** Selecting keys by a property of the key selects the same items from both caches. */
  lemma SelectIncluded(small: Cache, large: Cache, smallKeys: set<string>, largeKeys: set<string>)
    requires Included(small, large)
    requires smallKeys == Keys(small.items) * largeKeys
    ensures Included(Remove(small, smallKeys), Remove(large, largeKeys))
  {
    RemoveIncluded(small, large, largeKeys);
    DropSame(small.items, smallKeys, largeKeys);
  }

  lemma {:induction false} DropSame(items: seq<Item>, k1: set<string>, k2: set<string>)
    requires forall item <- items :: item.key in k1 <==> item.key in k2
    ensures Drop(items, k1) == Drop(items, k2)
  {
    if items != [] {
      DropSame(items[1..], k1, k2);
    }
  }

  lemma ApplyIncluded(small: Cache, large: Cache, call: Call)
    requires Included(small, large) && Slack(large, call)
    ensures Included(Apply(small, call), Apply(large, call))
  {
    SubFacts(small.items, large.items);
    match call {
      case CallGet(key, now) => GetIncluded(small, large, key, now);
      case CallSet(key, entry) => SetIncluded(small, large, key, entry);
      case CallDelete(key) => RemoveIncluded(small, large, {key});
      case CallDeleteByPrefix(prefix) =>
        SelectIncluded(small, large, KeysWithPrefix(small, prefix), KeysWithPrefix(large, prefix));
      case CallDeleteByPath(path) =>
        SelectIncluded(small, large, KeysWithPath(small, path), KeysWithPath(large, path));
      case CallPurge =>
      case CallBypass =>
    }
  }

  // ----- whole runs

  ghost predicate SlackRun(c: Cache, calls: seq<Call>)
    requires c.maxEntries >= 1
    decreases |calls|
  {
    calls == [] || (Slack(c, calls[0]) && SlackRun(Apply(c, calls[0]), calls[1..]))
  }

  /** The answers to the `Get` calls of a run; other calls answer nothing. */
  function Answers(c: Cache, calls: seq<Call>): (answers: seq<Option<Entry>>)
    requires c.maxEntries >= 1
    ensures |answers| == |calls|
    decreases |calls|
  {
    if calls == [] then []
    else
      var answer := if calls[0].CallGet? then Get(c, calls[0].key, calls[0].now).1 else None;
      [answer] + Answers(Apply(c, calls[0]), calls[1..])
  }

  /**
   * Inclusion over whole runs: on the same calls at the same times, the smaller cache stays a
   * subsequence of the larger, with a length gap of at most the difference of the limits, and every
   * hit of the smaller run is the same hit in the larger.
   */
  lemma {:induction false} InclusionOverRuns(small: Cache, large: Cache, calls: seq<Call>)
    requires Included(small, large) && SlackRun(large, calls)
    ensures Included(Run(small, calls), Run(large, calls))
    ensures forall i | 0 <= i < |calls| && Answers(small, calls)[i].Some? ::
      Answers(large, calls)[i] == Answers(small, calls)[i]
    decreases |calls|
  {
    if calls != [] {
      ApplyIncluded(small, large, calls[0]);
      if calls[0].CallGet? {
        GetIncluded(small, large, calls[0].key, calls[0].now);
      }
      InclusionOverRuns(Apply(small, calls[0]), Apply(large, calls[0]), calls[1..]);
    }
  }

  /** From empty caches with limits `n <= m`. */
  lemma GrowingKeepsHits(n: int, m: int, maxBytes: int, calls: seq<Call>)
    requires 1 <= n <= m && maxBytes >= 0
    requires SlackRun(Empty(m, maxBytes), calls)
    ensures Included(Run(Empty(n, maxBytes), calls), Run(Empty(m, maxBytes), calls))
    ensures forall i | 0 <= i < |calls| && Answers(Empty(n, maxBytes), calls)[i].Some? ::
      Answers(Empty(m, maxBytes), calls)[i] == Answers(Empty(n, maxBytes), calls)[i]
  {
    InclusionOverRuns(Empty(n, maxBytes), Empty(m, maxBytes), calls);
  }
}
