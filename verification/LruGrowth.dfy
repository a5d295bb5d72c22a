/**
 * When growing the entry limit never turns a hit into a miss, in terms of the limits alone.
 */
module LruGrowth {
  import opened Strings
  import opened Lru
  import opened LruInclusion

  /** Every hit with the limit `n` is the same hit with the limit `m`. */
  ghost predicate KeepsHits(n: int, m: int, maxBytes: int, calls: seq<Call>)
    requires n >= 1 && m >= 1
  {
    var small, large := Answers(Empty(n, maxBytes), calls), Answers(Empty(m, maxBytes), calls);
    forall i | 0 <= i < |calls| && small[i].Some? :: large[i] == small[i]
  }

  ghost predicate AlwaysKeepsHits(n: int, m: int, maxBytes: int)
    requires n >= 1 && m >= 1
  {
    forall calls: seq<Call> :: KeepsHits(n, m, maxBytes, calls)
  }

  // ----- limits under which it does

  /** The three kinds of limits under which bytes cannot tell the two caches apart. */
  ghost predicate Tight(small: Cache, large: Cache) {
    && Valid(small) && Valid(large) && small.maxBytes == large.maxBytes
    && Sub(small.items, large.items)
    && (|| small.maxEntries == 1
        || (small.maxEntries == large.maxEntries && small.items == large.items)
        || (small.maxBytes == 0 && Included(small, large) && SameIfHeavy(small, large)))
  }

  predicate SameIfHeavy(small: Cache, large: Cache) {
    Bytes(large.items) > 0 ==> small.items == large.items
  }

  /** An entry limit of one leaves no room beside a new entry. */
  lemma SetOne(small: Cache, large: Cache, key: string, entry: Entry)
    requires Valid(small) && Valid(large) && small.maxEntries == 1
    ensures Sub(Set(small, key, entry).items, Set(large, key, entry).items)
  {
    EvictLongestPrefix(Drop(small.items, {key}), 1, small.maxBytes, entry.size);
    SubCons(Item(key, entry), [], Kept(large, key, entry));
  }

  /** Under a byte limit of zero nothing stays beside an entry with bytes, nor such an entry beside a new one. */
  lemma HeavyStandsAlone(c: Cache, key: string, entry: Entry)
    requires Valid(c) && c.maxBytes == 0
    requires Bytes(Drop(c.items, {key})) + entry.size > 0
    ensures Kept(c, key, entry) == []
  {
    var rest := Drop(c.items, {key});
    DropFacts(c.items, {key});
    EvictLongestPrefix(rest, c.maxEntries, c.maxBytes, entry.size);
    assert |rest| <= 1 || Bytes(rest) == 0;
  }

  lemma SetNoBytes(small: Cache, large: Cache, key: string, entry: Entry)
    requires Included(small, large) && small.maxBytes == 0 && SameIfHeavy(small, large)
    ensures Included(Set(small, key, entry), Set(large, key, entry))
    ensures SameIfHeavy(Set(small, key, entry), Set(large, key, entry))
  {
    var a, b := Set(small, key, entry), Set(large, key, entry);
    DropFacts(large.items, {key});
    if Bytes(Drop(large.items, {key})) + entry.size == 0 {
      SetIncluded(small, large, key, entry);
      DistinctPrefix(Drop(large.items, {key}), Kept(large, key, entry));
      assert b.items[1..] == Kept(large, key, entry);
    } else {
      HeavyStandsAlone(large, key, entry);
      HeavyStandsAlone(small, key, entry);
      SetValid(small, key, entry);
      SetValid(large, key, entry);
      assert a.items == b.items == [Item(key, entry)];
      SubCons(Item(key, entry), [], []);
    }
  }

  lemma GetTight(small: Cache, large: Cache, key: string, now: int)
    requires Tight(small, large)
    ensures Tight(Get(small, key, now).0, Get(large, key, now).0)
    ensures Get(small, key, now).1.Some? ==> Get(large, key, now).1 == Get(small, key, now).1
  {
    GetValid(small, key, now);
    GetValid(large, key, now);
    GetSub(small, large, key, now);
    if Included(small, large) {
      GetIncluded(small, large, key, now);
    }
  }

  lemma RemoveTight(small: Cache, large: Cache, smallKeys: set<string>, largeKeys: set<string>)
    requires Tight(small, large) && smallKeys == Keys(small.items) * largeKeys
    ensures Tight(Remove(small, smallKeys), Remove(large, largeKeys))
  {
    RemoveValid(small, smallKeys);
    RemoveValid(large, largeKeys);
    SubDrop(small.items, large.items, largeKeys);
    DropSame(small.items, smallKeys, largeKeys);
    DropFacts(large.items, largeKeys);
    if Included(small, large) {
      SelectIncluded(small, large, smallKeys, largeKeys);
    }
  }

  lemma SetTight(small: Cache, large: Cache, key: string, entry: Entry)
    requires Tight(small, large)
    ensures Tight(Set(small, key, entry), Set(large, key, entry))
  {
    SetValid(small, key, entry);
    SetValid(large, key, entry);
    if small.maxEntries == 1 {
      SetOne(small, large, key, entry);
    } else if small.maxEntries == large.maxEntries && small.items == large.items {
      SubSelf(Set(small, key, entry).items);
    } else {
      SetNoBytes(small, large, key, entry);
    }
  }

  lemma {:induction false} SubSelf(items: seq<Item>)
    ensures Sub(items, items)
  {
    if items != [] {
      SubSelf(items[1..]);
    }
  }

  lemma ApplyTight(small: Cache, large: Cache, call: Call)
    requires Tight(small, large)
    ensures Tight(Apply(small, call), Apply(large, call))
  {
    SubFacts(small.items, large.items);
    match call {
      case CallGet(key, now) => GetTight(small, large, key, now);
      case CallSet(key, entry) => SetTight(small, large, key, entry);
      case CallDelete(key) =>
        RemoveTight(small, large, Keys(small.items) * {key}, {key});
        DropSame(small.items, Keys(small.items) * {key}, {key});
      case CallDeleteByPrefix(prefix) =>
        RemoveTight(small, large, KeysWithPrefix(small, prefix), KeysWithPrefix(large, prefix));
      case CallDeleteByPath(path) =>
        RemoveTight(small, large, KeysWithPath(small, path), KeysWithPath(large, path));
      case CallPurge =>
      case CallBypass =>
    }
  }

  lemma {:induction false} TightKeepsHits(small: Cache, large: Cache, calls: seq<Call>)
    requires Tight(small, large)
    ensures forall i | 0 <= i < |calls| && Answers(small, calls)[i].Some? ::
      Answers(large, calls)[i] == Answers(small, calls)[i]
    decreases |calls|
  {
    if calls != [] {
      ApplyTight(small, large, calls[0]);
      if calls[0].CallGet? {
        GetTight(small, large, calls[0].key, calls[0].now);
      }
      TightKeepsHits(Apply(small, calls[0]), Apply(large, calls[0]), calls[1..]);
    }
  }

  // ----- calls on which it does not

  function Sized(size: nat): Entry {
    Entry("", 200, map[], "", 0, 1, size)
  }

  const X := Item("x", Sized(1))

  function Name(i: nat): string {
    seq(i, _ => 'y')
  }

  /** Entries without bytes under the keys `Name(1)` to `Name(i)`, the last one in front. */
  function Ys(i: nat): (items: seq<Item>)
    ensures |items| == i && Bytes(items) == 0
    ensures forall item <- items :: 0 < |item.key| <= i && item.key[0] == 'y'
    ensures i > 0 ==> items[0] == Item(Name(i), Sized(0))
  {
    if i == 0 then []
    else
      var item, rest := Item(Name(i), Sized(0)), Ys(i - 1);
      assert ([item] + rest)[1..] == rest;
      [item] + rest
  }

  function StoreYs(i: nat): seq<Call> {
    if i == 0 then [] else StoreYs(i - 1) + [CallSet(Name(i), Sized(0))]
  }

  lemma {:induction false} RunOneMore(c: Cache, calls: seq<Call>, call: Call)
    requires c.maxEntries >= 1
    ensures Run(c, calls + [call]) == Apply(Run(c, calls), call)
    decreases |calls|
  {
    if calls == [] {
      assert [] + [call] == [call] && [call][1..] == [];
    } else {
      assert (calls + [call])[0] == calls[0] && (calls + [call])[1..] == calls[1..] + [call];
      RunOneMore(Apply(c, calls[0]), calls[1..], call);
    }
  }

  lemma {:induction false} LastAnswer(c: Cache, calls: seq<Call>, key: string, now: int)
    requires c.maxEntries >= 1
    ensures Answers(c, calls + [CallGet(key, now)])[|calls|] == Get(Run(c, calls), key, now).1
    decreases |calls|
  {
    var all := calls + [CallGet(key, now)];
    if calls != [] {
      assert all[1..] == calls[1..] + [CallGet(key, now)];
      LastAnswer(Apply(c, calls[0]), calls[1..], key, now);
    }
  }

  /** With room for it, a store under a new key puts its entry in front. */
  lemma SetNew(c: Cache, key: string, entry: Entry)
    requires Valid(c) && key !in Keys(c.items)
    requires Fits(c.items, c.maxEntries, c.maxBytes, entry.size)
    ensures Set(c, key, entry).items == [Item(key, entry)] + c.items
  {
    DropNothing(c.items, {key});
  }

  /** `x` behind the small entries, and in front of them. */
  lemma YsThenX(i: nat)
    ensures Bytes(Ys(i) + [X]) == 1
    ensures Find(Ys(i), "x").None? && Find(Ys(i) + [X], "x") == Some(X.entry)
    ensures Drop(Ys(i) + [X], {"x"}) == Ys(i)
    ensures "w" !in Keys(Ys(i)) && "w" !in Keys([X] + Ys(i))
  {
    BytesAppend(Ys(i), [X]);
    assert [X][1..] == [];
    assert "x"[0] == 'x' && "w"[0] == 'w';
    DropNothing(Ys(i), {"x"});
    DropAppend(Ys(i), [X], {"x"});
    FindLast(Ys(i), X);
  }

  lemma {:induction false} FindLast(items: seq<Item>, item: Item)
    requires item.key !in Keys(items)
    ensures Find(items + [item], item.key) == Some(item.entry)
  {
    if items == [] {
      assert [] + [item] == [item];
    } else {
      assert items[0].key in Keys(items);
      assert (items + [item])[0] == items[0] && (items + [item])[1..] == items[1..] + [item];
      FindLast(items[1..], item);
    }
  }

  /** The calls that fill the small cache: `x`, then `i` entries without bytes. */
  function Filling(i: nat): seq<Call> {
    [CallSet("x", X.entry)] + StoreYs(i)
  }

  lemma FillOneMore(c: Cache, i: nat)
    requires c.maxEntries >= 1 && i > 0
    ensures Run(c, Filling(i)) == Set(Run(c, Filling(i - 1)), Name(i), Sized(0))
  {
    var call := CallSet(Name(i), Sized(0));
    assert Filling(i) == Filling(i - 1) + [call];
    RunOneMore(c, Filling(i - 1), call);
  }

  lemma {:induction false} Filled(c: Cache, i: nat)
    requires Valid(c) && c.items == [] && c.maxEntries > i && c.maxBytes >= 1
    ensures Run(c, Filling(i)).items == Ys(i) + [X]
  {
    if i == 0 {
      assert Filling(0) == [CallSet("x", X.entry)] && Filling(0)[1..] == [];
      SetNew(c, "x", X.entry);
      assert Ys(0) + [X] == [X] == [X] + [];
    } else {
      Filled(c, i - 1);
      FillOneMore(c, i);
      RunValid(c, Filling(i - 1));
      StoreY(Run(c, Filling(i - 1)), i);
    }
  }

  lemma StoreY(c: Cache, i: nat)
    requires Valid(c) && c.maxEntries > i > 0 && c.maxBytes >= 1 && c.items == Ys(i - 1) + [X]
    ensures Set(c, Name(i), Sized(0)).items == Ys(i) + [X]
  {
    YsThenX(i - 1);
    NameIsNew(i);
    SetNew(c, Name(i), Sized(0));
    ConsAppend(Item(Name(i), Sized(0)), Ys(i - 1), [X]);
  }

  lemma NameIsNew(i: nat)
    requires i > 0
    ensures Name(i) !in Keys(Ys(i - 1) + [X]) && Name(i) != "w"
  {
    var items := Ys(i - 1) + [X];
    assert |Name(i)| == i && Name(i)[0] == 'y';
    forall item <- items ensures item.key != Name(i) {
      if item !in Ys(i - 1) {
        assert item == X && "x"[0] == 'x';
      }
    }
    assert "w"[0] == 'w';
  }

  /** A store under a new key in a full cache whose other items fit pushes out the last one. */
  lemma {:induction false} SetPushesLast(c: Cache, item: Item, front: seq<Item>, last: Item)
    requires Valid(c) && c.items == front + [last] && |c.items| == c.maxEntries
    requires item.key !in Keys(c.items) && Bytes(front) + item.entry.size <= c.maxBytes
    ensures Set(c, item.key, item.entry).items == [item] + front
  {
    var size := item.entry.size;
    DropNothing(c.items, {item.key});
    assert c.items[..|c.items| - 1] == front;
    assert Evict(c.items, c.maxEntries, c.maxBytes, size) == Evict(front, c.maxEntries, c.maxBytes, size) == front;
  }

  /** When the newest item has bytes and the new entry needs them all, everything goes. */
  lemma {:induction false} SetClears(c: Cache, item: Item)
    requires Valid(c) && c.items != [] && c.items[0].entry.size > 0
    requires item.key !in Keys(c.items) && item.entry.size >= c.maxBytes
    ensures Set(c, item.key, item.entry).items == [item]
  {
    DropNothing(c.items, {item.key});
    EvictLongestPrefix(c.items, c.maxEntries, c.maxBytes, item.entry.size);
    var kept := Kept(c, item.key, item.entry);
    assert forall n | 0 < n <= |c.items| :: Bytes(c.items[..n]) > 0;
    assert kept == c.items[..|kept|];
    assert [item] + [] == [item];
  }

  /** In the small cache the last of them pushes `x` out. */
  lemma FilledSmall(c: Cache, n: nat)
    requires Valid(c) && c.items == [] && c.maxEntries == n >= 1 && c.maxBytes >= 1
    ensures Run(c, Filling(n)).items == Ys(n)
  {
    Filled(c, n - 1);
    FillOneMore(c, n);
    RunValid(c, Filling(n - 1));
    NameIsNew(n);
    SetPushesLast(Run(c, Filling(n - 1)), Item(Name(n), Sized(0)), Ys(n - 1), X);
  }

  function Breaking(n: nat, maxBytes: nat): seq<Call> {
    Filling(n) + [CallGet("x", 0)] + [CallSet("w", Sized(maxBytes))]
  }

  lemma BreakingEnds(c: Cache, n: nat)
    requires c.maxEntries >= 1 && c.maxBytes >= 0
    ensures Run(c, Breaking(n, c.maxBytes)) == Set(Get(Run(c, Filling(n)), "x", 0).0, "w", Sized(c.maxBytes))
  {
    RunOneMore(c, Filling(n), CallGet("x", 0));
    RunOneMore(c, Filling(n) + [CallGet("x", 0)], CallSet("w", Sized(c.maxBytes)));
  }

  /** The small cache keeps its newest small entry. */
  lemma SmallHits(c: Cache, n: nat)
    requires Valid(c) && c.items == [] && c.maxEntries == n >= 2 && c.maxBytes >= 1
    ensures Get(Run(c, Breaking(n, c.maxBytes)), Name(n), 0).1.Some?
  {
    FilledSmall(c, n);
    BreakingEnds(c, n);
    RunValid(c, Filling(n));
    StoreBesideSmall(Run(c, Filling(n)), n);
  }

  lemma StoreBesideSmall(c: Cache, n: nat)
    requires Valid(c) && c.items == Ys(n) && c.maxEntries == n >= 2 && c.maxBytes >= 1
    ensures Get(Set(Get(c, "x", 0).0, "w", Sized(c.maxBytes)), Name(n), 0).1.Some?
  {
    YsThenX(n);
    NameIsNew(n);
    GetMisses(c, "x", 0);
    KeepsNewest(Get(c, "x", 0).0, Item("w", Sized(c.maxBytes)));
  }

  /** A store in a full cache of at least two keeps the newest item when the rest and it fit. */
  lemma KeepsNewest(c: Cache, item: Item)
    requires Valid(c) && |c.items| == c.maxEntries >= 2
    requires item.key !in Keys(c.items) && Bytes(c.items) + item.entry.size <= c.maxBytes
    ensures Find(Set(c, item.key, item.entry).items, c.items[0].key) == Some(c.items[0].entry)
  {
    var n := |c.items| - 1;
    var front, last := c.items[..n], c.items[n];
    assert c.items == front + [last];
    BytesAppend(front, [last]);
    SetPushesLast(c, item, front, last);
    assert c.items[0].key in Keys(c.items);
    SecondIsFound(item, front);
  }

  lemma SecondIsFound(first: Item, rest: seq<Item>)
    requires rest != [] && first.key != rest[0].key
    ensures Find([first] + rest, rest[0].key) == Some(rest[0].entry)
  {
    assert ([first] + rest)[1..] == rest;
  }

  /** The large cache still holds `x`, now its newest, and clears everything to make room. */
  lemma LargeMisses(c: Cache, n: nat)
    requires Valid(c) && c.items == [] && c.maxEntries > n >= 2 && c.maxBytes >= 1
    ensures Get(Run(c, Breaking(n, c.maxBytes)), Name(n), 0).1.None?
  {
    Filled(c, n);
    BreakingEnds(c, n);
    RunValid(c, Filling(n));
    StoreBesideX(Run(c, Filling(n)), n);
  }

  lemma StoreBesideX(c: Cache, n: nat)
    requires Valid(c) && c.items == Ys(n) + [X] && n >= 2
    ensures Get(Set(Get(c, "x", 0).0, "w", Sized(c.maxBytes)), Name(n), 0).1.None?
  {
    YsThenX(n);
    NameIsNew(n);
    GetHits(c, "x", 0, X.entry);
    GetValid(c, "x", 0);
    var w := Item("w", Sized(c.maxBytes));
    SetClears(Get(c, "x", 0).0, w);
    assert [w][1..] == [];
  }

  /**
   * The byte limit breaks inclusion: the larger cache still holds a big, recently used entry the
   * smaller one lost, and has to give up everything to store another one.
   */
  lemma BytesBreakInclusion(n: int, m: int, maxBytes: int) returns (calls: seq<Call>)
    requires 2 <= n < m && maxBytes >= 1
    ensures !KeepsHits(n, m, maxBytes, calls)
  {
    var small, large := Empty(n, maxBytes), Empty(m, maxBytes);
    SmallHits(small, n);
    LargeMisses(large, n);
    LastAnswer(small, Breaking(n, maxBytes), Name(n), 0);
    LastAnswer(large, Breaking(n, maxBytes), Name(n), 0);
    calls := Breaking(n, maxBytes) + [CallGet(Name(n), 0)];
  }

  /**
   * Growing the entry limit from `n` to `m` keeps every hit of every sequence of calls if and only
   * if it does not grow, starts at one, or the byte limit is zero.
   */
  lemma GrowingKeepsHitsIff(n: int, m: int, maxBytes: int)
    requires 1 <= n <= m && maxBytes >= 0
    ensures AlwaysKeepsHits(n, m, maxBytes) <==> n == m || n == 1 || maxBytes == 0
  {
    if n == m || n == 1 || maxBytes == 0 {
      forall calls: seq<Call> ensures KeepsHits(n, m, maxBytes, calls) {
        TightKeepsHits(Empty(n, maxBytes), Empty(m, maxBytes), calls);
      }
    } else {
      var calls := BytesBreakInclusion(n, m, maxBytes);
    }
  }
}
