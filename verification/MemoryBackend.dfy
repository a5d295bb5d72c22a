/**
 * `cache.MemoryBackend`: a map into a recency list with a running byte total.
 *
 * Every method is proved to do to the object what the specification in module `Lru` does to the
 * value the object stands for. The clock is an argument of `Get`.
 */
module MemoryBackend {
  import opened Strings
  import opened CacheKey
  import L = Lru

  /** A list element holding an `lruItem`; neither changes once the element exists. */
  class Element {
    const key: string
    const entry: L.Entry

    constructor (key: string, entry: L.Entry)
      ensures this.key == key && this.entry == entry
    {
      this.key := key;
      this.entry := entry;
    }
  }

  // ----- container/list, by its documented behaviour

  /** Where an element stands in a list; the length if it is not there. */
  function Position(list: seq<Element>, elem: Element): (i: nat)
    ensures i <= |list|
    ensures i < |list| ==> list[i] == elem
    ensures forall j | 0 <= j < i :: list[j] != elem
  {
    if list == [] || list[0] == elem then 0 else 1 + Position(list[1..], elem)
  }

  function ListRemove(list: seq<Element>, elem: Element): seq<Element> {
    var i := Position(list, elem);
    if i < |list| then list[..i] + list[i + 1..] else list
  }

  lemma SetMeans(before: L.Cache, after: L.Cache, key: string, entry: L.Entry)
    requires before.maxEntries >= 1
    requires after.maxEntries == before.maxEntries && after.maxBytes == before.maxBytes
    requires var rest := L.Drop(before.items, {key});
      var kept := L.Evict(rest, before.maxEntries, before.maxBytes, entry.size);
      && after.items == [L.Item(key, entry)] + kept
      && after.evictions == before.evictions + (|rest| - |kept|)
    requires after.hits == before.hits && after.misses == before.misses && after.bypasses == before.bypasses
    requires after.stores == before.stores + 1
    ensures after == L.Set(before, key, entry)
  {
  }

  lemma ExpireMeans(before: L.Cache, after: L.Cache, key: string)
    requires after.maxEntries == before.maxEntries && after.maxBytes == before.maxBytes
    requires after.items == L.Drop(before.items, {key})
    requires after.hits == before.hits && after.misses == before.misses + 1 && after.bypasses == before.bypasses
    requires after.stores == before.stores && after.evictions == before.evictions
    ensures after == before.(items := L.Drop(before.items, {key}), misses := before.misses + 1)
  {
  }

  lemma TouchMeans(before: L.Cache, after: L.Cache, items: seq<L.Item>)
    requires after.maxEntries == before.maxEntries && after.maxBytes == before.maxBytes && after.items == items
    requires after.hits == before.hits + 1 && after.misses == before.misses && after.bypasses == before.bypasses
    requires after.stores == before.stores && after.evictions == before.evictions
    ensures after == before.(items := items, hits := before.hits + 1)
  {
  }

  function MoveToFront(list: seq<Element>, elem: Element): seq<Element> {
    [elem] + ListRemove(list, elem)
  }

  // ----- the representation

  /** The items a recency list stands for. */
  ghost function View(list: seq<Element>): (items: seq<L.Item>)
    ensures |items| == |list|
    ensures forall i | 0 <= i < |list| :: items[i] == L.Item(list[i].key, list[i].entry)
  {
    seq(|list|, i requires 0 <= i < |list| => L.Item(list[i].key, list[i].entry))
  }

  /** The map leads to this very element. */
  ghost predicate Holds(items: map<string, Element>, elem: Element) {
    elem.key in items && items[elem.key] == elem
  }

  /** Map and list hold the same elements, each once, the map under the element's own key. */
  ghost predicate Rep(items: map<string, Element>, list: seq<Element>) {
    && (forall i | 0 <= i < |list| :: Holds(items, list[i]))
    && (forall k <- items :: items[k].key == k && Position(list, items[k]) < |list|)
    && (forall i, j | 0 <= i < j < |list| :: list[i] != list[j])
  }

  lemma RepView(items: map<string, Element>, list: seq<Element>)
    requires Rep(items, list)
    ensures L.Distinct(View(list))
    ensures L.Keys(View(list)) == items.Keys
  {
    assert forall i | 0 <= i < |list| :: Holds(items, list[i]);
    forall k <- items ensures k in L.Keys(View(list)) {
      assert View(list)[Position(list, items[k])] in View(list);
    }
    forall k <- L.Keys(View(list)) ensures k in items {
      var i :| 0 <= i < |list| && View(list)[i].key == k;
      assert Holds(items, list[i]);
    }
  }

  lemma RepFind(items: map<string, Element>, list: seq<Element>, key: string)
    requires Rep(items, list)
    ensures L.Find(View(list), key) == if key in items then Some(items[key].entry) else None
  {
    RepView(items, list);
    if key in items {
      var found := L.Find(View(list), key).value;
      var i :| 0 <= i < |list| && View(list)[i] == L.Item(key, found);
      assert Holds(items, list[i]);
    }
  }

  lemma RemoveHolds(items: map<string, Element>, list: seq<Element>, elem: Element)
    requires Rep(items, list) && Holds(items, elem)
    ensures var rest := ListRemove(list, elem);
      |rest| == |list| - 1 && forall i | 0 <= i < |rest| :: Holds(items - {elem.key}, rest[i])
  {
    var at, rest := Position(list, elem), ListRemove(list, elem);
    forall i | 0 <= i < |rest| ensures Holds(items - {elem.key}, rest[i]) {
      assert rest[i] == list[if i < at then i else i + 1];
      assert Holds(items, rest[i]) && rest[i] != elem;
    }
  }

  lemma {:induction false} RepRemove(items: map<string, Element>, list: seq<Element>, elem: Element)
    requires Rep(items, list) && Holds(items, elem)
    ensures Rep(items - {elem.key}, ListRemove(list, elem))
    ensures |ListRemove(list, elem)| == |list| - 1
  {
    var at, rest, left := Position(list, elem), ListRemove(list, elem), items - {elem.key};
    RemoveHolds(items, list, elem);
    forall k <- left ensures Position(rest, left[k]) < |rest| {
      var i := Position(list, left[k]);
      assert rest[if i < at then i else i - 1] == left[k];
    }
  }

  lemma ViewCut(list: seq<Element>, at: nat)
    requires at < |list|
    ensures View(list[..at] + list[at + 1..]) == View(list)[..at] + View(list)[at + 1..]
  {
    var rest := list[..at] + list[at + 1..];
    var cut := View(list)[..at] + View(list)[at + 1..];
    forall i | 0 <= i < |rest| ensures View(rest)[i] == cut[i] {
      var j := if i < at then i else i + 1;
      assert rest[i] == list[j] && cut[i] == View(list)[j];
    }
  }

  lemma ViewRemove(items: map<string, Element>, list: seq<Element>, elem: Element)
    requires Rep(items, list) && Holds(items, elem)
    ensures View(ListRemove(list, elem)) == L.Drop(View(list), {elem.key})
  {
    var at := Position(list, elem);
    ViewCut(list, at);
    RepView(items, list);
    L.DropAt(View(list), at);
  }

  /** Dropping the key of the last element cuts it off. */
  lemma LastDropped(items: map<string, Element>, list: seq<Element>)
    requires Rep(items, list) && list != []
    ensures var last := list[|list| - 1];
      Holds(items, last) && L.Drop(View(list), {last.key}) == View(list)[..|list| - 1]
  {
    var n := |list| - 1;
    assert Holds(items, list[n]);
    RepView(items, list);
    L.DropAt(View(list), n);
    assert View(list)[..n] + View(list)[n + 1..] == View(list)[..n];
  }

  /** Putting an element under a new key in front keeps the representation. */
  lemma {:induction false} RepPush(items: map<string, Element>, list: seq<Element>, elem: Element)
    requires Rep(items, list) && elem.key !in items
    ensures Rep(items[elem.key := elem], [elem] + list)
    ensures View([elem] + list) == [L.Item(elem.key, elem.entry)] + View(list)
  {
    var more, front := items[elem.key := elem], [elem] + list;
    forall i | 0 <= i < |front| ensures Holds(more, front[i]) {
      assert i > 0 ==> front[i] == list[i - 1] && Holds(items, list[i - 1]);
    }
    forall k <- more ensures Position(front, more[k]) < |front| {
      assert k != elem.key ==> front[Position(list, items[k]) + 1] == more[k];
    }
  }

  /** Moving an element to the front keeps the representation. */
  lemma RepFront(items: map<string, Element>, list: seq<Element>, elem: Element)
    requires Rep(items, list) && Holds(items, elem)
    ensures Rep(items, MoveToFront(list, elem))
    ensures View(MoveToFront(list, elem)) == [L.Item(elem.key, elem.entry)] + L.Drop(View(list), {elem.key})
  {
    RepRemove(items, list, elem);
    ViewRemove(items, list, elem);
    RepPush(items - {elem.key}, ListRemove(list, elem), elem);
    assert (items - {elem.key})[elem.key := elem] == items;
  }

  lemma FrontBytes(items: map<string, Element>, list: seq<Element>, elem: Element)
    requires Rep(items, list) && Holds(items, elem)
    ensures L.Bytes([L.Item(elem.key, elem.entry)] + L.Drop(View(list), {elem.key})) == L.Bytes(View(list))
  {
    RepView(items, list);
    RepFind(items, list, elem.key);
    L.DropFacts(View(list), {elem.key});
    L.DropOne(View(list), elem.key);
    L.FrontFacts(L.Item(elem.key, elem.entry), L.Drop(View(list), {elem.key}));
  }

  /** The keys of the first `n` elements. */
  function KeysOf(elems: seq<Element>, n: nat): set<string>
    requires n <= |elems|
  {
    if n == 0 then {} else KeysOf(elems, n - 1) + {elems[n - 1].key}
  }

  lemma {:induction false} KeysOfPrefix(elems: seq<Element>, more: seq<Element>, n: nat)
    requires n <= |elems|
    ensures KeysOf(elems + more, n) == KeysOf(elems, n)
  {
    if n > 0 {
      KeysOfPrefix(elems, more, n - 1);
    }
  }

  /** The selected keys outside `todo`. */
  ghost function Selected(items: map<string, Element>, todo: set<string>, test: string -> bool): set<string> {
    set key | key in items && key !in todo && test(key)
  }

  /** One round of the collecting loop. */
  lemma CollectNext(items: map<string, Element>, chosen: seq<Element>, todo: set<string>, k: string, test: string -> bool)
    requires k in todo && k in items && items[k].key == k
    requires KeysOf(chosen, |chosen|) == Selected(items, todo, test)
    ensures var more := chosen + if test(k) then [items[k]] else [];
      KeysOf(more, |more|) == Selected(items, todo - {k}, test)
  {
    if test(k) {
      KeysOfPrefix(chosen, [items[k]], |chosen|);
      assert Selected(items, todo - {k}, test) == Selected(items, todo, test) + {k};
    } else {
      assert Selected(items, todo - {k}, test) == Selected(items, todo, test);
      assert chosen + [] == chosen;
    }
  }

  /** The elements from the `i`-th on are in the map. */
  ghost predicate HoldsFrom(items: map<string, Element>, elems: seq<Element>, i: nat) {
    forall j | i <= j < |elems| :: Holds(items, elems[j])
  }

  ghost predicate OwnKeys(elems: seq<Element>) {
    forall i, j | 0 <= i < j < |elems| :: elems[i].key != elems[j].key
  }

  lemma HoldsNext(items: map<string, Element>, elems: seq<Element>, i: nat)
    requires i < |elems| && OwnKeys(elems) && HoldsFrom(items, elems, i)
    ensures Holds(items, elems[i])
    ensures HoldsFrom(items - {elems[i].key}, elems, i + 1)
  {
  }

  class MemoryBackend {
    const maxEntries: int
    const maxBytes: int
    var items: map<string, Element>
    var evictList: seq<Element>
    var sizeBytes: int
    var hits: nat
    var misses: nat
    var bypasses: nat
    var stores: nat
    var evictions: nat

    /** The cache value this object stands for. */
    ghost function Contents(): L.Cache
      reads this
    {
      L.Cache(maxEntries, maxBytes, View(evictList), hits, misses, bypasses, stores, evictions)
    }

    /** Map, list and byte total agree. */
    ghost predicate Linked()
      reads this
    {
      Rep(items, evictList) && sizeBytes == L.Bytes(View(evictList))
    }

    ghost predicate Valid()
      reads this
    {
      Linked() && L.Valid(Contents())
    }

    constructor (maxEntries: int, maxBytes: int)
      requires maxEntries >= 1 && maxBytes >= 0
      ensures Valid() && Contents() == L.Empty(maxEntries, maxBytes)
    {
      this.maxEntries, this.maxBytes := maxEntries, maxBytes;
      items, evictList, sizeBytes := map[], [], 0;
      hits, misses, bypasses, stores, evictions := 0, 0, 0, 0, 0;
    }

    /** `removeElement`; the byte total is exact, so the clamp at zero changes nothing. */
    method RemoveElement(elem: Element)
      requires Linked() && Holds(items, elem)
      modifies this`items, this`evictList, this`sizeBytes
      ensures Linked()
      ensures View(evictList) == L.Drop(old(View(evictList)), {elem.key})
      ensures |evictList| == old(|evictList|) - 1
      ensures items == old(items) - {elem.key}
    {
      RepView(items, evictList);
      RepFind(items, evictList, elem.key);
      RepRemove(items, evictList, elem);
      ViewRemove(items, evictList, elem);
      L.DropOne(View(evictList), elem.key);
      items := items - {elem.key};
      evictList := ListRemove(evictList, elem);
      var left := sizeBytes - elem.entry.size;
      sizeBytes := if left < 0 then 0 else left;
    }

    method EvictOldest()
      requires Linked() && evictList != []
      modifies this`items, this`evictList, this`sizeBytes, this`evictions
      ensures Linked()
      ensures View(evictList) == old(View(evictList))[..old(|evictList|) - 1]
      ensures |evictList| == old(|evictList|) - 1
      ensures items.Keys <= old(items.Keys)
      ensures evictions == old(evictions) + 1
    {
      var elem := evictList[|evictList| - 1];
      LastDropped(items, evictList);
      RemoveElement(elem);
      evictions := evictions + 1;
    }

    /** A lookup that finds an expired entry. */
    method Expire(elem: Element)
      requires Linked() && Holds(items, elem)
      modifies this
      ensures Linked()
      ensures Contents() == old(Contents()).(
        items := L.Drop(old(Contents()).items, {elem.key}), misses := old(Contents()).misses + 1)
    {
      ghost var before := Contents();
      RemoveElement(elem);
      misses := misses + 1;
      ExpireMeans(before, Contents(), elem.key);
    }

    /** A lookup that finds a live entry: it becomes the most recently used. */
    method Touch(elem: Element)
      requires Linked() && Holds(items, elem)
      modifies this
      ensures Linked()
      ensures Contents() == old(Contents()).(
        items := [L.Item(elem.key, elem.entry)] + L.Drop(old(Contents()).items, {elem.key}),
        hits := old(Contents()).hits + 1)
    {
      ghost var before := Contents();
      RepFront(items, evictList, elem);
      FrontBytes(items, evictList, elem);
      evictList := MoveToFront(evictList, elem);
      hits := hits + 1;
      TouchMeans(before, Contents(), [L.Item(elem.key, elem.entry)] + L.Drop(before.items, {elem.key}));
    }

    method Get(key: string, now: int) returns (found: Option<L.Entry>)
      requires Valid()
      modifies this
      ensures Valid()
      ensures (Contents(), found) == L.Get(old(Contents()), key, now)
    {
      ghost var before := Contents();
      L.GetValid(before, key, now);
      RepFind(items, evictList, key);
      if key !in items {
        misses := misses + 1;
        L.GetMisses(before, key, now);
        return None;
      }
      var elem := items[key];
      if L.IsExpired(elem.entry, now) {
        Expire(elem);
        L.GetExpires(before, key, now, elem.entry);
        return None;
      }
      Touch(elem);
      L.GetHits(before, key, now, elem.entry);
      return Some(elem.entry);
    }

    /** `Set`: replace, evict until the entry fits, then put it in front. */
    method Set(key: string, entry: L.Entry)
      requires Valid()
      modifies this
      ensures Valid()
      ensures Contents() == L.Set(old(Contents()), key, entry)
    {
      ghost var before := Contents();
      RemoveKey(key);
      EvictFor(key, entry.size);
      PushFront(key, entry);
      stores := stores + 1;
      SetMeans(before, Contents(), key, entry);
      L.SetValid(before, key, entry);
    }

    /** The inserting step of `Set`. */
    method PushFront(key: string, entry: L.Entry)
      requires Linked() && key !in items
      modifies this`items, this`evictList, this`sizeBytes
      ensures Linked()
      ensures View(evictList) == [L.Item(key, entry)] + old(View(evictList))
    {
      var elem := new Element(key, entry);
      RepPush(items, evictList, elem);
      assert ([L.Item(key, entry)] + View(evictList))[1..] == View(evictList);
      items := items[key := elem];
      evictList := [elem] + evictList;
      sizeBytes := sizeBytes + entry.size;
    }

    /** The replacing step of `Set`: an entry already under the key goes first. */
    method RemoveKey(key: string)
      requires Linked()
      modifies this`items, this`evictList, this`sizeBytes
      ensures Linked() && key !in items
      ensures View(evictList) == L.Drop(old(View(evictList)), {key})
    {
      RepView(items, evictList);
      if key in items {
        RemoveElement(items[key]);
      } else {
        L.DropNothing(View(evictList), {key});
      }
    }

    /** The eviction loop of `Set`. */
    method EvictFor(ghost key: string, size: nat)
      requires Linked() && maxEntries >= 1 && key !in items
      modifies this`items, this`evictList, this`sizeBytes, this`evictions
      ensures Linked() && key !in items
      ensures View(evictList) == L.Evict(old(View(evictList)), maxEntries, maxBytes, size)
      ensures evictions == old(evictions) + (old(|evictList|) - |evictList|)
    {
      while |evictList| >= maxEntries || (sizeBytes + size > maxBytes && |evictList| > 0)
        invariant Linked() && key !in items
        invariant L.Evict(View(evictList), maxEntries, maxBytes, size)
               == L.Evict(old(View(evictList)), maxEntries, maxBytes, size)
        invariant evictions == old(evictions) + (old(|evictList|) - |evictList|)
        decreases |evictList|
      {
        ghost var view := View(evictList);
        assert L.MustEvict(view, maxEntries, maxBytes, size);
        EvictOldest();
        assert View(evictList) == view[..|view| - 1];
      }
    }

    method Delete(key: string) returns (deleted: bool)
      requires Valid()
      modifies this
      ensures Valid()
      ensures Contents() == L.Remove(old(Contents()), {key})
      ensures deleted == (key in L.Keys(old(Contents()).items))
    {
      L.RemoveValid(Contents(), {key});
      RepView(items, evictList);
      if key !in items {
        L.DropNothing(View(evictList), {key});
        return false;
      }
      RemoveElement(items[key]);
      return true;
    }

    /** The collecting loop of the two scans, over the map in whatever order it is iterated. */
    method Collect(test: string -> bool) returns (chosen: seq<Element>)
      requires Linked()
      ensures HoldsFrom(items, chosen, 0) && OwnKeys(chosen)
      ensures KeysOf(chosen, |chosen|) == Selected(items, {}, test)
    {
      chosen := [];
      var todo := items.Keys;
      while todo != {}
        invariant todo <= items.Keys
        invariant forall i | 0 <= i < |chosen| :: Holds(items, chosen[i]) && chosen[i].key !in todo
        invariant OwnKeys(chosen)
        invariant KeysOf(chosen, |chosen|) == Selected(items, todo, test)
      {
        var k :| k in todo;
        assert items[k].key == k;
        CollectNext(items, chosen, todo, k, test);
        todo := todo - {k};
        if test(items[k].key) {
          chosen := chosen + [items[k]];
        }
      }
    }

    /** One round of the removing loop. */
    method RemoveNext(elem: Element, ghost before: seq<L.Item>, ghost gone: set<string>)
      requires Linked() && Holds(items, elem) && View(evictList) == L.Drop(before, gone)
      modifies this`items, this`evictList, this`sizeBytes
      ensures Linked() && View(evictList) == L.Drop(before, gone + {elem.key})
      ensures |evictList| == old(|evictList|) - 1
      ensures items == old(items) - {elem.key}
    {
      L.DropTwice(before, gone, {elem.key});
      RemoveElement(elem);
    }

    /** The removing loop of the two scans. */
    method RemoveAll(chosen: seq<Element>) returns (count: nat)
      requires Linked() && HoldsFrom(items, chosen, 0) && OwnKeys(chosen)
      modifies this`items, this`evictList, this`sizeBytes
      ensures Linked()
      ensures View(evictList) == L.Drop(old(View(evictList)), KeysOf(chosen, |chosen|))
      ensures count == old(|evictList|) - |evictList|
    {
      count := 0;
      ghost var before := View(evictList);
      L.DropNothing(before, {});
      for i := 0 to |chosen|
        invariant Linked() && HoldsFrom(items, chosen, i)
        invariant count == i && |evictList| == |before| - i
        invariant View(evictList) == L.Drop(before, KeysOf(chosen, i))
      {
        HoldsNext(items, chosen, i);
        RemoveNext(chosen[i], before, KeysOf(chosen, i));
        count := count + 1;
      }
    }

    /** Removes exactly the selected keys, keeps the order of the rest and counts the removed. */
    method DeleteByPrefix(prefix: string) returns (count: nat)
      requires Valid()
      modifies this
      ensures Valid()
      ensures Contents() == L.Remove(old(Contents()), L.KeysWithPrefix(old(Contents()), prefix))
      ensures count == |old(Contents()).items| - |Contents().items|
    {
      var test := (k: string) => MatchesPrefix(k, prefix);
      L.RemoveValid(Contents(), L.KeysWithPrefix(Contents(), prefix));
      var chosen := Collect(test);
      RepView(items, evictList);
      assert KeysOf(chosen, |chosen|) == L.KeysWithPrefix(Contents(), prefix);
      count := RemoveAll(chosen);
    }

    method DeleteByPath(path: string) returns (count: nat)
      requires Valid()
      modifies this
      ensures Valid()
      ensures Contents() == L.Remove(old(Contents()), L.KeysWithPath(old(Contents()), path))
      ensures count == |old(Contents()).items| - |Contents().items|
    {
      var test := (k: string) => MatchesPath(k, path);
      L.RemoveValid(Contents(), L.KeysWithPath(Contents(), path));
      var chosen := Collect(test);
      RepView(items, evictList);
      assert KeysOf(chosen, |chosen|) == L.KeysWithPath(Contents(), path);
      count := RemoveAll(chosen);
    }

    method Purge() returns (count: nat)
      requires Valid()
      modifies this
      ensures Valid()
      ensures Contents() == old(Contents()).(items := [])
      ensures count == |old(Contents()).items|
    {
      count := |evictList|;
      items := map[];
      evictList := [];
      sizeBytes := 0;
    }

    method IncrementBypasses()
      requires Valid()
      modifies this`bypasses
      ensures Valid()
      ensures Contents() == L.Bypass(old(Contents()))
    {
      bypasses := bypasses + 1;
    }

    /** `Len` and the `SizeBytes` of `Stats`. */
    method Size() returns (entries: nat, bytes: int)
      requires Valid()
      ensures entries == |Contents().items| == |items|
      ensures bytes == L.Bytes(Contents().items)
      ensures entries <= maxEntries && (bytes <= maxBytes || entries == 1)
    {
      RepView(items, evictList);
      L.KeyCount(Contents().items);
      assert items.Keys == L.Keys(Contents().items);
      entries, bytes := |evictList|, sizeBytes;
    }
  }
}
