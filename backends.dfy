/** shove/backends.py: `SimpleBase`, a dict store raising KeyError, and `LRUBase`, the same
    store with approximate least-recently-used eviction (which shove/cache/core.py exports
    unchanged as SimpleLRUCache). */
module Backends {
  import opened Wrappers
  import opened Dicts
  import opened Recency

  /** `SimpleBase`: a dict in `_store`; any failure to find a key surfaces as KeyError. */
  class SimpleBase<K(==), V> {
    var store: map<K, V>

    constructor ()
      ensures store == map[]
    {
      store := map[];
    }

    /** `__getitem__`. */
    method Get(key: K) returns (r: Result<V>)
      ensures r.Ok? <==> key in store
      ensures r.Ok? ==> r.value == store[key]
      ensures r.Err? ==> r.error == KeyError
    {
      if key in store {
        r := Ok(store[key]);
      } else {
        r := Err(KeyError);
      }
    }

    /** `__setitem__`. */
    method Set(key: K, value: V)
      modifies this
      ensures store == old(store)[key := value]
    {
      store := store[key := value];
    }

    /** `__delitem__`: remove only that key, or raise KeyError and change nothing. */
    method Delete(key: K) returns (o: Outcome)
      modifies this
      ensures key in old(store) ==> o == Pass && store == old(store) - {key}
      ensures key !in old(store) ==> o == Fail(KeyError) && store == old(store)
    {
      if key in store {
        store := store - {key};
        o := Pass;
      } else {
        o := Fail(KeyError);
      }
    }

    /** `__len__`. */
    method Len() returns (n: nat)
      ensures n == |store|
    {
      n := |store|;
    }

    /** `keys()`: a list of the stored keys, each once. */
    method Keys() returns (ks: seq<K>)
      ensures Enumerates(ks, store.Keys)
    {
      ks := EnumerateKeys(store);
    }
  }

  /** What `LRUBase.__setitem__` leaves: the value stored, the access recorded, then the
      eviction loop run on the result. */
  function Written<K(==), V>(store: map<K, V>, t: Tracker<K>, key: K, value: V, maxEntries: int): Evicted<K, V>
  {
    Evict(store[key := value], Touch(t, key, maxEntries), maxEntries)
  }

  /** The body of `LRUBase.__setitem__` on the store and the bookkeeping. */
  method Write<K(==), V>(store: map<K, V>, t: Tracker<K>, key: K, value: V, maxEntries: int) returns (r: Evicted<K, V>)
    requires Tracked(store, t)
    ensures r == Written(store, t, key, value, maxEntries)
  {
    var s := store[key := value];
    WriteTracked(store, t, key, value, maxEntries);
    var t' := Housekeep(t, key, maxEntries);
    r := Evicted(Pass, s, t');
    if |s| > maxEntries {
      r := EvictOverflow(s, t', maxEntries);
    }
  }

  /** `LRUBase`: the dict store with an access queue and reference counts. */
  class LRUBase<K(==), V> {
    var store: map<K, V>
    var queue: seq<K>
    var refcount: map<K, int>
    var hits: int
    var misses: int
    const maxEntries: int

    /** The counts match the queue and every stored key is queued. */
    ghost predicate Valid()
      reads this
    {
      Tracked(store, Tracker(queue, refcount))
    }

    /** Valid, and no queued key has been deleted behind the bookkeeping's back. */
    ghost predicate Exact()
      reads this
    {
      Recency.Exact(store, Tracker(queue, refcount))
    }

    /** `__init__`: `max_entries` defaults to 300; counters at 0, empty queue and counts. */
    constructor (maxEntriesArg: Option<int>)
      ensures maxEntries == maxEntriesArg.GetOr(300)
      ensures store == map[] && queue == [] && refcount == map[] && hits == 0 && misses == 0
      ensures Valid() && Exact()
    {
      maxEntries := maxEntriesArg.GetOr(300);
      store, queue, refcount, hits, misses := map[], [], map[], 0, 0;
    }

    /** `__getitem__`: a hit counts in `_hits` and records the access; a miss counts in
        `_misses`, raises KeyError and leaves queue and counts alone. */
    method Get(key: K) returns (r: Result<V>)
      requires Valid()
      modifies this
      ensures Valid() && (old(Exact()) ==> Exact())
      ensures store == old(store)
      ensures key in store ==> r == Ok(store[key]) && hits == old(hits) + 1 && misses == old(misses) &&
                               Tracker(queue, refcount) == Touch(Tracker(old(queue), old(refcount)), key, maxEntries)
      ensures key !in store ==> r == Err(KeyError) && misses == old(misses) + 1 && hits == old(hits) &&
                                queue == old(queue) && refcount == old(refcount)
    {
      if key !in store {
        misses := misses + 1;
        return Err(KeyError);
      }
      hits := hits + 1;
      var t0 := Tracker(queue, refcount);
      ReadFacts(store, t0, key, maxEntries);
      var t := Housekeep(t0, key, maxEntries);
      queue, refcount := t.queue, t.refcount;
      assert Tracker(queue, refcount) == t;
      r := Ok(store[key]);
    }

    /** `__setitem__`: store the value, record the access, then evict from the front of the
        queue while the store is over `max_entries`. */
    method Set(key: K, value: V) returns (o: Outcome)
      requires Valid()
      modifies this
      ensures Valid()
      ensures Evicted(o, store, Tracker(queue, refcount))
           == Written(old(store), Tracker(old(queue), old(refcount)), key, value, maxEntries)
      ensures hits == old(hits) && misses == old(misses)
      ensures maxEntries >= 0 ==> o == Pass || o == Fail(KeyError)
      ensures maxEntries >= 0 && o == Pass ==> |store| <= maxEntries
      ensures maxEntries >= 0 && old(Exact()) ==> o == Pass && Exact()
      ensures maxEntries >= 1 ==> key in store && store[key] == value
    {
      var r := Write(store, Tracker(queue, refcount), key, value, maxEntries);
      WrittenFacts(old(store), Tracker(old(queue), old(refcount)), key, value, maxEntries);
      o, store, queue, refcount := r.outcome, r.store, r.tracker.queue, r.tracker.refcount;
    }

    /** `__delitem__` (SimpleBase's): only the store changes; the queue and counts keep any
        entries of the deleted key. */
    method Delete(key: K) returns (o: Outcome)
      requires Valid()
      modifies this
      ensures Valid()
      ensures key in old(store) ==> o == Pass && store == old(store) - {key}
      ensures key !in old(store) ==> o == Fail(KeyError) && store == old(store)
      ensures queue == old(queue) && refcount == old(refcount) && hits == old(hits) && misses == old(misses)
    {
      if key in store {
        store := store - {key};
        o := Pass;
      } else {
        o := Fail(KeyError);
      }
    }

    /** `__len__`. */
    method Len() returns (n: nat)
      ensures n == |store|
    {
      n := |store|;
    }

    /** `keys()`. */
    method Keys() returns (ks: seq<K>)
      ensures Enumerates(ks, store.Keys)
    {
      ks := EnumerateKeys(store);
    }
  }

  /** What one `__setitem__` guarantees: the invariant is kept; with a non-negative bound the
      only possible failure is KeyError (from a stale entry) and success means the store is
      within the bound; without stale entries it always succeeds and stays exact; and with
      room for one entry the key just written keeps its new value. */
  lemma WrittenFacts<K, V>(store: map<K, V>, t: Tracker<K>, key: K, value: V, maxEntries: int)
    requires Tracked(store, t)
    ensures var r := Written(store, t, key, value, maxEntries);
      Tracked(r.store, r.tracker) &&
      (maxEntries >= 0 ==> r.outcome == Pass || r.outcome == Fail(KeyError)) &&
      (maxEntries >= 0 && r.outcome == Pass ==> |r.store| <= maxEntries) &&
      (maxEntries >= 0 && Recency.Exact(store, t) ==> r.outcome == Pass && Recency.Exact(r.store, r.tracker)) &&
      (maxEntries >= 1 ==> key in r.store && r.store[key] == value)
  {
    var s := store[key := value];
    var t' := Touch(t, key, maxEntries);
    WriteTracked(store, t, key, value, maxEntries);
    EvictTracked(s, t', maxEntries);
    if maxEntries >= 0 {
      EvictOutcome(s, t', maxEntries);
      if Recency.Exact(store, t) {
        EvictExact(s, t', maxEntries);
      }
    }
    if maxEntries >= 1 {
      TouchRecent(t, key, maxEntries);
      EvictKeepsNewest(s, t', maxEntries, key);
    }
  }

  /** What one hit of `__getitem__` guarantees: recording the access keeps the invariant, and
      keeps the bookkeeping exact if it was. */
  lemma ReadFacts<K, V>(store: map<K, V>, t: Tracker<K>, key: K, maxEntries: int)
    requires Tracked(store, t) && key in store
    ensures Tracked(store, Touch(t, key, maxEntries))
    ensures Recency.Exact(store, t) ==> Recency.Exact(store, Touch(t, key, maxEntries))
  {
    TouchTracked(store, t, key, maxEntries);
    if Recency.Exact(store, t) {
      TouchExact(store, t, key, maxEntries);
    }
  }

  /** With `max_entries=1`, setting A and then B evicts A and keeps B. */
  lemma SetTwiceKeepsLatest<K, V>(a: K, b: K, va: V, vb: V)
    requires a != b
    ensures var r1 := Written(map[], Tracker([], map[]), a, va, 1);
      var r2 := Written(r1.store, r1.tracker, b, vb, 1);
      r1.outcome == Pass && r2.outcome == Pass && r2.store == map[b := vb]
  {
    var t1 := Touch(Tracker([], map[]), a, 1);
    assert t1 == Tracker([a], map[a := 1]);
    var r1 := Written(map[], Tracker([], map[]), a, va, 1);
    assert r1 == Evicted(Pass, map[a := va], t1);
    var t2 := Touch(t1, b, 1);
    assert t2 == Tracker([a, b], map[a := 1, b := 1]);
    var s2 := map[a := va, b := vb];
    assert |s2| == 2;
    assert t2.queue[1..] == [b];
    assert s2 - {a} == map[b := vb];
    assert Evict(s2, t2, 1) == Evict(map[b := vb], Tracker([b], map[b := 1]), 1);
  }

  /** A key deleted directly keeps its queue entry, and the eviction loop later raises
      KeyError when it drops that entry's last reference: with `max_entries=1`, set A,
      delete A, set B, set C. */
  lemma StaleEntryFailsEviction<K, V>(a: K, b: K, c: K, va: V, vb: V, vc: V)
    requires a != b && b != c && a != c
    ensures var r1 := Written(map[], Tracker([], map[]), a, va, 1);
      var r2 := Written(r1.store - {a}, r1.tracker, b, vb, 1);
      var r3 := Written(r2.store, r2.tracker, c, vc, 1);
      r1.outcome == Pass && r2.outcome == Pass && r3.outcome == Fail(KeyError) &&
      r3.store == map[b := vb, c := vc]
  {
    var t1 := Touch(Tracker([], map[]), a, 1);
    assert t1 == Tracker([a], map[a := 1]);
    var r1 := Written(map[], Tracker([], map[]), a, va, 1);
    assert r1 == Evicted(Pass, map[a := va], t1);
    assert r1.store - {a} == map[];
    var t2 := Touch(t1, b, 1);
    assert t2 == Tracker([a, b], map[a := 1, b := 1]);
    var r2 := Written(map[], t1, b, vb, 1);
    assert r2 == Evicted(Pass, map[b := vb], t2);
    var t3 := Touch(t2, c, 1);
    assert t3 == Tracker([a, b, c], map[a := 1, b := 1, c := 1]);
    var s3 := map[b := vb, c := vc];
    assert |s3| == 2;
    assert a !in s3;
  }
}
