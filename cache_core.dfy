/** shove/cache/core.py: `SimpleCache`, a timed cache on SimpleBase whose cull counts the
    entries it removes, and `SimpleLRUCache`, which is LRUBase unchanged (no expiry at all).
    MemoryCache and MemoryLRUCache only add a lock and deep copies, so they are these. */
module CacheCore {
  import opened Wrappers
  import opened Dicts
  import opened Recency
  import opened Expiry
  import Backends

  /** `SimpleLRUCache` subclasses LRUBase without adding anything. */
  type SimpleLRUCache<K(==), V> = Backends.LRUBase<K, V>

  /** The part of the cull's state a plain cache has: only its store (no recency bookkeeping,
      no counters). */
  function Plain<K, V>(store: map<K, Entry<V>>): CacheState<K, V> {
    CacheState(store, Tracker([], map[]), 0, 0)
  }

  /** `SimpleCache`: SimpleBase's dict of `(exp, value)` pairs. */
  class SimpleCache<K(==), V> {
    var store: map<K, Entry<V>>
    const maxcull: int
    const maxEntries: int
    const timeout: int

    /** `__init__`: `maxcull` 10, `max_entries` 300 and `timeout` 300 unless given. */
    constructor (maxcullArg: Option<int>, maxEntriesArg: Option<int>, timeoutArg: Option<int>)
      ensures store == map[]
      ensures maxcull == maxcullArg.GetOr(10) && maxEntries == maxEntriesArg.GetOr(300)
      ensures timeout == timeoutArg.GetOr(300)
    {
      store := map[];
      maxcull := maxcullArg.GetOr(10);
      maxEntries := maxEntriesArg.GetOr(300);
      timeout := timeoutArg.GetOr(300);
    }

    /** `__getitem__` at time `now`: an absent key raises KeyError; an entry whose expiry is
        strictly before `now` is deleted and raises KeyError; otherwise its value is returned
        and nothing changes. */
    method Get(key: K, now: int) returns (r: Result<V>)
      modifies this
      ensures key !in old(store) ==> r == Err(KeyError) && store == old(store)
      ensures key in old(store) && old(store)[key].exp < now ==>
                r == Err(KeyError) && store == old(store) - {key}
      ensures key in old(store) && old(store)[key].exp >= now ==>
                r == Ok(old(store)[key].value) && store == old(store)
      ensures Probe(Plain(old(store)), key, now, false, maxEntries) == Probed(r.Ok?, Plain(store))
    {
      if key !in store {
        return Err(KeyError);
      }
      var e := store[key];
      if e.exp < now {
        store := store - {key};
        return Err(KeyError);
      }
      r := Ok(e.value);
    }

    /** `__setitem__` at time `now`, with `order` the order `keys()` lists the store in and
        `pick` standing for `random.choice`: cull first when the store holds `max_entries` or
        more (an exception there abandons the assignment), then store `(now + timeout, value)`.
        Into a cache within its bound, with a non-negative quota and room for one entry, it
        always succeeds and keeps the bound. */
    method Set(key: K, value: V, now: int, order: seq<K>, pick: nat -> nat) returns (o: Outcome)
      requires Enumerates(order, store.Keys)
      modifies this
      ensures Stored(o, Plain(store)) == Put(Plain(old(store)), key, value, now, timeout, order, maxcull, maxEntries, false, pick)
      ensures o == Pass ==> key in store && store[key] == Entry(now + timeout, value)
      ensures |old(store)| <= maxEntries && maxEntries >= 1 && maxcull >= 0 ==>
                o == Pass && |store| <= maxEntries
    {
      if |store| <= maxEntries && maxEntries >= 1 && maxcull >= 0 {
        PutBounded(Plain(store), key, value, now, timeout, order, maxcull, maxEntries, false, pick);
      }
      var c := Plain(store);
      if |store| >= maxEntries {
        var r := RunCull(order, c, now, maxcull, maxEntries, false, pick);
        SweepTracked(order, c, 0, now, maxcull, false, maxEntries);
        c := r.state;
        assert c == Plain(c.store);
        if r.outcome.Fail? {
          store := c.store;
          return r.outcome;
        }
      }
      store := c.store[key := Entry(now + timeout, value)];
      o := Pass;
    }

    /** `__delitem__` (SimpleBase's): remove the key, or raise KeyError and change nothing. */
    method Delete(key: K) returns (o: Outcome)
      modifies this
      ensures key in old(store) ==> o == Pass && store == old(store) - {key}
      ensures key !in old(store) ==> o == Fail(KeyError) && store == old(store)
    {
      if key in store {
        store := store - {key};
        o := Pass;
      } else {
        o := Fail(KeyError);
      }
    }

    /** `__len__`. */
    method Len() returns (n: nat)
      ensures n == |store|
    {
      n := |store|;
    }

    /** `keys()`: every stored key once. */
    method Keys() returns (ks: seq<K>)
      ensures Enumerates(ks, store.Keys)
    {
      ks := EnumerateKeys(store);
    }
  }

  /** With `max_entries=1`, setting one key and then another twice, at any times and whatever
      `random.choice` picks, leaves exactly one entry. */
  method CullKeepsOne<V>(now1: int, now2: int, now3: int, pick: nat -> nat, value: V) returns (n: nat)
    ensures n == 1
  {
    var cache := new SimpleCache<string, V>(None, Some(1), None);
    var order := cache.Keys();
    var o := cache.Set("test", value, now1, order, pick);
    order := cache.Keys();
    o := cache.Set("test2", value, now2, order, pick);
    order := cache.Keys();
    o := cache.Set("test2", value, now3, order, pick);
    n := cache.Len();
  }
}
