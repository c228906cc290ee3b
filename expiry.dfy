/** Timed entries and the cull that makes room in a full cache. The sweep over a snapshot of
    the keys and the count of removals are those of shove/cache/core.py; the timed lookup
    (`Probe`), the random phase (`RandomCull`) and `Keep` also serve the caches of
    shove/cache.py, whose own sweep is in module Cache. */
module Expiry {
  import opened Wrappers
  import opened Dicts
  import opened Recency

  /** A cached value and the time after which it is stale: the `(exp, value)` pair. */
  datatype Entry<V> = Entry(exp: int, value: V)

  /** What a cull reads and changes: the store, and for an LRU cache its bookkeeping and the
      hit and miss counters (a plain cache leaves those three alone). */
  datatype CacheState<K, V> = CacheState(store: map<K, Entry<V>>, tracker: Tracker<K>, hits: int, misses: int)

  /** An entry is stale once its expiry time is strictly before the current time. */
  predicate Stale<V>(e: Entry<V>, now: int) {
    e.exp < now
  }

  datatype Probed<K, V> = Probed(hit: bool, state: CacheState<K, V>)

  /** One `self[key]` lookup. A missing key, or a stale one (which is deleted first), is a miss
      (KeyError); otherwise it is a hit. Through the LRU cache a miss counts in `_misses` and a
      hit counts in `_hits` and is recorded by `_housekeep`. */
  function Probe<K, V>(c: CacheState<K, V>, key: K, now: int, lru: bool, maxEntries: int): (r: Probed<K, V>)
    ensures r.hit <==> key in c.store && !Stale(c.store[key], now)
    ensures r.state.store.Keys <= c.store.Keys
    ensures forall k :: k in c.store && k != key ==> k in r.state.store
    ensures key in c.store && Stale(c.store[key], now) <==> key in c.store && key !in r.state.store
  {
    if key !in c.store then Probed(false, if lru then c.(misses := c.misses + 1) else c)
    else if Stale(c.store[key], now) then
      var c' := c.(store := c.store - {key});
      Probed(false, if lru then c'.(misses := c'.misses + 1) else c')
    else if lru then Probed(true, c.(hits := c.hits + 1, tracker := Touch(c.tracker, key, maxEntries)))
    else Probed(true, c)
  }

  datatype Swept<K, V> = Swept(state: CacheState<K, V>, num: int)

  /** The first phase of `_cull`: walk the key snapshot `order`; while at most `maxcull` entries
      have been removed, look the key up, counting a miss (the lookup removed a stale entry)
      as one removal; once more than `maxcull` were removed, stop. */
  function Sweep<K, V>(order: seq<K>, c: CacheState<K, V>, num: int, now: int, maxcull: int,
                       lru: bool, maxEntries: int): Swept<K, V>
    decreases |order|
  {
    if order == [] || num > maxcull then Swept(c, num)
    else
      var p := Probe(c, order[0], now, lru, maxEntries);
      Sweep(order[1..], p.state, if p.hit then num else num + 1, now, maxcull, lru, maxEntries)
  }

  datatype Culled<K, V> = Culled(outcome: Outcome, state: CacheState<K, V>, num: int)

  /** Where the random phase ends: how, the keys still stored, and the count. */
  datatype Drawn<K> = Drawn(outcome: Outcome, live: set<K>, num: int)

  /** The second phase of `_cull`, on the set of stored keys: while the store is still full and
      the quota is not used up, delete `choice(keys)` from the snapshot `keys` taken after the
      sweep. The `draw`-th call of `random.choice` picks index `pick(draw) % |keys|`; choosing
      from an empty snapshot raises IndexError, and deleting a key already deleted raises
      KeyError. */
  function RandomCull<K>(keys: seq<K>, live: set<K>, num: int, draw: nat, maxEntries: int,
                         maxcull: int, pick: nat -> nat): Drawn<K>
    decreases if num <= maxcull then maxcull - num + 1 else 0
  {
    if |live| >= maxEntries && num <= maxcull then
      if keys == [] then Drawn(Fail(IndexError), live, num)
      else
        var k := keys[pick(draw) % |keys|];
        if k !in live then Drawn(Fail(KeyError), live, num)
        else RandomCull(keys, live - {k}, num + 1, draw + 1, maxEntries, maxcull, pick)
    else Drawn(Pass, live, num)
  }

  /** The entries of `m` whose keys are in `live`. */
  function Keep<K, V>(m: map<K, V>, live: set<K>): (r: map<K, V>)
    ensures r.Keys == m.Keys * live
    ensures forall k :: k in r ==> r[k] == m[k]
  {
    map k | k in m.Keys * live :: m[k]
  }

  /** `_cull`: the sweep from a count of 0, then the random phase on the keys that are left,
      in the order the store lists them. */
  function Cull<K, V>(order: seq<K>, c: CacheState<K, V>, now: int, maxcull: int, maxEntries: int,
                      lru: bool, pick: nat -> nat): Culled<K, V>
  {
    var s := Sweep(order, c, 0, now, maxcull, lru, maxEntries);
    var d := RandomCull(Surviving(order, s.state.store), s.state.store.Keys, s.num, 0, maxEntries, maxcull, pick);
    Culled(d.outcome, s.state.(store := Keep(s.state.store, d.live)), d.num)
  }

  datatype Stored<K, V> = Stored(outcome: Outcome, state: CacheState<K, V>)

  /** `__setitem__` of a timed cache: cull when the store holds `max_entries` or more (an
      exception there abandons the assignment), then store the value with expiry
      `now + timeout`. */
  function Put<K, V>(c: CacheState<K, V>, key: K, value: V, now: int, timeout: int, order: seq<K>,
                     maxcull: int, maxEntries: int, lru: bool, pick: nat -> nat): Stored<K, V>
  {
    if |c.store| >= maxEntries then
      var r := Cull(order, c, now, maxcull, maxEntries, lru, pick);
      if r.outcome.Fail? then Stored(r.outcome, r.state)
      else Stored(Pass, r.state.(store := r.state.store[key := Entry(now + timeout, value)]))
    else Stored(Pass, c.(store := c.store[key := Entry(now + timeout, value)]))
  }

  // ---------------------------------------------------------------------------------------
  // The sweep

  /** The sweep removes only stale entries of the snapshot and changes no value; its count is
      exactly the number of entries it removed; it stops counting one past `maxcull`; and when
      the quota was not exhausted, no stale entry of the snapshot is left. */
  lemma {:induction false} SweepRemovesStale<K, V>(order: seq<K>, c: CacheState<K, V>, num: int, now: int,
                                                   maxcull: int, lru: bool, maxEntries: int)
    requires Distinct(order) && forall k :: k in order ==> k in c.store
    ensures var r := Sweep(order, c, num, now, maxcull, lru, maxEntries);
      r.state.store.Keys <= c.store.Keys &&
      (forall k :: k in r.state.store ==> r.state.store[k] == c.store[k]) &&
      (forall k :: k in c.store && k !in r.state.store ==> k in order && Stale(c.store[k], now)) &&
      |c.store| - |r.state.store| == r.num - num &&
      num <= r.num && (num <= maxcull + 1 ==> r.num <= maxcull + 1) && (num > maxcull ==> r.num == num) &&
      (r.num <= maxcull ==> forall k :: k in order && k in r.state.store ==> !Stale(r.state.store[k], now))
    decreases |order|
  {
    if order != [] && num <= maxcull {
      var key := order[0];
      var tail := order[1..];
      var p := Probe(c, key, now, lru, maxEntries);
      assert key !in tail by {
        forall j | 0 <= j < |tail| ensures tail[j] != key { assert tail[j] == order[j + 1]; }
      }
      assert Distinct(tail) by {
        forall i, j | 0 <= i < j < |tail| ensures tail[i] != tail[j] {
          assert tail[i] == order[i + 1] && tail[j] == order[j + 1];
        }
      }
      assert forall k :: k in tail ==> k in p.state.store by {
        forall k | k in tail ensures k in p.state.store { assert k in order && k != key; }
      }
      assert p.hit ==> p.state.store == c.store;
      assert !p.hit ==> p.state.store == c.store - {key};
      SweepRemovesStale(tail, p.state, if p.hit then num else num + 1, now, maxcull, lru, maxEntries);
    }
  }

  /** Through the LRU cache the sweep keeps the bookkeeping invariant; through a plain cache it
      leaves the bookkeeping and the counters untouched. */
  lemma {:induction false} SweepTracked<K, V>(order: seq<K>, c: CacheState<K, V>, num: int, now: int,
                                              maxcull: int, lru: bool, maxEntries: int)
    requires lru ==> Tracked(c.store, c.tracker)
    ensures var r := Sweep(order, c, num, now, maxcull, lru, maxEntries).state;
      (lru ==> Tracked(r.store, r.tracker)) &&
      (!lru ==> r.tracker == c.tracker && r.hits == c.hits && r.misses == c.misses)
    decreases |order|
  {
    if order != [] && num <= maxcull {
      var p := Probe(c, order[0], now, lru, maxEntries);
      if lru && p.hit {
        TouchCounted(c.tracker, order[0], maxEntries);
        TouchRecent(c.tracker, order[0], maxEntries);
      }
      SweepTracked(order[1..], p.state, if p.hit then num else num + 1, now, maxcull, lru, maxEntries);
    }
  }

  // ---------------------------------------------------------------------------------------
  // The random phase

  /** The random phase deletes only snapshot keys, counts every deletion, stops counting one
      past `maxcull`, and when it ends normally the store is below `max_entries` or the quota is
      used up. */
  lemma {:induction false} RandomCullBounded<K>(keys: seq<K>, live: set<K>, num: int, draw: nat,
                                              maxEntries: int, maxcull: int, pick: nat -> nat)
    ensures var r := RandomCull(keys, live, num, draw, maxEntries, maxcull, pick);
      r.live <= live && (forall k :: k in live && k !in r.live ==> k in keys) &&
      |live| - |r.live| == r.num - num &&
      num <= r.num && (num <= maxcull + 1 ==> r.num <= maxcull + 1) &&
      (r.outcome == Pass ==> |r.live| < maxEntries || r.num > maxcull)
    decreases if num <= maxcull then maxcull - num + 1 else 0
  {
    if |live| >= maxEntries && num <= maxcull && keys != [] {
      var k := keys[pick(draw) % |keys|];
      if k in live {
        RandomCullBounded(keys, live - {k}, num + 1, draw + 1, maxEntries, maxcull, pick);
      }
    }
  }

  // ---------------------------------------------------------------------------------------
  // The whole cull

  /** A cull removes at most `maxcull + 1` entries (none when `maxcull` is below -1) and never
      changes a value it keeps. */
  lemma CullQuota<K, V>(order: seq<K>, c: CacheState<K, V>, now: int, maxcull: int, maxEntries: int,
                        lru: bool, pick: nat -> nat)
    requires Enumerates(order, c.store.Keys)
    ensures var r := Cull(order, c, now, maxcull, maxEntries, lru, pick);
      r.state.store.Keys <= c.store.Keys &&
      (forall k :: k in r.state.store ==> r.state.store[k] == c.store[k]) &&
      |c.store| - |r.state.store| <= (if maxcull + 1 > 0 then maxcull + 1 else 0)
  {
    var s := Sweep(order, c, 0, now, maxcull, lru, maxEntries);
    SweepRemovesStale(order, c, 0, now, maxcull, lru, maxEntries);
    var d := RandomCull(Surviving(order, s.state.store), s.state.store.Keys, s.num, 0, maxEntries, maxcull, pick);
    RandomCullBounded(Surviving(order, s.state.store), s.state.store.Keys, s.num, 0, maxEntries, maxcull, pick);
    assert Keep(s.state.store, d.live).Keys == d.live;
  }

  /** In a cache that is exactly full, with a non-negative quota and room for at least one
      entry, a cull always succeeds and leaves room for the new entry. */
  lemma CullMakesRoom<K, V>(order: seq<K>, c: CacheState<K, V>, now: int, maxcull: int, maxEntries: int,
                            lru: bool, pick: nat -> nat)
    requires Enumerates(order, c.store.Keys)
    requires |c.store| == maxEntries >= 1 && maxcull >= 0
    ensures var r := Cull(order, c, now, maxcull, maxEntries, lru, pick);
      r.outcome == Pass && |r.state.store| < maxEntries
  {
    var s := Sweep(order, c, 0, now, maxcull, lru, maxEntries);
    var keys := Surviving(order, s.state.store);
    var live := s.state.store.Keys;
    SweepLeavesDraw(order, c, now, maxcull, lru, maxEntries);
    DrawMakesRoom(keys, live, s.num, maxEntries, maxcull, pick);
    var d := RandomCull(keys, live, s.num, 0, maxEntries, maxcull, pick);
    assert Keep(s.state.store, d.live).Keys == d.live;
  }

  /** After the sweep of an exactly full cache, the random phase has what it needs to make
      room: either the sweep removed something, or it removed nothing, so quota is left and
      the snapshot lists every stored key. */
  lemma SweepLeavesDraw<K, V>(order: seq<K>, c: CacheState<K, V>, now: int, maxcull: int, lru: bool, maxEntries: int)
    requires Enumerates(order, c.store.Keys)
    requires |c.store| == maxEntries >= 1 && maxcull >= 0
    ensures var s := Sweep(order, c, 0, now, maxcull, lru, maxEntries);
      var keys := Surviving(order, s.state.store);
      |s.state.store.Keys| <= maxEntries &&
      (|s.state.store.Keys| == maxEntries ==> s.num <= maxcull && keys != [] && forall k :: k in keys ==> k in s.state.store.Keys)
  {
    var s := Sweep(order, c, 0, now, maxcull, lru, maxEntries);
    SweepRemovesStale(order, c, 0, now, maxcull, lru, maxEntries);
    var keys := Surviving(order, s.state.store);
    var live := s.state.store.Keys;
    assert |live| == |s.state.store|;
    if s.num == 0 {
      assert live == c.store.Keys by {
        SubsetSameSize(live, c.store.Keys);
      }
      var k0 :| k0 in c.store;
      assert k0 in keys;
    }
  }

  /** The random phase makes room when the store is already below `max_entries`, or when it
      is exactly full, there is quota left and the snapshot lists only stored keys: then it
      removes the first key it draws and stops. */
  lemma DrawMakesRoom<K>(keys: seq<K>, live: set<K>, num: int, maxEntries: int, maxcull: int, pick: nat -> nat)
    requires |live| <= maxEntries && maxEntries >= 1
    requires |live| == maxEntries ==> num <= maxcull && keys != [] && forall k :: k in keys ==> k in live
    ensures var d := RandomCull(keys, live, num, 0, maxEntries, maxcull, pick);
      d.outcome == Pass && |d.live| < maxEntries && d.live <= live
  {
    if |live| == maxEntries {
      var k := keys[pick(0) % |keys|];
      assert k in live;
      assert RandomCull(keys, live, num, 0, maxEntries, maxcull, pick)
          == RandomCull(keys, live - {k}, num + 1, 1, maxEntries, maxcull, pick);
    }
  }

  /** A cache with no room at all (`max_entries <= 0`) fails on its first assignment: the cull
      of the empty store finds nothing to sweep and `random.choice` of no keys raises
      IndexError. */
  lemma CullEmptyFails<K, V>(order: seq<K>, c: CacheState<K, V>, now: int, maxcull: int, maxEntries: int,
                             lru: bool, pick: nat -> nat)
    requires Enumerates(order, c.store.Keys)
    requires c.store == map[] && maxEntries <= 0 && maxcull >= 0
    ensures Cull(order, c, now, maxcull, maxEntries, lru, pick).outcome == Fail(IndexError)
  {
  }

  /** An assignment into a cache within its bound, with a non-negative quota and room for at
      least one entry, always succeeds, stores the value with expiry `now + timeout`, and keeps
      the cache within `max_entries`. */
  lemma PutBounded<K, V>(c: CacheState<K, V>, key: K, value: V, now: int, timeout: int, order: seq<K>,
                         maxcull: int, maxEntries: int, lru: bool, pick: nat -> nat)
    requires Enumerates(order, c.store.Keys)
    requires |c.store| <= maxEntries && maxEntries >= 1 && maxcull >= 0
    ensures var r := Put(c, key, value, now, timeout, order, maxcull, maxEntries, lru, pick);
      r.outcome == Pass && |r.state.store| <= maxEntries &&
      key in r.state.store && r.state.store[key] == Entry(now + timeout, value)
  {
    if |c.store| >= maxEntries {
      CullMakesRoom(order, c, now, maxcull, maxEntries, lru, pick);
    }
  }

  // ---------------------------------------------------------------------------------------
  // The loops themselves, shared by both timed caches

  /** The sweep loop: `for key in keys: if num <= maxcull: try self[key] ... else: break`. */
  method RunSweep<K, V>(order: seq<K>, c0: CacheState<K, V>, now: int, maxcull: int, lru: bool,
                        maxEntries: int) returns (c: CacheState<K, V>, num: int)
    ensures Swept(c, num) == Sweep(order, c0, 0, now, maxcull, lru, maxEntries)
  {
    c, num := c0, 0;
    var i := 0;
    while i < |order|
      invariant 0 <= i <= |order|
      invariant Sweep(order[i..], c, num, now, maxcull, lru, maxEntries) == Sweep(order, c0, 0, now, maxcull, lru, maxEntries)
    {
      assert order[i..][1..] == order[i + 1..];
      if num <= maxcull {
        var p := Probe(c, order[i], now, lru, maxEntries);
        c := p.state;
        if !p.hit {
          num := num + 1;
        }
      } else {
        break;
      }
      i := i + 1;
    }
  }

  /** The random loop: `while len(self) >= max_entries and num <= maxcull: del self[choice(keys)]`. */
  method RunRandomCull<K, V>(keys: seq<K>, c0: CacheState<K, V>, num0: int, maxEntries: int, maxcull: int,
                             pick: nat -> nat) returns (outcome: Outcome, c: CacheState<K, V>, num: int)
    ensures RandomCull(keys, c0.store.Keys, num0, 0, maxEntries, maxcull, pick) == Drawn(outcome, c.store.Keys, num)
    ensures c == c0.(store := Keep(c0.store, c.store.Keys))
  {
    c, num := c0, num0;
    var draw: nat := 0;
    while |c.store| >= maxEntries && num <= maxcull
      invariant RandomCull(keys, c.store.Keys, num, draw, maxEntries, maxcull, pick)
             == RandomCull(keys, c0.store.Keys, num0, 0, maxEntries, maxcull, pick)
      invariant c == c0.(store := Keep(c0.store, c.store.Keys))
      decreases maxcull - num
    {
      if keys == [] {
        return Fail(IndexError), c, num;
      }
      var k := keys[pick(draw) % |keys|];
      if k !in c.store {
        return Fail(KeyError), c, num;
      }
      draw := draw + 1;
      c := c.(store := c.store - {k});
      num := num + 1;
    }
    outcome := Pass;
  }

  /** `_cull`: the sweep, the snapshot `list(self.keys())` of what is left, the random phase. */
  method RunCull<K, V>(order: seq<K>, c0: CacheState<K, V>, now: int, maxcull: int, maxEntries: int,
                       lru: bool, pick: nat -> nat) returns (r: Culled<K, V>)
    ensures r == Cull(order, c0, now, maxcull, maxEntries, lru, pick)
  {
    var c, num := RunSweep(order, c0, now, maxcull, lru, maxEntries);
    var keys := Survivors(order, c.store);
    var outcome, c', num' := RunRandomCull(keys, c, num, maxEntries, maxcull, pick);
    r := Culled(outcome, c', num');
  }

  /** The keys of `order` still in `m`, in order: the store's key list after the sweep. */
  method Survivors<K, V>(order: seq<K>, m: map<K, V>) returns (keys: seq<K>)
    ensures keys == Surviving(order, m)
  {
    keys := [];
    var i := |order|;
    while i > 0
      invariant 0 <= i <= |order|
      invariant keys == Surviving(order[i..], m)
    {
      i := i - 1;
      assert order[i..][1..] == order[i + 1..];
      if order[i] in m {
        keys := [order[i]] + keys;
      }
    }
    assert order[0..] == order;
  }
}
