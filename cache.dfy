/** shove/cache.py: `BaseCache`, a timed cache on Mapping whose cull sweep counts with the
    `enumerate` index, and `BaseLRUCache`, the same cache with the recency bookkeeping, as the
    dict-backed SimpleCache and SimpleLRUCache (MemoryCache and MemoryLRUCache only add a lock
    and deep copies). */
module Cache {
  import opened Wrappers
  import opened Dicts
  import opened Recency
  import opened Expiry
  import Backends

  /** Where the sweep ends: the state, and the value `num` holds after the `for` loop (None
      when the loop never ran, so `num` is unbound). */
  datatype Enumerated<K, V> = Enumerated(state: CacheState<K, V>, last: Option<int>)

  /** The sweep of `_cull` over the key snapshot `order`, from enumerate index `idx`: `num` is
      rebound to the index at every step; at an index up to `maxcull` the key is looked up and
      a miss adds one to `num` (until the next step rebinds it); at a larger index the loop
      breaks. */
  function EnumSweep<K, V>(order: seq<K>, c: CacheState<K, V>, idx: int, last: Option<int>, now: int,
                           maxcull: int, lru: bool, maxEntries: int): Enumerated<K, V>
    decreases |order|
  {
    if order == [] then Enumerated(c, last)
    else if idx > maxcull then Enumerated(c, Some(idx))
    else
      var p := Probe(c, order[0], now, lru, maxEntries);
      EnumSweep(order[1..], p.state, idx + 1, Some(if p.hit then idx else idx + 1), now, maxcull, lru, maxEntries)
  }

  /** The random phase after the sweep: `while len(self) >= max_entries and num <= maxcull`
      over the snapshot of the remaining keys. An unbound `num` is only read when the store
      is still full, and then raises UnboundLocalError. */
  function RandomPhase<K, V>(order: seq<K>, c: CacheState<K, V>, last: Option<int>, maxEntries: int,
                             maxcull: int, pick: nat -> nat): Culled<K, V>
  {
    if |c.store| >= maxEntries && last.None? then Culled(Fail(UnboundLocalError), c, 0)
    else
      var d := RandomCull(Surviving(order, c.store), c.store.Keys, last.GetOr(0), 0, maxEntries, maxcull, pick);
      Culled(d.outcome, c.(store := Keep(c.store, d.live)), d.num)
  }

  /** `_cull`, sweeping a snapshot of the keys. */
  function EnumCull<K, V>(order: seq<K>, c: CacheState<K, V>, now: int, maxcull: int, maxEntries: int,
                          lru: bool, pick: nat -> nat): Culled<K, V>
  {
    var s := EnumSweep(order, c, 0, None, now, maxcull, lru, maxEntries);
    RandomPhase(order, s.state, s.last, maxEntries, maxcull, pick)
  }

  /** `BaseCache.__setitem__`: cull when the store holds `max_entries` or more (an exception
      there abandons the assignment), then store `(now + timeout, value)`. */
  function PutEnum<K, V>(c: CacheState<K, V>, key: K, value: V, now: int, timeout: int, order: seq<K>,
                         maxcull: int, maxEntries: int, lru: bool, pick: nat -> nat): Stored<K, V>
  {
    if |c.store| >= maxEntries then
      var r := EnumCull(order, c, now, maxcull, maxEntries, lru, pick);
      if r.outcome.Fail? then Stored(r.outcome, r.state)
      else Stored(Pass, r.state.(store := r.state.store[key := Entry(now + timeout, value)]))
    else Stored(Pass, c.(store := c.store[key := Entry(now + timeout, value)]))
  }

  /** `BaseLRUCache.__setitem__`: the timed assignment (whose sweep goes through the LRU
      lookup), then `_housekeep(key)` and the eviction loop while the store is over
      `max_entries`, which are LRUBase's. */
  function PutLRU<K(==), V>(c: CacheState<K, V>, key: K, value: V, now: int, timeout: int, order: seq<K>,
                            maxcull: int, maxEntries: int, pick: nat -> nat): Stored<K, V>
  {
    var e := Entry(now + timeout, value);
    if |c.store| >= maxEntries then
      var r := EnumCull(order, c, now, maxcull, maxEntries, true, pick);
      if r.outcome.Fail? then Stored(r.outcome, r.state) else WriteEvict(r.state, key, e, maxEntries)
    else WriteEvict(c, key, e, maxEntries)
  }

  /** Store the entry, record the access and evict, as `Backends.Written` does, on the cache's
      state. */
  function WriteEvict<K(==), V>(c: CacheState<K, V>, key: K, e: Entry<V>, maxEntries: int): Stored<K, V>
  {
    var w := Backends.Written(c.store, c.tracker, key, e, maxEntries);
    Stored(w.outcome, c.(store := w.store, tracker := w.tracker))
  }

  // ---------------------------------------------------------------------------------------
  // The sweep as written: enumerating the live dict

  /** Where the sweep over the live dict ends: how, the state, and `num`. */
  datatype LiveSwept<K, V> = LiveSwept(outcome: Outcome, state: CacheState<K, V>, last: Option<int>)

  /** The sweep of `_cull` as written, `enumerate(self)`, which iterates the store's own dict:
      once a lookup has deleted a stale entry the dict has changed size, and the iterator's
      next step raises RuntimeError (even when no key is left). */
  function EnumSweepLive<K, V>(order: seq<K>, c: CacheState<K, V>, idx: int, last: Option<int>, now: int,
                               maxcull: int, lru: bool, maxEntries: int): LiveSwept<K, V>
    decreases |order|
  {
    if order == [] then LiveSwept(Pass, c, last)
    else if idx > maxcull then LiveSwept(Pass, c, Some(idx))
    else
      var p := Probe(c, order[0], now, lru, maxEntries);
      var num := Some(if p.hit then idx else idx + 1);
      if |p.state.store| != |c.store| then LiveSwept(Fail(RuntimeError), p.state, num)
      else EnumSweepLive(order[1..], p.state, idx + 1, num, now, maxcull, lru, maxEntries)
  }

  /** `_cull` as written: the live sweep, then the random phase. */
  function EnumCullLive<K, V>(order: seq<K>, c: CacheState<K, V>, now: int, maxcull: int, maxEntries: int,
                              lru: bool, pick: nat -> nat): Culled<K, V>
  {
    var s := EnumSweepLive(order, c, 0, None, now, maxcull, lru, maxEntries);
    if s.outcome.Fail? then Culled(s.outcome, s.state, s.last.GetOr(0))
    else RandomPhase(order, s.state, s.last, maxEntries, maxcull, pick)
  }

  /** The live sweep does what the snapshot sweep does as long as it removes nothing, and
      raises RuntimeError exactly when the snapshot sweep would remove an entry. */
  lemma {:induction false} LiveSweepAgrees<K, V>(order: seq<K>, c: CacheState<K, V>, idx: int, last: Option<int>,
                                                 now: int, maxcull: int, lru: bool, maxEntries: int)
    requires Distinct(order) && forall k :: k in order ==> k in c.store
    ensures var a := EnumSweepLive(order, c, idx, last, now, maxcull, lru, maxEntries);
      var b := EnumSweep(order, c, idx, last, now, maxcull, lru, maxEntries);
      (a.outcome == Pass || a.outcome == Fail(RuntimeError)) &&
      (a.outcome == Pass <==> b.state.store == c.store) &&
      (a.outcome == Pass ==> a.state == b.state && a.last == b.last)
    decreases |order|
  {
    if order != [] && idx <= maxcull {
      var key := order[0];
      var p := Probe(c, key, now, lru, maxEntries);
      var tail := order[1..];
      var num := Some(if p.hit then idx else idx + 1);
      DistinctTail(order);
      EnumSweepStore(tail, p.state, idx + 1, num, now, maxcull, lru, maxEntries);
      if p.hit {
        assert p.state.store == c.store;
        LiveSweepAgrees(tail, p.state, idx + 1, num, now, maxcull, lru, maxEntries);
      } else {
        assert |p.state.store| != |c.store|;
        assert key !in EnumSweep(tail, p.state, idx + 1, num, now, maxcull, lru, maxEntries).state.store;
      }
    }
  }

  /** A full cache holding one stale entry: the live sweep deletes it and the next iteration
      step raises RuntimeError, so the assignment that culled is abandoned; sweeping a snapshot
      removes the entry and leaves room. */
  lemma LiveCullFails<K, V>(a: K, v: V)
    ensures var c := CacheState(map[a := Entry(0, v)], Tracker([], map[]), 0, 0);
      EnumCullLive([a], c, 1, 10, 1, false, n => n).outcome == Fail(RuntimeError) &&
      EnumCull([a], c, 1, 10, 1, false, n => n) == Culled(Pass, c.(store := map[]), 1)
  {
    var c := CacheState(map[a := Entry(0, v)], Tracker([], map[]), 0, 0);
    assert c.store - {a} == map[];
    assert [a][1..] == [];
    var empty: map<K, Entry<V>> := map[];
    var c' := c.(store := empty);
    assert Probe(c, a, 1, false, 1) == Probed(false, c');
    assert EnumSweep([a], c, 0, None, 1, 10, false, 1) == EnumSweep([], c', 1, Some(1), 1, 10, false, 1);
    assert Surviving([a], empty) == [];
  }

  // ---------------------------------------------------------------------------------------
  // What the sweep does

  /** The sweep only removes entries, never changes a value, and keeps every key outside the
      snapshot. */
  lemma {:induction false} EnumSweepStore<K, V>(order: seq<K>, c: CacheState<K, V>, idx: int, last: Option<int>,
                                                now: int, maxcull: int, lru: bool, maxEntries: int)
    ensures var r := EnumSweep(order, c, idx, last, now, maxcull, lru, maxEntries).state.store;
      r.Keys <= c.store.Keys && (forall k :: k in r ==> r[k] == c.store[k]) &&
      (forall k :: k in c.store && k !in order ==> k in r)
    decreases |order|
  {
    if order != [] && idx <= maxcull {
      var p := Probe(c, order[0], now, lru, maxEntries);
      EnumSweepStore(order[1..], p.state, idx + 1, Some(if p.hit then idx else idx + 1), now, maxcull, lru, maxEntries);
      assert forall k :: k in p.state.store ==> p.state.store[k] == c.store[k];
    }
  }

  /** The sweep from enumerate index `idx` examines exactly the snapshot keys at indices up to
      `maxcull`, and removes exactly the stale ones among them. */
  lemma {:induction false} EnumSweepRemoves<K, V>(order: seq<K>, c: CacheState<K, V>, idx: int, last: Option<int>,
                                                  now: int, maxcull: int, lru: bool, maxEntries: int)
    requires Distinct(order) && forall k :: k in order ==> k in c.store
    ensures var r := EnumSweep(order, c, idx, last, now, maxcull, lru, maxEntries).state.store;
      forall j :: 0 <= j < |order| ==>
        (order[j] in r <==> !(idx + j <= maxcull && Stale(c.store[order[j]], now)))
    decreases |order|
  {
    if order != [] && idx <= maxcull {
      var key := order[0];
      var tail := order[1..];
      var p := Probe(c, key, now, lru, maxEntries);
      var num := Some(if p.hit then idx else idx + 1);
      DistinctTail(order);
      EnumSweepRemoves(tail, p.state, idx + 1, num, now, maxcull, lru, maxEntries);
      EnumSweepStore(tail, p.state, idx + 1, num, now, maxcull, lru, maxEntries);
      var r := EnumSweep(tail, p.state, idx + 1, num, now, maxcull, lru, maxEntries).state.store;
      forall j | 1 <= j < |order|
        ensures order[j] in r <==> !(idx + j <= maxcull && Stale(c.store[order[j]], now))
      {
        assert order[j] == tail[j - 1];
      }
    }
  }

  /** The value `num` holds after the sweep: `maxcull + 1` when the loop breaks, and otherwise
      the last index, plus one when that last lookup missed. */
  lemma {:induction false} EnumSweepLast<K, V>(order: seq<K>, c: CacheState<K, V>, idx: int, last: Option<int>,
                                               now: int, maxcull: int, lru: bool, maxEntries: int)
    requires Distinct(order) && forall k :: k in order ==> k in c.store
    ensures var r := EnumSweep(order, c, idx, last, now, maxcull, lru, maxEntries).last;
      (order == [] ==> r == last) &&
      (order != [] && idx > maxcull ==> r == Some(idx)) &&
      (order != [] && idx <= maxcull && idx + |order| - 1 > maxcull ==> r == Some(maxcull + 1)) &&
      (order != [] && idx + |order| - 1 <= maxcull ==>
         r == Some(idx + |order| - 1 + if Stale(c.store[order[|order| - 1]], now) then 1 else 0))
    decreases |order|
  {
    if order != [] && idx <= maxcull {
      var key := order[0];
      var tail := order[1..];
      var p := Probe(c, key, now, lru, maxEntries);
      DistinctTail(order);
      EnumSweepLast(tail, p.state, idx + 1, Some(if p.hit then idx else idx + 1), now, maxcull, lru, maxEntries);
      if tail != [] {
        assert order[|order| - 1] == tail[|tail| - 1];
        assert p.state.store[tail[|tail| - 1]] == c.store[tail[|tail| - 1]];
      }
    }
  }

  /** Through the LRU cache the sweep keeps the bookkeeping invariant. */
  lemma {:induction false} EnumSweepTracked<K, V>(order: seq<K>, c: CacheState<K, V>, idx: int, last: Option<int>,
                                                  now: int, maxcull: int, maxEntries: int)
    requires Tracked(c.store, c.tracker)
    ensures var r := EnumSweep(order, c, idx, last, now, maxcull, true, maxEntries).state;
      Tracked(r.store, r.tracker)
    decreases |order|
  {
    if order != [] && idx <= maxcull {
      var p := Probe(c, order[0], now, true, maxEntries);
      if p.hit {
        TouchTracked(c.store, c.tracker, order[0], maxEntries);
      }
      EnumSweepTracked(order[1..], p.state, idx + 1, Some(if p.hit then idx else idx + 1), now, maxcull, maxEntries);
    }
  }

  // ---------------------------------------------------------------------------------------
  // The whole cull

  /** Because `num` is the enumerate index, a store of more than `maxcull + 1` keys always
      ends the sweep with `num == maxcull + 1`: the random phase never runs, and the cull
      removes only the stale entries among the first `maxcull + 1` keys. */
  lemma EnumCullSkipsRandom<K, V>(order: seq<K>, c: CacheState<K, V>, now: int, maxcull: int, maxEntries: int,
                                  lru: bool, pick: nat -> nat)
    requires Enumerates(order, c.store.Keys) && maxcull >= 0 && |order| > maxcull + 1
    ensures var r := EnumCull(order, c, now, maxcull, maxEntries, lru, pick);
      r.outcome == Pass && r.num == maxcull + 1 &&
      r.state.store.Keys <= c.store.Keys && (forall k :: k in r.state.store ==> r.state.store[k] == c.store[k]) &&
      forall j :: 0 <= j < |order| ==> (order[j] in r.state.store <==> !(j <= maxcull && Stale(c.store[order[j]], now)))
  {
    EnumSweepStore(order, c, 0, None, now, maxcull, lru, maxEntries);
    EnumSweepRemoves(order, c, 0, None, now, maxcull, lru, maxEntries);
    EnumSweepLast(order, c, 0, None, now, maxcull, lru, maxEntries);
    var s := EnumSweep(order, c, 0, None, now, maxcull, lru, maxEntries);
    assert s.last == Some(maxcull + 1);
    assert Keep(s.state.store, s.state.store.Keys) == s.state.store;
  }

  /** So a full cache of more than `maxcull + 1` fresh entries is not culled at all, and
      assigning a new key takes it past `max_entries`. */
  lemma FreshCacheOverflows<K, V>(c: CacheState<K, V>, key: K, value: V, now: int, timeout: int, order: seq<K>,
                                  maxcull: int, maxEntries: int, lru: bool, pick: nat -> nat)
    requires Enumerates(order, c.store.Keys) && maxcull >= 0 && |c.store| > maxcull + 1
    requires |c.store| >= maxEntries && key !in c.store
    requires forall k :: k in c.store ==> !Stale(c.store[k], now)
    ensures var r := PutEnum(c, key, value, now, timeout, order, maxcull, maxEntries, lru, pick);
      r.outcome == Pass && |r.state.store| == |c.store| + 1 > maxEntries
  {
    EnumeratesSize(order, c.store.Keys);
    EnumCullSkipsRandom(order, c, now, maxcull, maxEntries, lru, pick);
    var r := EnumCull(order, c, now, maxcull, maxEntries, lru, pick);
    forall k | k in c.store ensures k in r.state.store {
      var j :| 0 <= j < |order| && order[j] == k;
    }
    assert r.state.store.Keys == c.store.Keys;
  }

  /** A cache that is exactly full and small enough for the sweep to reach every key (at most
      `maxcull + 1` of them), with room for at least one entry, is always culled below
      `max_entries`. */
  lemma EnumCullMakesRoom<K, V>(order: seq<K>, c: CacheState<K, V>, now: int, maxcull: int, maxEntries: int,
                                lru: bool, pick: nat -> nat)
    requires Enumerates(order, c.store.Keys)
    requires |c.store| == maxEntries >= 1 && maxcull + 1 >= |c.store|
    ensures var r := EnumCull(order, c, now, maxcull, maxEntries, lru, pick);
      r.outcome == Pass && |r.state.store| < maxEntries
  {
    EnumeratesSize(order, c.store.Keys);
    EnumSweepStore(order, c, 0, None, now, maxcull, lru, maxEntries);
    var s := EnumSweep(order, c, 0, None, now, maxcull, lru, maxEntries);
    var live := s.state.store.Keys;
    if live == c.store.Keys {
      var n := |order| - 1;
      EnumSweepRemoves(order, c, 0, None, now, maxcull, lru, maxEntries);
      assert order[n] in s.state.store;
      SweepReachesAll(order, c, now, maxcull, lru, maxEntries);
      assert order[0] in Surviving(order, s.state.store);
    } else {
      SubsetSize(live, c.store.Keys);
      if |live| == |c.store.Keys| {
        SubsetSameSize(live, c.store.Keys);
      }
    }
    PhaseMakesRoom(order, s.state, s.last, maxEntries, maxcull, pick);
  }

  /** The random phase leaves room when the store is already below `max_entries`, or when it
      is exactly full, `num` is bound with quota left and there is a key to draw. */
  lemma PhaseMakesRoom<K, V>(order: seq<K>, c: CacheState<K, V>, last: Option<int>, maxEntries: int,
                             maxcull: int, pick: nat -> nat)
    requires |c.store| <= maxEntries && maxEntries >= 1
    requires |c.store| == maxEntries ==> last.Some? && last.value <= maxcull && Surviving(order, c.store) != []
    ensures var r := RandomPhase(order, c, last, maxEntries, maxcull, pick);
      r.outcome == Pass && |r.state.store| < maxEntries
  {
    var keys := Surviving(order, c.store);
    var live := c.store.Keys;
    assert |live| == |c.store|;
    DrawMakesRoom(keys, live, last.GetOr(0), maxEntries, maxcull, pick);
    var d := RandomCull(keys, live, last.GetOr(0), 0, maxEntries, maxcull, pick);
    assert Keep(c.store, d.live).Keys == d.live;
  }

  /** A sweep that reaches every key and finds the last one fresh ends with `num` at the
      last index. */
  lemma SweepReachesAll<K, V>(order: seq<K>, c: CacheState<K, V>, now: int, maxcull: int, lru: bool, maxEntries: int)
    requires Distinct(order) && forall k :: k in order ==> k in c.store
    requires order != [] && |order| - 1 <= maxcull && !Stale(c.store[order[|order| - 1]], now)
    ensures EnumSweep(order, c, 0, None, now, maxcull, lru, maxEntries).last == Some(|order| - 1)
  {
    EnumSweepLast(order, c, 0, None, now, maxcull, lru, maxEntries);
  }

  /** An assignment never changes another entry: the cull only removes entries and the new
      one is stored with expiry `now + timeout`. */
  lemma PutEnumStores<K, V>(c: CacheState<K, V>, key: K, value: V, now: int, timeout: int, order: seq<K>,
                            maxcull: int, maxEntries: int, lru: bool, pick: nat -> nat)
    requires Enumerates(order, c.store.Keys)
    ensures var r := PutEnum(c, key, value, now, timeout, order, maxcull, maxEntries, lru, pick);
      (r.outcome == Pass ==> key in r.state.store && r.state.store[key] == Entry(now + timeout, value)) &&
      (|c.store| < maxEntries ==> r.outcome == Pass && r.state.store == c.store[key := Entry(now + timeout, value)]) &&
      (forall k :: k in r.state.store && k != key ==> k in c.store && r.state.store[k] == c.store[k])
  {
    EnumSweepStore(order, c, 0, None, now, maxcull, lru, maxEntries);
    var s := EnumSweep(order, c, 0, None, now, maxcull, lru, maxEntries);
    RandomCullBounded(Surviving(order, s.state.store), s.state.store.Keys, s.last.GetOr(0), 0, maxEntries, maxcull, pick);
  }

  /** An LRU assignment keeps the bookkeeping invariant; when it ends normally with a
      non-negative bound the store is within `max_entries`, and with room for one entry the
      new value is stored. */
  lemma PutLRUFacts<K, V>(c: CacheState<K, V>, key: K, value: V, now: int, timeout: int, order: seq<K>,
                          maxcull: int, maxEntries: int, pick: nat -> nat)
    requires Enumerates(order, c.store.Keys) && Tracked(c.store, c.tracker)
    ensures var r := PutLRU(c, key, value, now, timeout, order, maxcull, maxEntries, pick);
      Tracked(r.state.store, r.state.tracker) &&
      (maxEntries >= 0 && r.outcome == Pass ==> |r.state.store| <= maxEntries) &&
      (maxEntries >= 1 && r.outcome == Pass ==> key in r.state.store && r.state.store[key] == Entry(now + timeout, value))
  {
    var base := if |c.store| >= maxEntries then EnumCull(order, c, now, maxcull, maxEntries, true, pick).state else c;
    if |c.store| >= maxEntries {
      EnumCullTracked(order, c, now, maxcull, maxEntries, pick);
    }
    Backends.WrittenFacts(base.store, base.tracker, key, Entry(now + timeout, value), maxEntries);
  }

  /** Through the LRU cache the whole cull keeps the bookkeeping invariant: the sweep records
      its hits and the random phase only removes stored keys. */
  lemma EnumCullTracked<K, V>(order: seq<K>, c: CacheState<K, V>, now: int, maxcull: int, maxEntries: int,
                              pick: nat -> nat)
    requires Tracked(c.store, c.tracker)
    ensures var r := EnumCull(order, c, now, maxcull, maxEntries, true, pick).state;
      Tracked(r.store, r.tracker)
  {
    EnumSweepTracked(order, c, 0, None, now, maxcull, maxEntries);
  }

  // ---------------------------------------------------------------------------------------
  // The loops themselves

  /** The sweep loop: `for num, key in enumerate(keys): if num <= maxcull: try self[key] ...
      else: break`. */
  method RunEnumSweep<K, V>(order: seq<K>, c0: CacheState<K, V>, now: int, maxcull: int, lru: bool,
                            maxEntries: int) returns (c: CacheState<K, V>, last: Option<int>)
    ensures Enumerated(c, last) == EnumSweep(order, c0, 0, None, now, maxcull, lru, maxEntries)
  {
    c, last := c0, None;
    var i := 0;
    while i < |order|
      invariant 0 <= i <= |order|
      invariant EnumSweep(order[i..], c, i, last, now, maxcull, lru, maxEntries)
             == EnumSweep(order, c0, 0, None, now, maxcull, lru, maxEntries)
    {
      assert order[i..][1..] == order[i + 1..];
      var num := i;
      if num <= maxcull {
        var p := Probe(c, order[i], now, lru, maxEntries);
        c := p.state;
        if !p.hit {
          num := num + 1;
        }
        last := Some(num);
      } else {
        last := Some(num);
        break;
      }
      i := i + 1;
    }
  }

  /** `_cull`: the sweep, then `keys = list(self)` and the random loop, which reads `num`. */
  method RunEnumCull<K, V>(order: seq<K>, c0: CacheState<K, V>, now: int, maxcull: int, maxEntries: int,
                           lru: bool, pick: nat -> nat) returns (r: Culled<K, V>)
    ensures r == EnumCull(order, c0, now, maxcull, maxEntries, lru, pick)
  {
    var c, last := RunEnumSweep(order, c0, now, maxcull, lru, maxEntries);
    if |c.store| >= maxEntries && last.None? {
      return Culled(Fail(UnboundLocalError), c, 0);
    }
    var keys := Survivors(order, c.store);
    var outcome, c', num := RunRandomCull(keys, c, last.GetOr(0), maxEntries, maxcull, pick);
    r := Culled(outcome, c', num);
  }

  /** `BaseLRUCache.__setitem__` on the cache's state. */
  method WriteLRU<K(==), V>(c: CacheState<K, V>, key: K, value: V, now: int, timeout: int, order: seq<K>,
                            maxcull: int, maxEntries: int, pick: nat -> nat) returns (r: Stored<K, V>)
    requires Enumerates(order, c.store.Keys) && Tracked(c.store, c.tracker)
    ensures r == PutLRU(c, key, value, now, timeout, order, maxcull, maxEntries, pick)
  {
    var s := c;
    if |c.store| >= maxEntries {
      var culled := RunEnumCull(order, c, now, maxcull, maxEntries, true, pick);
      if culled.outcome.Fail? {
        return Stored(culled.outcome, culled.state);
      }
      s := culled.state;
      EnumCullTracked(order, c, now, maxcull, maxEntries, pick);
    }
    var w := Backends.Write(s.store, s.tracker, key, Entry(now + timeout, value), maxEntries);
    r := Stored(w.outcome, s.(store := w.store, tracker := w.tracker));
  }

  // ---------------------------------------------------------------------------------------
  // The caches

  /** `SimpleCache`: BaseCache on Mapping's dict of `(exp, value)` pairs. */
  class SimpleCache<K(==), V> {
    var store: map<K, Entry<V>>
    const maxcull: int
    const maxEntries: int
    const timeout: int

    /** `__init__`: `maxcull` 10, `max_entries` 300 and `timeout` 300 unless given. */
    constructor (maxcullArg: Option<int>, maxEntriesArg: Option<int>, timeoutArg: Option<int>)
      ensures store == map[]
      ensures maxcull == maxcullArg.GetOr(10) && maxEntries == maxEntriesArg.GetOr(300)
      ensures timeout == timeoutArg.GetOr(300)
    {
      store := map[];
      maxcull := maxcullArg.GetOr(10);
      maxEntries := maxEntriesArg.GetOr(300);
      timeout := timeoutArg.GetOr(300);
    }

    /** `__getitem__` at time `now`: an absent key raises KeyError; an entry whose expiry is
        strictly before `now` is deleted and raises KeyError; otherwise its value is returned
        and nothing changes. */
    method Get(key: K, now: int) returns (r: Result<V>)
      modifies this
      ensures key !in old(store) ==> r == Err(KeyError) && store == old(store)
      ensures key in old(store) && old(store)[key].exp < now ==>
                r == Err(KeyError) && store == old(store) - {key}
      ensures key in old(store) && old(store)[key].exp >= now ==>
                r == Ok(old(store)[key].value) && store == old(store)
    {
      if key !in store {
        return Err(KeyError);
      }
      var e := store[key];
      if e.exp < now {
        store := store - {key};
        return Err(KeyError);
      }
      r := Ok(e.value);
    }

    /** `key in cache` (Base.__contains__ over `__getitem__`): true exactly for a live entry,
        and a stale entry is deleted on the way. */
    method Contains(key: K, now: int) returns (b: bool)
      modifies this
      ensures b <==> key in old(store) && !Stale(old(store)[key], now)
      ensures store == if key in old(store) && Stale(old(store)[key], now) then old(store) - {key} else old(store)
    {
      var r := Get(key, now);
      b := r.Ok?;
    }

    /** `__setitem__` at time `now`, with `order` the order the store's dict lists its keys in
        and `pick` standing for `random.choice`. The cull sweeps a snapshot of the keys. */
    method Set(key: K, value: V, now: int, order: seq<K>, pick: nat -> nat) returns (o: Outcome)
      requires Enumerates(order, store.Keys)
      modifies this
      ensures Stored(o, CacheState(store, Tracker([], map[]), 0, 0))
           == PutEnum(CacheState(old(store), Tracker([], map[]), 0, 0), key, value, now, timeout, order, maxcull, maxEntries, false, pick)
      ensures o == Pass ==> key in store && store[key] == Entry(now + timeout, value)
      ensures forall k :: k in store && k != key ==> k in old(store) && store[k] == old(store)[k]
    {
      var c := CacheState(store, Tracker([], map[]), 0, 0);
      PutEnumStores(c, key, value, now, timeout, order, maxcull, maxEntries, false, pick);
      SweepUntracked(order, c, 0, None, now, maxcull, maxEntries);
      if |store| >= maxEntries {
        var r := RunEnumCull(order, c, now, maxcull, maxEntries, false, pick);
        c := r.state;
        if r.outcome.Fail? {
          store := c.store;
          return r.outcome;
        }
      }
      store := c.store[key := Entry(now + timeout, value)];
      o := Pass;
    }

    /** `__delitem__` (Mapping's): remove the key, or raise KeyError and change nothing. */
    method Delete(key: K) returns (o: Outcome)
      modifies this
      ensures key in old(store) ==> o == Pass && store == old(store) - {key}
      ensures key !in old(store) ==> o == Fail(KeyError) && store == old(store)
    {
      if key in store {
        store := store - {key};
        o := Pass;
      } else {
        o := Fail(KeyError);
      }
    }

    /** `__len__`. */
    method Len() returns (n: nat)
      ensures n == |store|
    {
      n := |store|;
    }

    /** `__iter__`: every stored key once. */
    method Iter() returns (ks: seq<K>)
      ensures Enumerates(ks, store.Keys)
    {
      ks := EnumerateKeys(store);
    }
  }

  /** Through a plain cache the sweep leaves the bookkeeping and the counters alone. */
  lemma {:induction false} SweepUntracked<K, V>(order: seq<K>, c: CacheState<K, V>, idx: int, last: Option<int>,
                                                now: int, maxcull: int, maxEntries: int)
    ensures var r := EnumSweep(order, c, idx, last, now, maxcull, false, maxEntries).state;
      r.tracker == c.tracker && r.hits == c.hits && r.misses == c.misses
    decreases |order|
  {
    if order != [] && idx <= maxcull {
      var p := Probe(c, order[0], now, false, maxEntries);
      SweepUntracked(order[1..], p.state, idx + 1, Some(if p.hit then idx else idx + 1), now, maxcull, maxEntries);
    }
  }

  /** `SimpleLRUCache`: BaseLRUCache on Mapping's dict, with the queue and counts. */
  class SimpleLRUCache<K(==), V> {
    var store: map<K, Entry<V>>
    var queue: seq<K>
    var refcount: map<K, int>
    var hits: int
    var misses: int
    const maxcull: int
    const maxEntries: int
    const timeout: int

    /** The counts match the queue and every stored key is queued. */
    ghost predicate Valid()
      reads this
    {
      Tracked(store, Tracker(queue, refcount))
    }

    /** The whole state, as the cull sees it. */
    function State(): CacheState<K, V>
      reads this
    {
      CacheState(store, Tracker(queue, refcount), hits, misses)
    }

    /** `__init__`: the defaults of BaseCache, zero counters, an empty queue and counts. */
    constructor (maxcullArg: Option<int>, maxEntriesArg: Option<int>, timeoutArg: Option<int>)
      ensures store == map[] && queue == [] && refcount == map[] && hits == 0 && misses == 0
      ensures maxcull == maxcullArg.GetOr(10) && maxEntries == maxEntriesArg.GetOr(300)
      ensures timeout == timeoutArg.GetOr(300)
      ensures Valid()
    {
      store, queue, refcount, hits, misses := map[], [], map[], 0, 0;
      maxcull := maxcullArg.GetOr(10);
      maxEntries := maxEntriesArg.GetOr(300);
      timeout := timeoutArg.GetOr(300);
    }

    /** `__getitem__` at time `now`: a live entry is a hit (counted in `_hits` and recorded by
        `_housekeep`); an absent or stale key (the latter deleted) is a miss, counted in
        `_misses`, raising KeyError and leaving the queue and counts alone. */
    method Get(key: K, now: int) returns (r: Result<V>)
      requires Valid()
      modifies this
      ensures Valid()
      ensures Probe(old(State()), key, now, true, maxEntries) == Probed(r.Ok?, State())
      ensures key in old(store) && !Stale(old(store)[key], now) ==>
                r == Ok(old(store)[key].value) && hits == old(hits) + 1 && misses == old(misses)
      ensures !(key in old(store) && !Stale(old(store)[key], now)) ==>
                r == Err(KeyError) && misses == old(misses) + 1 && hits == old(hits) &&
                queue == old(queue) && refcount == old(refcount)
    {
      if key !in store {
        misses := misses + 1;
        return Err(KeyError);
      }
      var e := store[key];
      if e.exp < now {
        store := store - {key};
        misses := misses + 1;
        return Err(KeyError);
      }
      hits := hits + 1;
      var t0 := Tracker(queue, refcount);
      TouchTracked(store, t0, key, maxEntries);
      var t := Housekeep(t0, key, maxEntries);
      queue, refcount := t.queue, t.refcount;
      r := Ok(e.value);
    }

    /** `__setitem__` at time `now`, with `order` the order the store's dict lists its keys in
        and `pick` standing for `random.choice`: the timed assignment, `_housekeep(key)`, then
        the eviction loop while the store is over `max_entries`. */
    method Set(key: K, value: V, now: int, order: seq<K>, pick: nat -> nat) returns (o: Outcome)
      requires Valid() && Enumerates(order, store.Keys)
      modifies this
      ensures Valid()
      ensures Stored(o, State()) == PutLRU(old(State()), key, value, now, timeout, order, maxcull, maxEntries, pick)
      ensures maxEntries >= 0 && o == Pass ==> |store| <= maxEntries
      ensures maxEntries >= 1 && o == Pass ==> key in store && store[key] == Entry(now + timeout, value)
    {
      var r := WriteLRU(State(), key, value, now, timeout, order, maxcull, maxEntries, pick);
      PutLRUFacts(State(), key, value, now, timeout, order, maxcull, maxEntries, pick);
      o := r.outcome;
      store, queue, refcount, hits, misses := r.state.store, r.state.tracker.queue, r.state.tracker.refcount,
                                             r.state.hits, r.state.misses;
    }

    /** `__delitem__` (Mapping's): only the store changes; the queue and counts keep any
        entries of the deleted key. */
    method Delete(key: K) returns (o: Outcome)
      requires Valid()
      modifies this
      ensures Valid()
      ensures key in old(store) ==> o == Pass && store == old(store) - {key}
      ensures key !in old(store) ==> o == Fail(KeyError) && store == old(store)
      ensures queue == old(queue) && refcount == old(refcount) && hits == old(hits) && misses == old(misses)
    {
      if key in store {
        store := store - {key};
        o := Pass;
      } else {
        o := Fail(KeyError);
      }
    }

    /** `__len__`. */
    method Len() returns (n: nat)
      ensures n == |store|
    {
      n := |store|;
    }

    /** `__iter__`. */
    method Iter() returns (ks: seq<K>)
      ensures Enumerates(ks, store.Keys)
    {
      ks := EnumerateKeys(store);
    }
  }
}
