/** shove/core.py: the write-buffered frontends. `Shove` keeps a cache, a `_buffer` of
    pending writes and one backing store; `MultiShove` does the same over a list of stores and
    fans every buffered write out to all of them. The backends appear as their contents (a
    dict per store, a dict for the cache); `open == false` stands for the state after `close`,
    in which `_store`, `_cache`, `_buffer` (and `_stores`) are None. */
module Core {
  import opened Wrappers
  import opened Dicts

  /** The `sync` loop `for k, v in items(buffer): store[k] = v`: the store overwritten by every
      buffered pair. */
  method Flush<K, V>(store: map<K, V>, buffer: map<K, V>) returns (r: map<K, V>)
    ensures r == store + buffer
  {
    var ks := EnumerateKeys(buffer);
    r := store;
    var i := 0;
    while i < |ks|
      invariant 0 <= i <= |ks|
      invariant r == Assign(store, Listed(buffer, ks[..i]))
    {
      assert ks[..i + 1] == ks[..i] + [ks[i]];
      ListedSnoc(buffer, ks[..i], ks[i]);
      AssignSnoc(store, Listed(buffer, ks[..i]), (ks[i], buffer[ks[i]]));
      r := r[ks[i] := buffer[ks[i]]];
      i := i + 1;
    }
    assert ks[..i] == ks;
    AssignAll(store, buffer, ks);
  }

  /** Every store overwritten by the buffered pairs. */
  function Flushed<K, V>(stores: seq<map<K, V>>, buffer: map<K, V>): (r: seq<map<K, V>>)
    ensures |r| == |stores|
    ensures forall s :: 0 <= s < |r| ==> r[s] == stores[s] + buffer
  {
    if stores == [] then [] else [stores[0] + buffer] + Flushed(stores[1..], buffer)
  }

  /** Every cached entry is present in `contents` with the same value. */
  ghost predicate Agrees<K, V>(cache: map<K, V>, contents: map<K, V>) {
    forall k :: k in cache ==> k in contents && cache[k] == contents[k]
  }

  /** A store and the writes still buffered for it. */
  datatype Pending<K, V> = Pending(store: map<K, V>, buffer: map<K, V>)

  /** `__setitem__` on the store and the buffer: buffer the pair, and flush once the buffer
      holds `syncEvery` entries or more. */
  function Buffered<K, V>(store: map<K, V>, buffer: map<K, V>, key: K, value: V, syncEvery: int): Pending<K, V>
  {
    var b := buffer[key := value];
    if |b| >= syncEvery then Pending(store + b, map[]) else Pending(store, b)
  }

  /** A buffered write changes what a reader observes by exactly that pair and leaves fewer
      than `syncEvery` writes pending, or none. */
  lemma BufferedContents<K, V>(store: map<K, V>, buffer: map<K, V>, key: K, value: V, syncEvery: int)
    ensures var p := Buffered(store, buffer, key, value, syncEvery);
      p.store + p.buffer == (store + buffer)[key := value] && (p.buffer == map[] || |p.buffer| < syncEvery)
  {
    OverwriteUpdate(store, buffer, key, value);
    UnionEmpty(store + buffer[key := value]);
  }

  /** Updating the overriding dict of a union updates the union. */
  lemma OverwriteUpdate<K, V>(store: map<K, V>, buffer: map<K, V>, key: K, value: V)
    ensures store + buffer[key := value] == (store + buffer)[key := value]
  {
  }

  /** What one buffered write guarantees: the contents gain exactly the pair, fewer than
      `syncEvery` writes stay pending, and a cache receiving the same pair stays in
      agreement. */
  lemma BufferedFacts<K, V>(cache: map<K, V>, store: map<K, V>, buffer: map<K, V>, key: K, value: V, syncEvery: int)
    ensures var p := Buffered(store, buffer, key, value, syncEvery);
      p.store + p.buffer == (store + buffer)[key := value] && (p.buffer == map[] || |p.buffer| < syncEvery) &&
      (Agrees(cache, store + buffer) ==> Agrees(cache[key := value], p.store + p.buffer))
  {
    BufferedContents(store, buffer, key, value, syncEvery);
    if Agrees(cache, store + buffer) {
      WriteAgrees(cache, store + buffer, key, value);
    }
  }

  /** Overwriting by an empty dict changes nothing. */
  lemma UnionEmpty<K, V>(m: map<K, V>)
    ensures m + map[] == m
  {
  }

  /** Writing the same pair into the cache and into what it agrees with keeps them in
      agreement. */
  lemma WriteAgrees<K, V>(cache: map<K, V>, contents: map<K, V>, key: K, value: V)
    requires Agrees(cache, contents)
    ensures Agrees(cache[key := value], contents[key := value])
  {
  }

  /** `Shove.__setitem__` on the store and the buffer, flushing with the `sync` loop. */
  method WriteBuffered<K, V>(store: map<K, V>, buffer: map<K, V>, key: K, value: V, syncEvery: int) returns (p: Pending<K, V>)
    ensures p == Buffered(store, buffer, key, value, syncEvery)
  {
    var b := buffer[key := value];
    if |b| >= syncEvery {
      var flushed := Flush(store, b);
      p := Pending(flushed, map[]);
    } else {
      p := Pending(store, b);
    }
  }

  /** `MultiShove.__setitem__` on the stores and the buffer, flushing to every store. */
  method WriteFanned<K, V>(stores: seq<map<K, V>>, buffer: map<K, V>, key: K, value: V, syncEvery: int)
    returns (r: seq<map<K, V>>, pending: map<K, V>)
    ensures var b := buffer[key := value];
      if |b| >= syncEvery then r == Flushed(stores, b) && pending == map[] else r == stores && pending == b
  {
    var b := buffer[key := value];
    if |b| >= syncEvery {
      r := FanOut(stores, b);
      pending := map[];
    } else {
      r, pending := stores, b;
    }
  }

  /** The inner `sync` loop `for store in stores: store[k] = v`. */
  method WriteEach<K, V>(stores: seq<map<K, V>>, k: K, v: V) returns (r: seq<map<K, V>>)
    ensures |r| == |stores| && forall s :: 0 <= s < |r| ==> r[s] == stores[s][k := v]
  {
    r := stores;
    var j := 0;
    while j < |r|
      invariant 0 <= j <= |r| && |r| == |stores|
      invariant forall s :: 0 <= s < j ==> r[s] == stores[s][k := v]
      invariant forall s :: j <= s < |r| ==> r[s] == stores[s]
    {
      r := r[j := r[j][k := v]];
      j := j + 1;
    }
  }

  /** The `MultiShove.sync` loops: for each buffered pair, write it into every store in list
      order. Each store ends overwritten by every buffered pair. */
  method FanOut<K, V>(stores: seq<map<K, V>>, buffer: map<K, V>) returns (r: seq<map<K, V>>)
    ensures r == Flushed(stores, buffer)
  {
    var ks := EnumerateKeys(buffer);
    r := stores;
    var i := 0;
    while i < |ks|
      invariant 0 <= i <= |ks| && |r| == |stores|
      invariant forall s :: 0 <= s < |r| ==> r[s] == Assign(stores[s], Listed(buffer, ks[..i]))
    {
      var k, v := ks[i], buffer[ks[i]];
      ghost var done := Listed(buffer, ks[..i]);
      assert ks[..i + 1] == ks[..i] + [k];
      ListedSnoc(buffer, ks[..i], k);
      forall s | 0 <= s < |stores|
        ensures Assign(stores[s], Listed(buffer, ks[..i + 1])) == Assign(stores[s], done)[k := v]
      {
        AssignSnoc(stores[s], done, (k, v));
      }
      r := WriteEach(r, k, v);
      i := i + 1;
    }
    assert ks[..i] == ks;
    forall s | 0 <= s < |r|
      ensures r[s] == stores[s] + buffer
    {
      AssignAll(stores[s], buffer, ks);
    }
    assert r == Flushed(stores, buffer);
  }

  /** Flushing an empty buffer leaves every store as it is. */
  lemma FlushedEmpty<K, V>(stores: seq<map<K, V>>)
    ensures Flushed(stores, map[]) == stores
  {
    var r := Flushed(stores, map[]);
    forall s | 0 <= s < |stores|
      ensures r[s] == stores[s]
    {
      UnionEmpty(stores[s]);
    }
  }

  /** An element of a duplicate-free sequence does not occur before its own position. */
  lemma DistinctPrefix<K>(ks: seq<K>, i: nat)
    requires Distinct(ks) && i < |ks|
    ensures ks[i] !in ks[..i]
  {
  }

  /** The index of the first store that lacks `key`, or the number of stores when all hold
      it: where `for store in stores: del store[key]` raises KeyError. */
  function FirstLacking<K, V>(stores: seq<map<K, V>>, key: K): (r: nat)
    ensures r <= |stores|
    ensures forall i :: 0 <= i < r ==> key in stores[i]
    ensures r < |stores| ==> key !in stores[r]
  {
    if stores == [] || key !in stores[0] then 0 else 1 + FirstLacking(stores[1..], key)
  }

  /** `for store in stores: del store[key]`: the key leaves every store before the first one
      lacking it; that store raises KeyError and it and the later stores are untouched. */
  method DeleteFromEach<K, V>(stores: seq<map<K, V>>, key: K) returns (o: Outcome, r: seq<map<K, V>>)
    ensures |r| == |stores|
    ensures o == Pass <==> FirstLacking(stores, key) == |stores|
    ensures o.Fail? ==> o.error == KeyError
    ensures forall s :: 0 <= s < |r| ==>
              r[s] == if s < FirstLacking(stores, key) then stores[s] - {key} else stores[s]
  {
    r := stores;
    var j := 0;
    while j < |stores|
      invariant 0 <= j <= FirstLacking(stores, key)
      invariant |r| == |stores|
      invariant forall s :: 0 <= s < j ==> r[s] == stores[s] - {key}
      invariant forall s :: j <= s < |r| ==> r[s] == stores[s]
    {
      if key !in r[j] {
        return Fail(KeyError), r;
      }
      r := r[j := r[j] - {key}];
      j := j + 1;
    }
    o := Pass;
  }

  /** Every store holds every key of `keys`. */
  ghost predicate HoldAll<K, V>(stores: seq<map<K, V>>, keys: set<K>) {
    forall s :: 0 <= s < |stores| ==> keys <= stores[s].Keys
  }

  /** Removing keys that do not include `key` from every store leaves the first store
      lacking `key` where it was. */
  lemma {:induction false} FirstLackingMinus<K, V>(stores: seq<map<K, V>>, r: seq<map<K, V>>, gone: set<K>, key: K)
    requires key !in gone && |r| == |stores|
    requires forall s :: 0 <= s < |r| ==> r[s] == stores[s] - gone
    ensures FirstLacking(r, key) == FirstLacking(stores, key)
    decreases |stores|
  {
    if stores != [] {
      assert r[0] == stores[0] - gone;
      FirstLackingMinus(stores[1..], r[1..], gone, key);
    }
  }

  /** The state `clear`'s loop stops in when `del self[ks[i]]` raises KeyError: every store
      held the keys before `ks[i]`, which are gone from the cache and from every store;
      `ks[i]` is gone from the cache and from each store before the first one lacking it,
      and that store and the later ones keep everything else. */
  ghost predicate StoppedAt<K, V>(stores: seq<map<K, V>>, cache: map<K, V>, ks: seq<K>, i: int,
                                  r: seq<map<K, V>>, c: map<K, V>)
  {
    0 <= i < |ks| && |r| == |stores| &&
    HoldAll(stores, Elems(ks[..i])) && FirstLacking(stores, ks[i]) < |stores| &&
    c == cache - Elems(ks[..i + 1]) &&
    forall s :: 0 <= s < |r| ==>
      r[s] == stores[s] - Elems(ks[..i]) - (if s < FirstLacking(stores, ks[i]) then {ks[i]} else {})
  }

  /** The `clear` loop `for key in keys: del self[key]` on the stores and the cache, with
      nothing buffered: it gets through every key exactly when every store holds all of
      them, and then those keys are gone from the cache and from every store; otherwise it
      stops, with KeyError, at the first key some store lacks. */
  method DeleteAll<K, V>(stores: seq<map<K, V>>, cache: map<K, V>, ks: seq<K>)
    returns (o: Outcome, r: seq<map<K, V>>, c: map<K, V>)
    requires Distinct(ks)
    ensures |r| == |stores|
    ensures o == Pass <==> HoldAll(stores, Elems(ks))
    ensures o.Fail? ==> o.error == KeyError
    ensures o == Pass ==> c == cache - Elems(ks) && forall s :: 0 <= s < |r| ==> r[s] == stores[s] - Elems(ks)
    ensures o.Fail? ==> exists i :: StoppedAt(stores, cache, ks, i, r, c)
  {
    r, c := stores, cache;
    var i := 0;
    ghost var gone: set<K> := {};
    while i < |ks|
      invariant 0 <= i <= |ks| && |r| == |stores|
      invariant gone == Elems(ks[..i])
      invariant forall s :: 0 <= s < |r| ==> r[s] == stores[s] - gone
      invariant c == cache - gone
      invariant HoldAll(stores, gone)
    {
      var k := ks[i];
      ElemsSnoc(ks, i);
      DistinctPrefix(ks, i);
      var r';
      o, r' := DeleteFromEach(r, k);
      if o.Fail? {
        FirstLackingMinus(stores, r, gone, k);
        var f := FirstLacking(r, k);
        assert k !in stores[f] && k in Elems(ks);
        forall s | 0 <= s < |r|
          ensures r'[s] == stores[s] - gone - (if s < f then {k} else {})
        {
          if s < f {
            RemoveMore(stores[s], gone, k);
          }
        }
        RemoveMore(cache, gone, k);
        r, c := r', c - {k};
        assert StoppedAt(stores, cache, ks, i, r, c);
        return;
      }
      forall s | 0 <= s < |r|
        ensures r'[s] == stores[s] - (gone + {k})
      {
        RemoveMore(stores[s], gone, k);
      }
      RemoveMore(cache, gone, k);
      r, c := r', c - {k};
      gone := gone + {k};
      i := i + 1;
    }
    assert ks[..i] == ks;
    o := Pass;
  }

  /** `Shove`: one backing store behind a cache and a write buffer. */
  class Shove<K(==), V> {
    var store: map<K, V>
    var cache: map<K, V>
    var buffer: map<K, V>
    var open: bool
    /** `_sync`: the buffer size that triggers a flush. */
    const syncEvery: int

    /** What a reader can observe: the store with the pending writes applied. */
    ghost function Contents(): map<K, V>
      reads this
    {
      store + buffer
    }

    /** Every cached entry agrees with the contents. */
    ghost predicate Coherent()
      reads this
    {
      Agrees(cache, Contents())
    }

    /** `__init__`: a store holding `initial`, an empty cache and buffer, and `sync` (default
        2) as the flush threshold. */
    constructor (initial: map<K, V>, syncArg: Option<int>)
      ensures store == initial && cache == map[] && buffer == map[] && open
      ensures syncEvery == syncArg.GetOr(2)
      ensures Coherent()
    {
      store, cache, buffer, open := initial, map[], map[], true;
      syncEvery := syncArg.GetOr(2);
    }

    /** `sync`: write every buffered pair into the store and empty the buffer; on a closed
        frontend `items(None)` raises AttributeError. The contents never change. */
    method Sync() returns (o: Outcome)
      modifies this
      ensures !old(open) ==> o == Fail(AttributeError) && unchanged(this)
      ensures old(open) ==> o == Pass && open && store == old(store) + old(buffer) &&
                            buffer == map[] && cache == old(cache)
      ensures Contents() == old(Contents())
    {
      if !open {
        return Fail(AttributeError);
      }
      store := Flush(store, buffer);
      buffer := map[];
      o := Pass;
    }

    /** `__getitem__`: a cache hit returns at once; a miss syncs, then reads the store and
        copies the value into the cache, or raises KeyError. Closed, the cache lookup raises
        TypeError. On a coherent frontend the result is the contents' entry. */
    method Get(key: K) returns (r: Result<V>)
      modifies this
      ensures !old(open) ==> r == Err(TypeError) && unchanged(this)
      ensures old(open) && key in old(cache) ==> r == Ok(old(cache)[key]) && unchanged(this)
      ensures old(open) && key !in old(cache) ==>
                open && store == old(store) + old(buffer) && buffer == map[] &&
                (key in store ==> r == Ok(store[key]) && cache == old(cache)[key := store[key]]) &&
                (key !in store ==> r == Err(KeyError) && cache == old(cache))
      ensures Contents() == old(Contents()) && (old(Coherent()) ==> Coherent())
      ensures old(open) && old(Coherent()) ==>
                (r.Ok? <==> key in old(Contents())) &&
                (r.Ok? ==> r.value == old(Contents())[key]) && (r.Err? ==> r.error == KeyError)
    {
      if !open {
        return Err(TypeError);
      }
      if key in cache {
        return Ok(cache[key]);
      }
      var o := Sync();
      if key !in store {
        return Err(KeyError);
      }
      var value := store[key];
      cache := cache[key := value];
      r := Ok(value);
    }

    /** `__setitem__`: the value goes into the cache and the buffer; a buffer that reaches
        `_sync` entries is flushed. Closed, the cache assignment raises TypeError. */
    method Set(key: K, value: V) returns (o: Outcome)
      modifies this
      ensures !old(open) ==> o == Fail(TypeError) && unchanged(this)
      ensures old(open) ==> o == Pass && open && cache == old(cache)[key := value] &&
                            Pending(store, buffer) == Buffered(old(store), old(buffer), key, value, syncEvery)
      ensures old(open) ==> Contents() == old(Contents())[key := value]
      ensures old(open) ==> buffer == map[] || |buffer| < syncEvery
      ensures old(Coherent()) ==> Coherent()
    {
      if !open {
        return Fail(TypeError);
      }
      BufferedFacts(cache, store, buffer, key, value, syncEvery);
      var p := WriteBuffered(store, buffer, key, value, syncEvery);
      cache, store, buffer := cache[key := value], p.store, p.buffer;
      o := Pass;
    }

    /** `__delitem__`: sync, drop the key from the cache (a miss is ignored), then delete it
        from the store, raising KeyError if it is not there. Closed, the sync raises
        AttributeError. */
    method Delete(key: K) returns (o: Outcome)
      modifies this
      ensures !old(open) ==> o == Fail(AttributeError) && unchanged(this)
      ensures old(open) ==> open && buffer == map[] && cache == old(cache) - {key}
      ensures old(open) && key in old(Contents()) ==> o == Pass && store == old(Contents()) - {key}
      ensures old(open) && key !in old(Contents()) ==> o == Fail(KeyError) && store == old(Contents())
      ensures old(Coherent()) ==> Coherent()
    {
      if !open {
        return Fail(AttributeError);
      }
      o := Sync();
      cache := cache - {key};
      if key !in store {
        return Fail(KeyError);
      }
      store := store - {key};
      o := Pass;
    }

    /** `__len__`: the store's size alone (pending writes are not counted); closed,
        `len(None)` raises TypeError. */
    method Len() returns (r: Result<nat>)
      ensures open ==> r == Ok(|store|)
      ensures !open ==> r == Err(TypeError)
    {
      if !open {
        return Err(TypeError);
      }
      r := Ok(|store|);
    }

    /** `clear`: empties the store only; the buffer and the cache keep their entries. Closed,
        it raises AttributeError. */
    method Clear() returns (o: Outcome)
      modifies this
      ensures !old(open) ==> o == Fail(AttributeError) && unchanged(this)
      ensures old(open) ==> o == Pass && open && store == map[] && buffer == old(buffer) && cache == old(cache)
    {
      if !open {
        return Fail(AttributeError);
      }
      store := map[];
      o := Pass;
    }

    /** `keys()`: sync first, so the pending writes are included, then list the store's keys.
        Closed, the sync raises AttributeError. */
    method Keys() returns (r: Result<seq<K>>)
      modifies this
      ensures !old(open) ==> r == Err(AttributeError) && unchanged(this)
      ensures old(open) ==> r.Ok? && Enumerates(r.value, old(Contents()).Keys) && open &&
                            store == old(store) + old(buffer) && buffer == map[] && cache == old(cache)
    {
      var o := Sync();
      if o.Fail? {
        return Err(o.error);
      }
      var ks := EnumerateKeys(store);
      r := Ok(ks);
    }

    /** `close`: an open frontend syncs and is closed (the store keeps everything written,
        pending writes included); closing again changes nothing. */
    method Close()
      modifies this
      ensures !open
      ensures old(open) ==> store == old(Contents()) && buffer == map[] && cache == map[]
      ensures !old(open) ==> unchanged(this)
    {
      if open {
        var o := Sync();
        cache := map[];
        open := false;
      }
    }
  }

  /** With the default threshold, two sets of different keys flush both: the buffer is empty
      and `len` counts both. */
  method TwoSetsFlush<V>(v1: V, v2: V) returns (n: Result<nat>)
    ensures n == Ok(2)
  {
    var s := new Shove<string, V>(map[], None);
    var o := s.Set("max", v1);
    o := s.Set("min", v2);
    assert s.store == map["max" := v1, "min" := v2];
    n := s.Len();
  }

  /** `clear` leaves the cache alone, so after set, set, clear a lookup still hits the cache
      and returns the cleared value while `len` is 0. */
  method ClearKeepsCache<V>(v1: V, v2: V) returns (got: Result<V>, n: Result<nat>)
    ensures got == Ok(v1) && n == Ok(0)
  {
    var s := new Shove<string, V>(map[], None);
    var o := s.Set("max", v1);
    o := s.Set("min", v2);
    o := s.Clear();
    got := s.Get("max");
    n := s.Len();
  }

  /** `MultiShove`: a list of backing stores behind one cache and one write buffer; reads go
      to the first store. */
  class MultiShove<K(==), V> {
    var stores: seq<map<K, V>>
    var cache: map<K, V>
    var buffer: map<K, V>
    var open: bool
    const syncEvery: int

    /** There is always a first store. */
    ghost predicate Valid()
      reads this
    {
      |stores| >= 1
    }

    /** What a reader of the first store can observe. */
    ghost function Contents(): map<K, V>
      requires Valid()
      reads this
    {
      stores[0] + buffer
    }

    /** Every cached entry agrees with the first store's contents. */
    ghost predicate Coherent()
      reads this
    {
      Valid() && Agrees(cache, Contents())
    }

    /** `__init__`: the given stores, or one empty simple store when none are given; empty
        cache and buffer; `sync` (default 2) as the flush threshold. */
    constructor (initial: seq<map<K, V>>, syncArg: Option<int>)
      ensures stores == if initial == [] then [map[]] else initial
      ensures cache == map[] && buffer == map[] && open && syncEvery == syncArg.GetOr(2)
      ensures Valid() && Coherent()
    {
      stores := if initial == [] then [map[]] else initial;
      cache, buffer, open := map[], map[], true;
      syncEvery := syncArg.GetOr(2);
    }

    /** `sync`: every store is overwritten by every buffered pair, and the buffer empties.
        Closed, `items(None)` raises AttributeError. */
    method Sync() returns (o: Outcome)
      requires Valid()
      modifies this
      ensures Valid() && |stores| == old(|stores|)
      ensures !old(open) ==> o == Fail(AttributeError) && unchanged(this)
      ensures old(open) ==> o == Pass && open && buffer == map[] && cache == old(cache) &&
                            stores == Flushed(old(stores), old(buffer))
      ensures Contents() == old(Contents()) && (old(Coherent()) ==> Coherent())
    {
      if !open {
        return Fail(AttributeError);
      }
      stores := FanOut(stores, buffer);
      buffer := map[];
      o := Pass;
    }

    /** `__len__`: the first store's size; closed, `None[0]` raises TypeError. */
    method Len() returns (r: Result<nat>)
      requires Valid()
      ensures open ==> r == Ok(|stores[0]|)
      ensures !open ==> r == Err(TypeError)
    {
      if !open {
        return Err(TypeError);
      }
      r := Ok(|stores[0]|);
    }

    /** `__getitem__`: a cache hit returns at once; a miss syncs, then reads only the first
        store and copies the value into the cache, or raises KeyError. Closed, TypeError. */
    method Get(key: K) returns (r: Result<V>)
      requires Valid()
      modifies this
      ensures Valid() && |stores| == old(|stores|)
      ensures !old(open) ==> r == Err(TypeError) && unchanged(this)
      ensures old(open) && key in old(cache) ==> r == Ok(old(cache)[key]) && unchanged(this)
      ensures old(open) && key !in old(cache) ==>
                open && buffer == map[] &&
                (stores == Flushed(old(stores), old(buffer))) &&
                (key in stores[0] ==> r == Ok(stores[0][key]) && cache == old(cache)[key := stores[0][key]]) &&
                (key !in stores[0] ==> r == Err(KeyError) && cache == old(cache))
      ensures Contents() == old(Contents()) && (old(Coherent()) ==> Coherent())
      ensures old(open) && old(Coherent()) ==>
                (r.Ok? <==> key in old(Contents())) &&
                (r.Ok? ==> r.value == old(Contents())[key]) && (r.Err? ==> r.error == KeyError)
    {
      if !open {
        return Err(TypeError);
      }
      if key in cache {
        return Ok(cache[key]);
      }
      var o := Sync();
      if key !in stores[0] {
        return Err(KeyError);
      }
      var value := stores[0][key];
      cache := cache[key := value];
      r := Ok(value);
    }

    /** `__setitem__`: into the cache and the buffer, flushing to every store once the buffer
        reaches `_sync` entries. Closed, TypeError. */
    method Set(key: K, value: V) returns (o: Outcome)
      requires Valid()
      modifies this
      ensures Valid() && |stores| == old(|stores|)
      ensures !old(open) ==> o == Fail(TypeError) && unchanged(this)
      ensures old(open) ==> o == Pass && open && cache == old(cache)[key := value]
      ensures old(open) ==>
                var b := old(buffer)[key := value];
                if |b| >= syncEvery then stores == Flushed(old(stores), b) && buffer == map[]
                else stores == old(stores) && buffer == b
      ensures old(open) ==> Pending(stores[0], buffer) == Buffered(old(stores[0]), old(buffer), key, value, syncEvery)
      ensures old(open) ==> Contents() == old(Contents())[key := value]
      ensures old(open) ==> buffer == map[] || |buffer| < syncEvery
      ensures old(Coherent()) ==> Coherent()
    {
      if !open {
        return Fail(TypeError);
      }
      BufferedFacts(cache, stores[0], buffer, key, value, syncEvery);
      var r, pending := WriteFanned(stores, buffer, key, value, syncEvery);
      cache, stores, buffer := cache[key := value], r, pending;
      o := Pass;
    }

    /** `__delitem__`: drop the key from the cache (a miss is ignored; closed, `del None[key]`
        raises TypeError), sync, then delete it from each store in order; the first store
        lacking it raises KeyError and the stores after it keep the key. */
    method Delete(key: K) returns (o: Outcome)
      requires Valid()
      modifies this
      ensures Valid() && |stores| == old(|stores|)
      ensures !old(open) ==> o == Fail(TypeError) && unchanged(this)
      ensures old(open) ==> open && buffer == map[] && cache == old(cache) - {key}
      ensures old(open) ==>
                var synced := Flushed(old(stores), old(buffer));
                var f := FirstLacking(synced, key);
                (o == Pass <==> f == |synced|) && (o.Fail? ==> o.error == KeyError) &&
                forall s :: 0 <= s < |stores| ==> stores[s] == if s < f then synced[s] - {key} else synced[s]
      ensures old(Coherent()) ==> Coherent()
    {
      if !open {
        return Fail(TypeError);
      }
      cache := cache - {key};
      o := Sync();
      ghost var synced := stores;
      var r;
      o, r := DeleteFromEach(stores, key);
      stores := r;
      assert stores[0] == if 0 < FirstLacking(synced, key) then synced[0] - {key} else synced[0];
    }

    /** `keys()`: sync, then list the first store's keys. Closed, AttributeError. */
    method Keys() returns (r: Result<seq<K>>)
      requires Valid()
      modifies this
      ensures Valid() && |stores| == old(|stores|)
      ensures !old(open) ==> r == Err(AttributeError) && unchanged(this)
      ensures old(open) ==> r.Ok? && Enumerates(r.value, old(Contents()).Keys) && open &&
                            buffer == map[] && cache == old(cache) &&
                            stores == Flushed(old(stores), old(buffer))
    {
      var o := Sync();
      if o.Fail? {
        return Err(o.error);
      }
      var ks := EnumerateKeys(stores[0]);
      r := Ok(ks);
    }

    /** `clear`: list the keys (which syncs), then `del self[key]` for each (its sync finds
        the buffer empty); the first deletion some store cannot perform raises KeyError and
        ends the loop. It succeeds exactly when every store holds every key of the first
        store, and then removes those keys from the cache and from every store. Closed, the
        sync raises AttributeError. */
    method Clear() returns (o: Outcome)
      requires Valid()
      modifies this
      ensures Valid() && |stores| == old(|stores|)
      ensures !old(open) ==> o == Fail(AttributeError) && unchanged(this)
      ensures old(open) ==> open && buffer == map[]
      ensures old(open) ==>
                var synced := Flushed(old(stores), old(buffer));
                (o == Pass <==> HoldAll(synced, synced[0].Keys)) && (o.Fail? ==> o.error == KeyError) &&
                (o == Pass ==> cache == old(cache) - synced[0].Keys &&
                               forall s :: 0 <= s < |stores| ==> stores[s] == synced[s] - synced[0].Keys) &&
                (o.Fail? ==> exists ks, i :: Enumerates(ks, synced[0].Keys) && StoppedAt(synced, old(cache), ks, i, stores, cache))
    {
      var listed := Keys();
      if listed.Err? {
        return Fail(listed.error);
      }
      var ks := listed.value;
      ElemsEnumerates(ks, stores[0].Keys);
      var r, c;
      o, r, c := DeleteAll(stores, cache, ks);
      stores, cache := r, c;
    }

    /** `close`: an open frontend syncs every store and is closed; closing again changes
        nothing. */
    method Close()
      requires Valid()
      modifies this
      ensures Valid() && !open && |stores| == old(|stores|)
      ensures old(open) ==> buffer == map[] && cache == map[] &&
                            stores == Flushed(old(stores), old(buffer))
      ensures !old(open) ==> unchanged(this)
    {
      if open {
        var o := Sync();
        cache := map[];
        open := false;
      }
    }
  }
}
