/** shove/store.py: the dict-mixin operations every store has (`BaserStore`, `BaseStore`),
    `SimpleStore` on a plain dict, and `SyncStore`, which serialises through `dumps`/`loads`
    and calls the backend's `sync` hook after every write. MemoryStore only adds a lock and
    deep copies, so it is SimpleStore. */
module Store {
  import opened Wrappers
  import opened Dicts
  import Base

  /** What `update` is given as `other`: nothing (`None`), something with `items` or `keys`
      (a mapping; `order` is the order it lists its keys in), or any other iterable of
      pairs. */
  datatype Source<K, V> = NoSource | MappingOf(m: map<K, V>, order: seq<K>) | PairsOf(pairs: seq<(K, V)>)

  /** A mapping source lists each of its keys once. */
  predicate Listable<K, V>(src: Source<K, V>) {
    src.MappingOf? ==> Enumerates(src.order, src.m.Keys)
  }

  /** The pairs `update` writes for `other`, in the order it writes them. */
  function SourcePairs<K, V>(src: Source<K, V>): (r: seq<(K, V)>)
    requires Listable(src)
    ensures src.NoSource? ==> r == []
    ensures src.MappingOf? ==>
              PairKeys(r) == src.m.Keys && forall i :: 0 <= i < |r| ==> r[i].0 in src.m && r[i].1 == src.m[r[i].0]
  {
    match src
    case NoSource => []
    case MappingOf(m, order) => ListedKeys(m, order); Listed(m, order)
    case PairsOf(pairs) => pairs
  }

  /** The keys named by the listed pairs are the listed keys. */
  lemma {:induction false} ListedKeys<K, V>(m: map<K, V>, order: seq<K>)
    requires forall k :: k in order ==> k in m
    ensures PairKeys(Listed(m, order)) == set k | k in order
    decreases |order|
  {
    if order != [] {
      assert Listed(m, order)[1..] == Listed(m, order[1..]);
      ListedKeys(m, order[1..]);
      assert forall k :: k in order <==> k == order[0] || k in order[1..];
    }
  }

  /** The right-hand operand of `==`: another store (its contents and the order its `items`
      lists them in) or any other object. */
  datatype Operand<K, V> = AStore(m: map<K, V>, order: seq<K>) | NotAStore

  /** What `__eq__` returns: a boolean, or `NotImplemented`. */
  datatype Equality = Equal(same: bool) | NotImplemented

  /** `update(other, **kw)` on the contents `m`: the pairs of `other`, then the keyword pairs,
      each written in turn. */
  function Updated<K, V>(m: map<K, V>, src: Source<K, V>, kw: map<K, V>, kwOrder: seq<K>): map<K, V>
    requires Listable(src) && Enumerates(kwOrder, kw.Keys)
  {
    Assign(Assign(m, SourcePairs(src)), Listed(kw, kwOrder))
  }

  /** After `update`, a keyword key has its keyword value; a key only `other` names has the
      value of its last pair there; every other key keeps its entry, and no other key
      appears. */
  lemma UpdateEffect<K, V>(m: map<K, V>, src: Source<K, V>, kw: map<K, V>, kwOrder: seq<K>)
    requires Listable(src) && Enumerates(kwOrder, kw.Keys)
    ensures var r := Updated(m, src, kw, kwOrder);
      r.Keys == m.Keys + PairKeys(SourcePairs(src)) + kw.Keys &&
      (forall k :: k in kw ==> r[k] == kw[k]) &&
      (forall k :: k in m && k !in kw && k !in PairKeys(SourcePairs(src)) ==> r[k] == m[k])
    ensures var ps := SourcePairs(src); var r := Updated(m, src, kw, kwOrder);
      forall i :: 0 <= i < |ps| && ps[i].0 !in kw && ps[i].0 !in PairKeys(ps[i + 1..]) ==> r[ps[i].0] == ps[i].1
  {
    var ps := SourcePairs(src);
    var m1 := Assign(m, ps);
    AssignLaterWins(m, ps);
    AssignListed(m1, kw, kwOrder);
  }

  /** Two stores compare equal exactly when they hold the same key-to-value mapping, whatever
      order either lists its items in. */
  lemma EqualContents<K, V>(m1: map<K, V>, order1: seq<K>, m2: map<K, V>, order2: seq<K>)
    requires Enumerates(order1, m1.Keys) && Enumerates(order2, m2.Keys)
    ensures Assign(map[], Listed(m1, order1)) == Assign(map[], Listed(m2, order2)) <==> m1 == m2
  {
    DictOfItems(m1, order1);
    DictOfItems(m2, order2);
  }

  /** `SimpleStore`: the store operations over a dict held in `store`; a missing key raises
      KeyError. Iteration lists the keys in the order `order`. */
  class SimpleStore<K(==), V(==)> {
    var store: map<K, V>

    constructor ()
      ensures store == map[]
    {
      store := map[];
    }

    /** `__getitem__`. */
    method Get(key: K) returns (r: Result<V>)
      ensures r.Ok? <==> key in store
      ensures r.Ok? ==> r.value == store[key]
      ensures r.Err? ==> r.error == KeyError
    {
      if key in store {
        r := Ok(store[key]);
      } else {
        r := Err(KeyError);
      }
    }

    /** `__setitem__`. */
    method Set(key: K, value: V)
      modifies this
      ensures store == old(store)[key := value]
    {
      store := store[key := value];
    }

    /** `__delitem__`: remove the key, or raise KeyError and change nothing. */
    method Delete(key: K) returns (o: Outcome)
      modifies this
      ensures key in old(store) ==> o == Pass && store == old(store) - {key}
      ensures key !in old(store) ==> o == Fail(KeyError) && store == old(store)
    {
      if key in store {
        store := store - {key};
        o := Pass;
      } else {
        o := Fail(KeyError);
      }
    }

    /** `items()`: one pair per key, in iteration order, with that key's value. */
    method Items(order: seq<K>) returns (items: seq<(K, V)>)
      requires Enumerates(order, store.Keys)
      ensures |items| == |order| && PairKeys(items) == store.Keys
      ensures forall i :: 0 <= i < |items| ==> items[i] == (order[i], store[order[i]])
    {
      items := [];
      var i := 0;
      while i < |order|
        invariant 0 <= i <= |order|
        invariant items == Listed(store, order[..i])
      {
        assert order[..i + 1] == order[..i] + [order[i]];
        ListedSnoc(store, order[..i], order[i]);
        items := items + [(order[i], store[order[i]])];
        i := i + 1;
      }
      assert order[..i] == order;
      ListedKeys(store, order);
    }

    /** `values()`: the value of each key, in iteration order. */
    method Values(order: seq<K>) returns (vs: seq<V>)
      requires Enumerates(order, store.Keys)
      ensures |vs| == |order| && forall i :: 0 <= i < |vs| ==> vs[i] == store[order[i]]
    {
      vs := [];
      var i := 0;
      while i < |order|
        invariant 0 <= i <= |order|
        invariant |vs| == i && forall j :: 0 <= j < i ==> vs[j] == store[order[j]]
      {
        vs := vs + [store[order[i]]];
        i := i + 1;
      }
    }

    /** `__eq__`: NotImplemented unless the other operand is a store; otherwise whether the
        dicts built from both stores' items are equal. */
    method Eq(order: seq<K>, other: Operand<K, V>) returns (r: Equality)
      requires Enumerates(order, store.Keys)
      requires other.AStore? ==> Enumerates(other.order, other.m.Keys)
      ensures r == NotImplemented <==> other.NotAStore?
      ensures other.AStore? ==> r == Equal(store == other.m)
    {
      if other.NotAStore? {
        return NotImplemented;
      }
      var mine := Assign(map[], Listed(store, order));
      var theirs := Assign(map[], Listed(other.m, other.order));
      EqualContents(store, order, other.m, other.order);
      r := Equal(mine == theirs);
    }

    /** `__ne__`: `not self == other`. For an operand that is not a store, `==` falls back to
        identity and is False. */
    method Ne(order: seq<K>, other: Operand<K, V>) returns (b: bool)
      requires Enumerates(order, store.Keys)
      requires other.AStore? ==> Enumerates(other.order, other.m.Keys)
      ensures other.NotAStore? ==> b
      ensures other.AStore? ==> (b <==> store != other.m)
    {
      var e := Eq(order, other);
      b := !(e == Equal(true));
    }

    /** `pop(key, *args)`: more than one extra argument raises TypeError; a present key is
        removed and its value returned; an absent key returns the first extra argument, or,
        with none, raises KeyError from the `del`. */
    method Pop(key: K, args: seq<V>) returns (r: Result<V>)
      modifies this
      ensures |args| > 1 ==> r == Err(TypeError) && store == old(store)
      ensures |args| <= 1 && key in old(store) ==> r == Ok(old(store)[key]) && store == old(store) - {key}
      ensures |args| == 1 && key !in old(store) ==> r == Ok(args[0]) && store == old(store)
      ensures args == [] && key !in old(store) ==> r == Err(KeyError) && store == old(store)
    {
      if |args| > 1 {
        return Err(TypeError);
      }
      var got := Get(key);
      if got.Err? && args != [] {
        return Ok(args[0]);
      }
      var o := Delete(key);
      if o.Fail? {
        return Err(o.error);
      }
      r := got;
    }

    /** `popitem()`: remove and return the first pair `items()` yields; on an empty store
        raise KeyError. */
    method Popitem(order: seq<K>) returns (r: Result<(K, V)>)
      requires Enumerates(order, store.Keys)
      modifies this
      ensures old(store) == map[] ==> r == Err(KeyError) && store == old(store)
      ensures old(store) != map[] ==>
                r.Ok? && r.value == (order[0], old(store)[order[0]]) &&
                store == old(store) - {order[0]} && |store| == |old(store)| - 1
    {
      if order == [] {
        assert store.Keys == {};
        return Err(KeyError);
      }
      var k := order[0];
      var v := store[k];
      var o := Delete(k);
      r := Ok((k, v));
    }

    /** `setdefault(key, default)`: a present key keeps its value, which is returned; an
        absent key is set to the default, which is returned. */
    method Setdefault(key: K, default: V) returns (v: V)
      modifies this
      ensures key in old(store) ==> v == old(store)[key] && store == old(store)
      ensures key !in old(store) ==> v == default && store == old(store)[key := default]
    {
      var got := Get(key);
      if got.Ok? {
        return got.value;
      }
      Set(key, default);
      v := default;
    }

    /** The loop `for k, v in pairs: self[k] = v`. */
    method WriteAll(pairs: seq<(K, V)>)
      modifies this
      ensures store == Assign(old(store), pairs)
    {
      var i := 0;
      while i < |pairs|
        invariant 0 <= i <= |pairs|
        invariant store == Assign(old(store), pairs[..i])
      {
        assert pairs[..i + 1] == pairs[..i] + [pairs[i]];
        AssignSnoc(old(store), pairs[..i], pairs[i]);
        Set(pairs[i].0, pairs[i].1);
        i := i + 1;
      }
      assert pairs[..i] == pairs;
    }

    /** `update(other, **kw)`: write the pairs of `other` (none for `None`), then, when there
        are keyword arguments, `update` again with that dict. */
    method Update(src: Source<K, V>, kw: map<K, V>, kwOrder: seq<K>)
      requires Listable(src) && Enumerates(kwOrder, kw.Keys)
      modifies this
      ensures store == Updated(old(store), src, kw, kwOrder)
      decreases |kwOrder|
    {
      WriteAll(SourcePairs(src));
      if kwOrder != [] {
        var none: map<K, V> := map[];
        assert Enumerates([], none.Keys);
        Update(MappingOf(kw, kwOrder), none, []);
      } else {
        assert Listed(kw, kwOrder) == [];
      }
    }

    /** `__len__`: the number of keys. */
    method Len(order: seq<K>) returns (n: nat)
      requires Enumerates(order, store.Keys)
      ensures n == |store|
    {
      EnumeratesSize(order, store.Keys);
      n := |order|;
    }

    /** `clear()`: delete every key of a snapshot of `keys()`, leaving the store empty. */
    method Clear(order: seq<K>)
      requires Enumerates(order, store.Keys)
      modifies this
      ensures store == map[]
    {
      var i := 0;
      while i < |order|
        invariant 0 <= i <= |order|
        invariant forall k :: k in store <==> k in order[i..]
      {
        var o := Delete(order[i]);
        DistinctTail(order[i..]);
        assert order[i..][1..] == order[i + 1..];
        i := i + 1;
      }
    }
  }

  /** `SyncStore`: values pass through `dumps` on the way in and `loads` on the way out, and a
      successful write or delete is followed by a call of the backend's `sync` hook when it has
      one (`syncs` counts those calls; without a hook the AttributeError is swallowed). */
  class SyncStore<K(==), T> {
    var store: map<K, Base.Bytes>
    var syncs: nat
    const codec: Base.Codec<T>
    const setting: Base.Compression
    const hasSync: bool

    constructor (codec: Base.Codec<T>, setting: Base.Compression, hasSync: bool)
      ensures store == map[] && syncs == 0
      ensures this.codec == codec && this.setting == setting && this.hasSync == hasSync
    {
      store, syncs := map[], 0;
      this.codec, this.setting, this.hasSync := codec, setting, hasSync;
    }

    /** `__getitem__` (ClientStore's): the stored bytes through `loads`. */
    method Get(key: K) returns (r: Result<T>)
      ensures key in store ==> r == Ok(Base.Loads(codec, setting, store[key]))
      ensures key !in store ==> r == Err(KeyError)
    {
      if key in store {
        r := Ok(Base.Loads(codec, setting, store[key]));
      } else {
        r := Err(KeyError);
      }
    }

    /** `__setitem__`: store `dumps(value)`, then sync. */
    method Set(key: K, value: T)
      modifies this
      ensures store == old(store)[key := Base.Dumps(codec, setting, value)]
      ensures syncs == old(syncs) + (if hasSync then 1 else 0)
    {
      store := store[key := Base.Dumps(codec, setting, value)];
      if hasSync {
        syncs := syncs + 1;
      }
    }

    /** `__delitem__`: remove the key and sync; an absent key raises KeyError before the sync
        is reached. */
    method Delete(key: K) returns (o: Outcome)
      modifies this
      ensures key in old(store) ==>
                o == Pass && store == old(store) - {key} && syncs == old(syncs) + (if hasSync then 1 else 0)
      ensures key !in old(store) ==> o == Fail(KeyError) && store == old(store) && syncs == old(syncs)
    {
      if key !in store {
        return Fail(KeyError);
      }
      store := store - {key};
      if hasSync {
        syncs := syncs + 1;
      }
      o := Pass;
    }
  }

  /** A value written into a SyncStore reads back as itself whenever the codec's routines
      undo one another. */
  method SyncRoundTrip<K(==), T>(s: SyncStore<K, T>, key: K, value: T) returns (r: Result<T>)
    requires forall v :: s.codec.ld(s.codec.optimize(v)) == v
    requires forall b :: s.codec.decompress(s.codec.compress(b, 9)) == Some(b)
    modifies s
    ensures r == Ok(value)
  {
    Base.LoadsDumps(s.codec, s.setting, value);
    s.Set(key, value);
    r := s.Get(key);
  }
}
