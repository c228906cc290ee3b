/** shove/multi.py: the older `MultiShove`. Its `__getitem__`, `__setitem__`, `__delitem__`,
    `keys`, `sync` and `close` do what shove/core.py's do, so the alias below stands for
    those methods only. Its `__len__` and `clear` come from its base class instead: the
    alias's `Len` and `Clear` are shove/core.py's and do not model them. */
module Multi {
  import opened Wrappers
  import Core

  type MultiShove<K(==), V> = Core.MultiShove<K, V>

  /** `MultiShove()` with no store arguments: a single empty `simple://` store, and a flush
      once two writes are buffered. */
  method Defaults<K(==), V>() returns (m: MultiShove<K, V>)
    ensures fresh(m) && m.Valid() && m.Coherent() && m.open
    ensures m.stores == [map[]] && m.cache == map[] && m.buffer == map[] && m.syncEvery == 2
  {
    m := new Core.MultiShove<K, V>([], None);
  }

  /** With two stores and the default threshold, two writes of different keys reach both
      stores, and a lookup then answers from the cache. */
  method TwoStoresMirror<V>(v1: V, v2: V) returns (got: Result<V>)
    ensures got == Ok(v1)
  {
    var none: map<string, V> := map[];
    var m := new Core.MultiShove<string, V>([none, none], None);
    var o := m.Set("max", v1);
    o := m.Set("min", v2);
    assert m.stores[0] == m.stores[1] == map["max" := v1, "min" := v2];
    got := m.Get("max");
  }
}
