/** trunk/shove/store/__init__.py: the older `BaseStore` mixin and `SyncStore`. Its `clear`,
    `items`, `values`, `pop`, `popitem`, `setdefault`, `update` and `__len__` do what
    shove/store.py's do over a dict-backed store, so the store is Store.SimpleStore; what
    differs is the comparison (`__cmp__` instead of `__eq__`) and a sync hook that is always
    called. */
module TrunkStore {
  import opened Wrappers
  import opened Dicts
  import Store

  type BaseStore<K(==), V(==)> = Store.SimpleStore<K, V>

  /** The right-hand operand of a comparison: None, another store (its contents and item
      order), or anything else. */
  datatype Other<K, V> = NoneOperand | StoreOperand(m: map<K, V>, order: seq<K>) | OtherOperand

  /** What `__cmp__` returns: `False` (which Python 2 reads as 0, "equal"), the result of
      comparing the two item dicts (0 exactly when they are equal), or, falling off the end,
      `None`. */
  datatype Cmp = CmpFalse | Compared(equal: bool) | CmpNone

  /** `__cmp__` of a store holding `m`, whose items are listed in `order`. */
  function CmpWith<K, V(==)>(m: map<K, V>, order: seq<K>, other: Other<K, V>): (r: Cmp)
    requires Enumerates(order, m.Keys)
    requires other.StoreOperand? ==> Enumerates(other.order, other.m.Keys)
    ensures other.NoneOperand? <==> r == CmpFalse
    ensures other.OtherOperand? <==> r == CmpNone
    ensures other.StoreOperand? ==> r == Compared(m == other.m)
  {
    match other
    case NoneOperand => CmpFalse
    case StoreOperand(m2, order2) =>
      Store.EqualContents(m, order, m2, order2);
      Compared(Assign(map[], Listed(m, order)) == Assign(map[], Listed(m2, order2)))
    case OtherOperand => CmpNone
  }

  /** `SyncStore`: a store whose `__setitem__` and `__delitem__` are followed by a call of
      `sync`; without such a hook that call raises AttributeError after the write or delete
      has happened. `syncs` counts the calls. */
  class SyncStore<K(==), V> {
    var store: map<K, V>
    var syncs: nat
    const hasSync: bool

    constructor (hasSync: bool)
      ensures store == map[] && syncs == 0 && this.hasSync == hasSync
    {
      store, syncs, this.hasSync := map[], 0, hasSync;
    }

    /** `__setitem__`, then `sync()`. */
    method Set(key: K, value: V) returns (o: Outcome)
      modifies this
      ensures store == old(store)[key := value]
      ensures hasSync ==> o == Pass && syncs == old(syncs) + 1
      ensures !hasSync ==> o == Fail(AttributeError) && syncs == old(syncs)
    {
      store := store[key := value];
      o := Sync();
    }

    /** `__delitem__`, then `sync()`; an absent key raises KeyError before the sync. */
    method Delete(key: K) returns (o: Outcome)
      modifies this
      ensures key !in old(store) ==> o == Fail(KeyError) && store == old(store) && syncs == old(syncs)
      ensures key in old(store) ==> store == old(store) - {key}
      ensures key in old(store) && hasSync ==> o == Pass && syncs == old(syncs) + 1
      ensures key in old(store) && !hasSync ==> o == Fail(AttributeError) && syncs == old(syncs)
    {
      if key !in store {
        return Fail(KeyError);
      }
      store := store - {key};
      o := Sync();
    }

    /** `self.sync()`: the backend's hook, or AttributeError when it has none. */
    method Sync() returns (o: Outcome)
      modifies this
      ensures store == old(store)
      ensures hasSync ==> o == Pass && syncs == old(syncs) + 1
      ensures !hasSync ==> o == Fail(AttributeError) && syncs == old(syncs)
    {
      if !hasSync {
        return Fail(AttributeError);
      }
      syncs := syncs + 1;
      o := Pass;
    }
  }
}
