/** shove/base.py: the `Base` mixin (membership through lookup, the `dumps`/`loads` codec
    path) and `Mapping`, the dict wrapper the timed caches of shove/cache.py sit on. */
module Base {
  import opened Wrappers
  import opened Dicts

  type Bytes = seq<bv8>

  /** The routines `dumps` and `loads` compose, taken as given: `optimize` and `ld` serialise
      and deserialise, `compress(data, level)` and `decompress` are zlib's, where
      `decompress` yields None for data that is not a compressed stream (zlib's `error`). */
  datatype Codec<!T> = Codec(optimize: T -> Bytes, ld: Bytes -> T,
                            compress: (Bytes, int) -> Bytes, decompress: Bytes -> Option<Bytes>)

  /** The `compress` keyword: a flag (False by default) or an integer compression level. */
  datatype Compression = Flag(on: bool) | Level(n: int)

  /** Python truthiness of the keyword. */
  predicate Truthy(c: Compression) {
    match c
    case Flag(b) => b
    case Level(n) => n != 0
  }

  /** `__init__`: `kw.get('compress', False)`. */
  function CompressionOf(kw: Option<Compression>): Compression {
    kw.GetOr(Flag(false))
  }

  /** `dumps`: serialise, then compress when the keyword is truthy. Inside that branch the
      level expression `9 if compression else compression` always yields 9. */
  function Dumps<T>(codec: Codec<T>, setting: Compression, value: T): Bytes {
    var data := codec.optimize(value);
    if Truthy(setting) then codec.compress(data, 9) else data
  }

  /** `loads`: when the keyword is truthy try to decompress, keeping the input as it is if it
      is not a compressed stream; then deserialise. */
  function Loads<T>(codec: Codec<T>, setting: Compression, data: Bytes): T {
    var raw := if Truthy(setting) then codec.decompress(data).GetOr(data) else data;
    codec.ld(raw)
  }

  /** The requested level never matters: every truthy keyword compresses at level 9, every
      falsy one leaves the serialised form uncompressed. */
  lemma DumpsLevel<T>(codec: Codec<T>, setting: Compression, value: T)
    ensures Truthy(setting) ==> Dumps(codec, setting, value) == codec.compress(codec.optimize(value), 9)
    ensures Truthy(setting) ==> Dumps(codec, setting, value) == Dumps(codec, Level(9), value)
    ensures !Truthy(setting) ==> Dumps(codec, setting, value) == codec.optimize(value)
    ensures !Truthy(setting) ==> Dumps(codec, setting, value) == Dumps(codec, CompressionOf(None), value)
  {
  }

  /** `loads` undoes `dumps` under the same keyword, whenever deserialisation undoes
      serialisation and decompression undoes level-9 compression. */
  lemma LoadsDumps<T>(codec: Codec<T>, setting: Compression, value: T)
    requires forall v :: codec.ld(codec.optimize(v)) == v
    requires forall b :: codec.decompress(codec.compress(b, 9)) == Some(b)
    ensures Loads(codec, setting, Dumps(codec, setting, value)) == value
  {
  }

  /** With compression on, data that does not decompress is deserialised as it is; with it
      off, nothing is decompressed at all. */
  lemma LoadsFallback<T>(codec: Codec<T>, setting: Compression, data: Bytes)
    ensures Truthy(setting) && codec.decompress(data) == None ==> Loads(codec, setting, data) == codec.ld(data)
    ensures !Truthy(setting) ==> Loads(codec, setting, data) == codec.ld(data)
  {
  }

  /** `__contains__`: look the key up; KeyError means absent, any other exception
      propagates. */
  function ContainsOf<V>(lookup: Result<V>): (r: Result<bool>)
    ensures r == Ok(true) <==> lookup.Ok?
    ensures r == Ok(false) <==> lookup == Err(KeyError)
    ensures r.Err? <==> lookup.Err? && lookup.error != KeyError
  {
    match lookup
    case Ok(_) => Ok(true)
    case Err(KeyError) => Ok(false)
    case Err(e) => Err(e)
  }

  /** `Mapping`: a dict in `_store`; any failure to find a key surfaces as KeyError. */
  class Mapping<K(==), V> {
    var store: map<K, V>

    constructor ()
      ensures store == map[]
    {
      store := map[];
    }

    /** `__getitem__`. */
    method Get(key: K) returns (r: Result<V>)
      ensures r.Ok? <==> key in store
      ensures r.Ok? ==> r.value == store[key]
      ensures r.Err? ==> r.error == KeyError
    {
      if key in store {
        r := Ok(store[key]);
      } else {
        r := Err(KeyError);
      }
    }

    /** `__setitem__`. */
    method Set(key: K, value: V)
      modifies this
      ensures store == old(store)[key := value]
    {
      store := store[key := value];
    }

    /** `__delitem__`: remove the key, or raise KeyError and change nothing. */
    method Delete(key: K) returns (o: Outcome)
      modifies this
      ensures key in old(store) ==> o == Pass && store == old(store) - {key}
      ensures key !in old(store) ==> o == Fail(KeyError) && store == old(store)
    {
      if key in store {
        store := store - {key};
        o := Pass;
      } else {
        o := Fail(KeyError);
      }
    }

    /** `__iter__`: every stored key once. */
    method Iter() returns (ks: seq<K>)
      ensures Enumerates(ks, store.Keys)
    {
      ks := EnumerateKeys(store);
    }

    /** `__len__`. */
    method Len() returns (n: nat)
      ensures n == |store|
    {
      n := |store|;
    }

    /** `key in mapping` (Base.__contains__ over `__getitem__`): true exactly for stored keys. */
    method Contains(key: K) returns (b: bool)
      ensures b <==> key in store
    {
      var r := Get(key);
      var c := ContainsOf(r);
      b := c == Ok(true);
    }
  }

  /** A value written with `Set` is what `Get` returns, and `Contains` then holds; after
      `Delete` the key is gone. */
  method SetGetDelete<K(==), V>(m: Mapping<K, V>, key: K, value: V) returns (got: Result<V>, present: bool, gone: bool)
    modifies m
    ensures got == Ok(value) && present && !gone
    ensures m.store == old(m.store) - {key}
  {
    m.Set(key, value);
    got := m.Get(key);
    present := m.Contains(key);
    var o := m.Delete(key);
    gone := m.Contains(key);
  }
}
