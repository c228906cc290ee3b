/** trunk/shove/__init__.py: the older frontend. `Base` supplies `__contains__`, `get` and
    `get_many` over a mapping's `__getitem__`; `Shove` opens a store and a cache from their
    URIs and puts the cache in front of the store. Its `__setitem__` writes the cache only
    and nothing ever fills its `_buffer`, so values set through it never reach the store. */
module TrunkShove {
  import opened Wrappers
  import opened Dicts
  import Base
  import Core

  /** The scheme of a URI: `uri.split(':', 1)[0]`, the text before the first colon (all of
      it when there is none). */
  function Scheme(uri: string): (r: string)
    ensures |r| <= |uri| && r == uri[..|r|]
    ensures ':' !in r
    ensures |r| < |uri| ==> uri[|r|] == ':'
  {
    if uri == [] || uri[0] == ':' then [] else [uri[0]] + Scheme(uri[1..])
  }

  /** A scheme written in front of the rest of a URI is read back. */
  lemma {:induction false} SchemeOfUri(scheme: string, rest: string)
    requires ':' !in scheme
    ensures Scheme(scheme + ":" + rest) == scheme
  {
    if scheme != [] {
      assert (scheme + ":" + rest)[1..] == scheme[1..] + ":" + rest;
      SchemeOfUri(scheme[1..], rest);
    }
  }

  /** The store registry: scheme to backend class. */
  const Stores: map<string, string> := map[
    "simple" := "shove.store.simple.SimpleStore",
    "memory" := "shove.store.memory.MemoryStore",
    "file" := "shove.store.file.FileStore",
    "bsddb" := "shove.store.bsddb.BsddbStore",
    "sqlite" := "shove.store.db.DbStore",
    "postgres" := "shove.store.db.DbStore",
    "mysql" := "shove.store.db.DbStore",
    "oracle" := "shove.store.db.DbStore",
    "svn" := "shove.store.svn.SvnStore",
    "s3" := "shove.store.s3.S3Store",
    "ftp" := "shove.store.ftp.FtpStore",
    "zodb" := "shove.store.zodb.ZodbStore",
    "durusdb" := "shove.store.durusdb.DurusStore"]

  /** The cache registry: scheme to backend class. */
  const Caches: map<string, string> := map[
    "simple" := "shove.cache.simple.SimpleCache",
    "memory" := "shove.cache.memory.MemoryCache",
    "file" := "shove.cache.file.FileCache",
    "sqlite" := "shove.cache.db.DbCache",
    "postgres" := "shove.cache.db.DbCache",
    "mysql" := "shove.cache.db.DbCache",
    "oracle" := "shove.cache.db.DbCache",
    "memcached" := "shove.cache.memcached.MemCached",
    "bsddb" := "shove.cache.bsddb.BsddbCache"]

  /** A backend loads when its scheme is registered and the module behind it imports;
      `importable` stands for the import, which the model does not perform. */
  predicate Loadable(registry: map<string, string>, scheme: string, importable: string -> bool) {
    scheme in registry && importable(registry[scheme])
  }

  /** Some registrations: both tiers know `simple://`, only caches know `memcached://`, only
      stores know `s3://`, and an unregistered scheme never loads. */
  lemma Registrations(importable: string -> bool)
    ensures Stores["simple"] == "shove.store.simple.SimpleStore"
    ensures Caches["simple"] == "shove.cache.simple.SimpleCache"
    ensures "memcached" in Caches && "memcached" !in Stores
    ensures "s3" in Stores && "s3" !in Caches
    ensures !Loadable(Stores, "http", importable) && !Loadable(Caches, "http", importable)
  {
  }

  /** `Base.get(key, default)` given the outcome of `self[key]`: KeyError gives the default,
      anything else is passed on. */
  function GetDefault<V>(lookup: Result<V>, default: V): (r: Result<V>)
    ensures lookup.Ok? ==> r == lookup
    ensures lookup == Err(KeyError) ==> r == Ok(default)
    ensures r.Err? <==> lookup.Err? && lookup.error != KeyError
    ensures r.Err? ==> r == lookup
  {
    if lookup == Err(KeyError) then Ok(default) else lookup
  }

  /** `get` and `__contains__` agree: a key is contained exactly when `get` passes on the
      lookup, it is absent exactly when `get` falls back to the default, and both raise the
      same other errors. */
  lemma GetContains<V>(lookup: Result<V>, default: V)
    ensures Base.ContainsOf(lookup) == Ok(true) ==> GetDefault(lookup, default) == lookup
    ensures Base.ContainsOf(lookup) == Ok(false) ==> GetDefault(lookup, default) == Ok(default)
    ensures Base.ContainsOf(lookup).Err? <==> GetDefault(lookup, default).Err?
  {
  }

  /** A lookup that `get` does not catch. */
  predicate Escapes<V>(lookup: Result<V>) {
    lookup.Err? && lookup.error != KeyError
  }

  /** A lookup that finds a value other than `None`. */
  predicate Found<V>(lookup: Result<Option<V>>) {
    lookup.Ok? && lookup.value.Some?
  }

  /** `get_many(keys)`: `lookup(k)` is `self[k]`, whose stored value may be `None`. The
      response holds exactly the requested keys whose value was found and is not `None`;
      the first error other than KeyError aborts the call. */
  method GetMany<K(==), V>(keys: seq<K>, lookup: K -> Result<Option<V>>) returns (r: Result<map<K, V>>)
    ensures r.Ok? <==> forall i :: 0 <= i < |keys| ==> !Escapes(lookup(keys[i]))
    ensures r.Ok? ==> forall k :: k in r.value <==> k in keys && Found(lookup(k))
    ensures r.Ok? ==> forall k :: k in r.value ==> lookup(k) == Ok(Some(r.value[k]))
    ensures r.Err? ==> exists i :: 0 <= i < |keys| && Escapes(lookup(keys[i])) && r.error == lookup(keys[i]).error
  {
    var response: map<K, V> := map[];
    var i := 0;
    while i < |keys|
      invariant 0 <= i <= |keys|
      invariant forall j :: 0 <= j < i ==> !Escapes(lookup(keys[j]))
      invariant forall k :: k in response <==> k in keys[..i] && Found(lookup(k))
      invariant forall k :: k in response ==> lookup(k) == Ok(Some(response[k]))
    {
      var v := GetDefault(lookup(keys[i]), None);
      if v.Err? {
        return Err(v.error);
      }
      assert keys[..i + 1] == keys[..i] + [keys[i]];
      if v.value.Some? {
        response := response[keys[i] := v.value.value];
      }
      i := i + 1;
    }
    assert keys[..i] == keys;
    r := Ok(response);
  }

  /** The older `Shove`. `open` is false once `close` has replaced store, cache and buffer
      with `None`; `store` is what the backing store holds. */
  class Shove<K(==), V> {
    var store: map<K, V>
    var cache: map<K, V>
    var buffer: map<K, V>
    var open: bool
    /** `kw.get('limit', 3)`: construction fails on every keyword, so this is always 3. */
    const limit: int := 3

    /** Nothing is ever buffered. */
    ghost predicate Valid()
      reads this
    {
      buffer == map[]
    }

    constructor (initial: map<K, V>)
      ensures store == initial && cache == map[] && buffer == map[] && open && Valid()
    {
      store, cache, buffer, open := initial, map[], map[], true;
    }

    /** `__getitem__`: a cache hit answers; a miss syncs, reads the store (KeyError when it
        lacks the key) and copies the value into the cache. A closed frontend raises
        TypeError on `None[key]`. */
    method Get(key: K) returns (r: Result<V>)
      modifies this
      ensures !old(open) ==> r == Err(TypeError) && unchanged(this)
      ensures old(open) && key in old(cache) ==> r == Ok(old(cache)[key]) && unchanged(this)
      ensures old(open) && key !in old(cache) ==> store == old(store) + old(buffer) && buffer == map[] && open
      ensures old(open) && key !in old(cache) && key in store ==>
        r == Ok(store[key]) && cache == old(cache)[key := store[key]]
      ensures old(open) && key !in old(cache) && key !in store ==> r == Err(KeyError) && cache == old(cache)
      ensures old(Valid()) ==> Valid()
    {
      if !open {
        return Err(TypeError);
      }
      if key in cache {
        return Ok(cache[key]);
      }
      var o := Sync();
      if key !in store {
        return Err(KeyError);
      }
      cache := cache[key := store[key]];
      r := Ok(store[key]);
    }

    /** `__setitem__`: writes the cache, then syncs only when the buffer has reached the
        limit, which an empty buffer never does. Closed: TypeError. */
    method Set(key: K, value: V) returns (o: Outcome)
      modifies this
      ensures !old(open) ==> o == Fail(TypeError) && unchanged(this)
      ensures old(open) ==> o == Pass && cache == old(cache)[key := value] && open
      ensures old(open) && |old(buffer)| < limit ==> store == old(store) && buffer == old(buffer)
      ensures old(open) && |old(buffer)| >= limit ==> store == old(store) + old(buffer) && buffer == map[]
      ensures old(Valid()) ==> Valid() && store == old(store)
    {
      if !open {
        return Fail(TypeError);
      }
      cache := cache[key := value];
      if |buffer| >= limit {
        o := Sync();
      }
      o := Pass;
    }

    /** `__delitem__`: drops the key from the cache (a miss is ignored), syncs, then deletes
        it from the store, raising KeyError when the store lacks it. Closed: TypeError from
        `del None[key]`. */
    method Delete(key: K) returns (o: Outcome)
      modifies this
      ensures !old(open) ==> o == Fail(TypeError) && unchanged(this)
      ensures old(open) ==> cache == old(cache) - {key} && buffer == map[] && open
      ensures old(open) && key in old(store) + old(buffer) ==> o == Pass && store == (old(store) + old(buffer)) - {key}
      ensures old(open) && key !in old(store) + old(buffer) ==> o == Fail(KeyError) && store == old(store) + old(buffer)
      ensures old(Valid()) ==> Valid()
    {
      if !open {
        return Fail(TypeError);
      }
      cache := cache - {key};
      o := Sync();
      if key !in store {
        return Fail(KeyError);
      }
      store := store - {key};
      o := Pass;
    }

    /** `keys()`: syncs, then lists the store's keys. Closed: AttributeError from the sync. */
    method Keys() returns (r: Result<seq<K>>)
      modifies this
      ensures !old(open) ==> r == Err(AttributeError) && unchanged(this)
      ensures old(open) ==> store == old(store) + old(buffer) && buffer == map[] && cache == old(cache) && open
      ensures old(open) ==> r.Ok? && Enumerates(r.value, store.Keys)
    {
      var o := Sync();
      if o.Fail? {
        return Err(o.error);
      }
      var ks := EnumerateKeys(store);
      r := Ok(ks);
    }

    /** `len(self)`, inherited from the store base: `len(self.keys())`. */
    method Len() returns (r: Result<nat>)
      modifies this
      ensures !old(open) ==> r == Err(AttributeError) && unchanged(this)
      ensures old(open) ==> store == old(store) + old(buffer) && buffer == map[] && cache == old(cache) && open
      ensures old(open) ==> r == Ok(|store|)
    {
      var ks := Keys();
      if ks.Err? {
        return Err(ks.error);
      }
      EnumeratesSize(ks.value, store.Keys);
      r := Ok(|ks.value|);
    }

    /** `sync`: writes every buffered pair into the store, then empties the buffer. Closed:
        AttributeError from `None.iteritems()`. */
    method Sync() returns (o: Outcome)
      modifies this
      ensures !old(open) ==> o == Fail(AttributeError) && unchanged(this)
      ensures old(open) ==> o == Pass && store == old(store) + old(buffer) && buffer == map[]
      ensures old(open) ==> cache == old(cache) && open
    {
      if !open {
        return Fail(AttributeError);
      }
      store := Core.Flush(store, buffer);
      buffer := map[];
      o := Pass;
    }

    /** `close`: syncs and releases the fields. There is no guard against a second call,
        whose sync raises AttributeError. */
    method Close() returns (o: Outcome)
      modifies this
      ensures !old(open) ==> o == Fail(AttributeError) && unchanged(this)
      ensures old(open) ==> o == Pass && !open && store == old(store) + old(buffer)
      ensures old(open) ==> cache == map[] && buffer == map[]
    {
      o := Sync();
      if o.Fail? {
        return;
      }
      cache, open := map[], false;
    }
  }

  /** `Shove(store, cache, **kw)`. The store base's `__init__` takes no keywords, so any
      keyword raises TypeError before a backend is looked at; then an unregistered or
      unimportable store scheme, and after it a cache scheme, raises ImportError. `initial`
      is what the store backend already holds. */
  method Open<K(==), V>(storeUri: string, cacheUri: string, keywords: bool, importable: string -> bool,
                        initial: map<K, V>) returns (r: Result<Shove<K, V>>)
    ensures keywords ==> r == Err(TypeError)
    ensures !keywords && !Loadable(Stores, Scheme(storeUri), importable) ==> r == Err(ImportError)
    ensures !keywords && Loadable(Stores, Scheme(storeUri), importable) && !Loadable(Caches, Scheme(cacheUri), importable) ==>
      r == Err(ImportError)
    ensures r.Ok? <==>
      !keywords && Loadable(Stores, Scheme(storeUri), importable) && Loadable(Caches, Scheme(cacheUri), importable)
    ensures r.Ok? ==> fresh(r.value) && r.value.open && r.value.Valid()
    ensures r.Ok? ==> r.value.store == initial && r.value.cache == map[]
  {
    if keywords {
      return Err(TypeError);
    }
    if !Loadable(Stores, Scheme(storeUri), importable) {
      return Err(ImportError);
    }
    if !Loadable(Caches, Scheme(cacheUri), importable) {
      return Err(ImportError);
    }
    var s := new Shove<K, V>(initial);
    r := Ok(s);
  }

  /** A value set through the frontend stays in the cache: after a close the store still
      lacks it, so a frontend reopened over that store cannot find it. */
  method LostOnClose<V>(v: V) returns (got: Result<V>)
    ensures got == Err(KeyError)
  {
    var none: map<string, V> := map[];
    var s := new Shove<string, V>(none);
    var o := s.Set("max", v);
    o := s.Close();
    var t := new Shove<string, V>(s.store);
    got := t.Get("max");
  }

  /** Deleting a key that was only set raises KeyError: the store never received it. */
  method DeleteAfterSet<V>(v: V) returns (o: Outcome, cached: bool)
    ensures o == Fail(KeyError) && !cached
  {
    var none: map<string, V> := map[];
    var s := new Shove<string, V>(none);
    o := s.Set("max", v);
    o := s.Delete("max");
    cached := "max" in s.cache;
  }
}
