# Shove: a verified model of the key-value overlay

Shove puts one interface in front of many key-value backends: a dict-like frontend holds
a cache, a buffer of pending writes and one or more backing stores. This project models,
in Dafny, the part of Shove that is plain sequential logic over dicts, a deque and
integer counters, in both the current tree (`shove/`) and the older one (`trunk/shove/`):

- **Timed caches with a bounded cull.** Every entry carries an expiry time, and a lookup
  past it deletes the entry and raises KeyError. Before an assignment into a full cache,
  `_cull` sweeps for expired entries up to a quota, then deletes random keys from a
  snapshot. These caches are `Expiry` and `CacheCore.SimpleCache`. shove/cache.py's
  `Cache.SimpleCache` and `Cache.SimpleLRUCache` use the same cull, but there the sweep
  runs over the live dict and raises RuntimeError once it deletes an entry. The model of
  that code as written is `Cache.EnumCullLive`. The two classes themselves use the
  corrected cull, `Cache.EnumCull`, which sweeps a snapshot (Findings, row 1). The older
  two-dict cache is `TrunkSimpleCache.SimpleCache`, which likewise uses its corrected cull
  (Findings, row 2).
- **Approximate least-recently-used eviction.** Two fields track recency:
  - an append-only access queue, `_queue`;
  - a reference count per key, `_refcount`.

  Eviction pops from the front of the queue and deletes a key when its count reaches 0.
  The queue is compacted once it grows past four times `max_entries`. The value-level
  loops are in `Recency`. The classes are `Backends.LRUBase` and `Cache.SimpleLRUCache`.
- **Write-buffered frontends.** A set goes into the cache and the buffer, and the buffer
  is flushed at a threshold. A lookup miss or a delete flushes first. `MultiShove.sync`
  writes every buffered pair into every store. These are `Core.Shove`, `Core.MultiShove`,
  `Multi` and `TrunkShove.Shove`.
- **The dict-mixin operations** every store has: `pop`, `popitem`, `setdefault`,
  `update`, `clear`, `__eq__`, `items`, `values`, `__contains__`, `get` and `get_many`.
  They are in `Store`, `TrunkStore`, `Base` and `TrunkShove`.

The model abstracts the environment as follows:

- A backing store or cache appears as its contents, a `map`.
- A Python exception is a `Result`/`Outcome` carrying the exception's name.
- The clock is an integer parameter `now`.
- `random.choice` is a parameter `pick: nat -> nat`: the n-th draw of a cull takes index
  `pick(n) % |keys|` of the snapshot.
- The order in which a dict lists its keys is a parameter `order` that enumerates the
  keys.
- `dumps`/`loads` compose uninterpreted serialisation and compression routines
  (`Base.Codec`).
- A frontend after `close`, whose fields are None, is `open == false`. Each operation on
  it returns the exception Python raises on a None field.

The code runs under Python 2, and the model follows that:

- `dict.keys()` returns a list snapshot.
- Iterating over a dict while it changes size raises RuntimeError.
- `None` is less than every number.
- `int()` of a string strips whitespace and takes an optional sign and decimal digits.

Where the code and its own description differ, the model follows the code:

- The trunk `Shove.__init__` passes its keywords to a base `__init__` that takes none. So
  any keyword raises TypeError, and the `limit` read from the keywords is always 3.
- The trunk `Shove.__setitem__` never fills `_buffer`, so a value set through it never
  reaches the store.
- `shove/cache.py` counts its sweep with the `enumerate` index, not with a removal counter.

Modules, one per source file, plus shared helpers:

| module | file | source |
|---|---|---|
| Wrappers | wrappers.dfy | the Python exceptions, Option, Result, Outcome |
| Dicts | dicts.dfy | dict enumeration, `for k, v in pairs: d[k] = v` |
| Recency | recency.dfy | the queue/refcount bookkeeping of shove/backends.py and shove/cache.py |
| Expiry | expiry.dfy | timed entries, the lookup and the two-phase cull of shove/cache/core.py |
| Backends | backends.dfy | shove/backends.py |
| CacheCore | cache_core.dfy | shove/cache/core.py |
| Cache | cache.dfy | shove/cache.py |
| Base | base.dfy | shove/base.py |
| Store | store.dfy | shove/store.py |
| Core | core.dfy | shove/core.py |
| Multi | multi.dfy | shove/multi.py |
| TrunkStore | trunk_store.dfy | trunk/shove/store/__init__.py |
| TrunkShove | trunk_shove.dfy | trunk/shove/__init__.py |
| TrunkSimpleCache | trunk_simple_cache.dfy | trunk/shove/cache/simple.py |

## Model

| member | source | states |
|---|---|---|
| Dicts.EnumerateKeys | shove/backends.py:104-108 | `keys()` lists every key of the dict exactly once |
| Dicts.AssignLaterWins | shove/store.py:102-119 | writing pairs one after another: the keys are the old keys plus the named ones; an unnamed key keeps its value; a named key ends with the value of its last pair |
| Dicts.DictOfItems | shove/store.py:20-23 | `dict(store.items())` rebuilds exactly the store's contents, whatever the item order |
| Recency.KeepLast | shove/backends.py:150-158 | definition of what compaction leaves: the last occurrence of every key, in queue order; KeepLastOnce, KeepLastMember, KeepLastDistinct and KeepLastRecent state its properties, and CompactPass proves the loop computes it |
| Recency.Touch | shove/backends.py:147-158 | definition of `_housekeep(key)`: append the key, add one to its count and, past `4 * max_entries`, compact; TouchCounted, TouchRecent, TouchCompacts and TouchTracked state its properties, and Housekeep proves the statements compute it |
| Recency.PopOne | shove/backends.py:140-145 | definition of one eviction turn: pop the oldest access, decrement its count, and at 0 delete the key (KeyError when the store lost it) and its count; PopCount, PopCounted and PopTracked state its properties |
| Recency.Evict | shove/backends.py:134-145 | definition of the eviction loop: PopOne while the store is over `max_entries`, IndexError on an empty queue; EvictTracked, EvictSuffix, EvictOutcome, EvictLeastRecent and EvictExact state its properties, and EvictOverflow proves the loop computes it |
| Recency.KeepLastOnce | shove/backends.py:150-158 | compaction leaves every queued key exactly once and adds no key |
| Recency.KeepLastMember | shove/backends.py:150-158 | a key is in the compacted queue exactly when it was in the queue |
| Recency.KeepLastDistinct | shove/backends.py:150-158 | the compacted queue has no duplicates |
| Recency.KeepLastRecent | shove/backends.py:147-158 | the access just appended is still last after compaction |
| Recency.TouchCounted | shove/backends.py:147-158 | `_housekeep` keeps every count equal to the key's number of queue occurrences |
| Recency.AppendCounted | shove/backends.py:148-149 | appending an access and adding one to its count keeps the counts exact |
| Recency.CompactCounted | shove/backends.py:150-158 | a compaction pass keeps the counts exact |
| Recency.TouchRecent | shove/cache.py:185-196 | after `_housekeep(key)` the key is the newest entry, and the queue names exactly the old keys plus `key` |
| Recency.TouchCompacts | shove/backends.py:150-158 | once the queue passes `4 * max_entries`, it is left duplicate-free with count 1 for every queued key |
| Recency.PopCount | shove/backends.py:141-142 | the popped key is counted; its remaining count equals its remaining occurrences; other keys stay queued |
| Recency.PopCounted | shove/backends.py:141-145 | decrementing the popped key's count, or dropping it at 0, keeps the counts exact |
| Recency.PopTracked | shove/backends.py:140-145 | one eviction step keeps the invariant and changes no value; it fails only with KeyError, on a key the store lost; a stored key stays exactly when still queued; stale-free bookkeeping never fails |
| Recency.EvictTracked | shove/backends.py:134-145 | the eviction loop keeps the invariant and only removes stored keys, with values unchanged |
| Recency.EvictSuffix | shove/backends.py:140-141 | the eviction loop consumes a prefix of the queue |
| Recency.EvictOutcome | shove/backends.py:134-145 | with `max_entries >= 0` the loop never pops an empty queue; it fails only with KeyError, and when it passes the store is within `max_entries` |
| Recency.EvictLeastRecent | shove/backends.py:140-145 | a stored key survives eviction exactly when one of its accesses lies in the unconsumed part of the queue |
| Recency.TouchTracked | shove/cache.py:159-167 | recording an access keeps the cache invariant |
| Recency.WriteTracked | shove/backends.py:131-133 | storing a value and recording the access keeps the invariant, and keeps stale-free bookkeeping stale-free |
| Recency.TouchExact | shove/backends.py:121-129 | recording a hit keeps the bookkeeping stale-free |
| Recency.EvictExact | shove/backends.py:134-145 | without stale entries, eviction always ends normally, within the bound, and stays stale-free |
| Recency.EvictKeepsNewest | shove/backends.py:131-145 | with room for one entry, eviction never removes the key just written |
| Recency.CompactStep | shove/backends.py:153-158 | the test `refcount[k] == 1` holds exactly on a key's last queue entry, and each step keeps the pass's counts |
| Recency.Housekeep | shove/backends.py:147-158 | the `_housekeep` statements compute Touch: append, count and, past `4 * max_entries`, compact |
| Recency.CompactPass | shove/cache.py:188-196 | the compaction loop leaves the last occurrence of every key, in queue order, each counted once |
| Recency.EvictOverflow | shove/cache.py:178-183 | the eviction `while` loop computes Evict: pop, decrement, delete at 0, KeyError on a lost key, IndexError on an empty queue |
| Expiry.Probe | shove/cache/core.py:41-47 | a lookup hits exactly on a present, unexpired key; an expired key is removed; no other key is lost |
| Expiry.Sweep | shove/cache/core.py:59-70 | definition of the sweep over the key snapshot: while `num <= maxcull`, a lookup per key, an expired key (deleted by the lookup) adding one to `num`; SweepRemovesStale and SweepTracked state its properties, and RunSweep proves the loop computes it |
| Expiry.RandomCull | shove/cache/core.py:71-78 | definition of the random phase: while the store is full and `num <= maxcull`, delete a drawn snapshot key; an empty snapshot raises IndexError and an already deleted key KeyError; RandomCullBounded, DrawMakesRoom and CullEmptyFails state its properties, and RunRandomCull proves the loop computes it |
| Expiry.Cull | shove/cache/core.py:57-78 | definition of `_cull`: the sweep from `num` 0, then the random phase over the keys left, in store order; CullQuota and CullMakesRoom state its properties, and RunCull proves the method computes it |
| Expiry.Put | shove/cache/core.py:49-55 | definition of the timed `__setitem__`: cull when the store holds `max_entries` or more (an exception abandons the assignment), then store `(now + timeout, value)`; PutBounded and CacheCore.SimpleCache.Set state its properties |
| Expiry.SweepRemovesStale | shove/cache/core.py:57-70 | the sweep removes only expired snapshot entries and changes no value; `num` grows by exactly the removals and stops one past `maxcull`; with quota left, no expired snapshot entry remains |
| Expiry.SweepTracked | shove/cache.py:36-38 | through an LRU cache the sweep keeps the bookkeeping invariant; through a plain cache it leaves bookkeeping and counters alone |
| Expiry.RandomCullBounded | shove/cache/core.py:71-78 | the random phase deletes only snapshot keys and counts each deletion; when it ends normally the store is below `max_entries` or the quota is spent |
| Expiry.CullQuota | shove/cache/core.py:57-78 | one cull removes at most `maxcull + 1` entries and changes no value it keeps |
| Expiry.CullMakesRoom | shove/cache/core.py:57-78 | culling a cache that is exactly full, with a non-negative quota and `max_entries >= 1`, always succeeds and leaves room |
| Expiry.SweepLeavesDraw | shove/cache/core.py:63-72 | after the sweep of a full cache, the random phase has quota and a snapshot of stored keys to draw from |
| Expiry.DrawMakesRoom | shove/cache/core.py:73-78 | the random phase makes room when the cache is exactly full, quota is left and the snapshot lists stored keys |
| Expiry.CullEmptyFails | shove/cache/core.py:71-78 | with `max_entries <= 0`, the first cull calls `random.choice` on no keys and raises IndexError |
| Expiry.PutBounded | shove/cache/core.py:49-55 | an assignment into a cache within its bound always succeeds, stores `(now + timeout, value)` and keeps the bound |
| Expiry.RunSweep | shove/cache/core.py:63-70 | the sweep loop computes Sweep |
| Expiry.RunRandomCull | shove/cache/core.py:71-78 | the random `while` loop computes RandomCull, and changes only the store |
| Expiry.RunCull | shove/cache/core.py:57-78 | `_cull` (sweep, snapshot, random loop) computes Cull |
| Expiry.Survivors | shove/cache/core.py:71-72 | the post-sweep key list is the snapshot order with the removed keys dropped |
| Backends.SimpleBase.constructor | shove/backends.py:82-85 | a fresh store is empty |
| Backends.SimpleBase.Get | shove/backends.py:86-91 | returns the stored value, or KeyError exactly when the key is absent |
| Backends.SimpleBase.Set | shove/backends.py:92-94 | the store gains or overwrites exactly that pair |
| Backends.SimpleBase.Delete | shove/backends.py:95-99 | removes only that key; an absent key raises KeyError and changes nothing |
| Backends.SimpleBase.Len | shove/backends.py:101-102 | the number of stored keys |
| Backends.SimpleBase.Keys | shove/backends.py:104-108 | every stored key once |
| Backends.Written | shove/backends.py:131-145 | definition of `LRUBase.__setitem__`: store the value, record the access, then evict; WrittenFacts states its properties, and Write proves the body computes it |
| Backends.Write | shove/backends.py:131-145 | the body of `__setitem__` computes Written: store, record the access, evict |
| Backends.LRUBase.constructor | shove/backends.py:113-119 | `max_entries` defaults to 300; counters 0; empty queue and counts; the same code is at shove/cache/core.py:103-112 |
| Backends.LRUBase.Get | shove/backends.py:121-129 | a hit adds one to `_hits` and records the access; a miss adds one to `_misses`, raises KeyError and leaves queue and counts alone; the invariant is kept |
| Backends.LRUBase.Set | shove/backends.py:131-145 | keeps the invariant; fails only with KeyError; on success the store is within `max_entries`; stale-free bookkeeping never fails; with room for one entry the new value is stored |
| Backends.LRUBase.Delete | shove/backends.py:95-99 | a direct delete changes only the store and leaves the queue and counts alone |
| Backends.LRUBase.Len | shove/backends.py:101-102 | the number of stored keys |
| Backends.LRUBase.Keys | shove/backends.py:104-108 | every stored key once |
| Backends.WrittenFacts | shove/backends.py:131-145 | one `__setitem__` keeps the invariant, fails only with KeyError, stays within the bound on success, never fails without stale entries and keeps the new value |
| Backends.ReadFacts | shove/backends.py:121-129 | recording a hit keeps the invariant and stale-freeness |
| Backends.SetTwiceKeepsLatest | shove/backends.py:131-145 | with `max_entries=1`, setting A then B leaves only B |
| Backends.StaleEntryFailsEviction | shove/backends.py:95-99 | with `max_entries=1`: set A, delete A, set B, set C raises KeyError in the eviction loop |
| CacheCore.SimpleCache.constructor | shove/cache/core.py:30-39 | defaults `maxcull` 10, `max_entries` 300, `timeout` 300 |
| CacheCore.SimpleCache.Get | shove/cache/core.py:41-47 | an absent key raises KeyError; an expired key is deleted and raises KeyError; otherwise returns the value and changes nothing |
| CacheCore.SimpleCache.Set | shove/cache/core.py:49-55 | culls only when `len >= max_entries`, then stores `(now + timeout, value)`; within its bound it always succeeds and keeps the bound |
| CacheCore.SimpleCache.Delete | shove/backends.py:95-99 | removes the key, or raises KeyError and changes nothing |
| CacheCore.SimpleCache.Len | shove/backends.py:101-102 | the number of entries |
| CacheCore.SimpleCache.Keys | shove/backends.py:104-108 | every key once |
| CacheCore.CullKeepsOne | shove/tests/test_cache.py:42-47 | with `max_entries=1`, setting `test`, then `test2` twice, leaves one entry |
| Cache.EnumSweepLive | shove/cache.py:54-63 | as written (Findings, row 1): the sweep over the live dict, whose step after a lookup deleted an entry raises RuntimeError; LiveSweepAgrees states its relation to EnumSweep |
| Cache.EnumCullLive | shove/cache.py:50-71 | as written (Findings, row 1): the live sweep, then the random phase; LiveCullFails exhibits its RuntimeError |
| Cache.EnumSweep | shove/cache.py:54-63 | definition of the sweep corrected to run over a key snapshot: `num` is the enumerate index, plus one when the lookup misses, and the loop breaks once the index passes `maxcull`; EnumSweepStore, EnumSweepRemoves, EnumSweepLast, EnumSweepTracked and SweepUntracked state its properties, and RunEnumSweep proves the loop computes it |
| Cache.RandomPhase | shove/cache.py:64-71 | definition of the random phase after the sweep; when the sweep never bound `num` (an empty store) and the store is still full, reading `num` raises UnboundLocalError; PhaseMakesRoom states its properties |
| Cache.EnumCull | shove/cache.py:50-71 | definition of the corrected cull (Findings, row 1): EnumSweep, then RandomPhase; EnumCullMakesRoom, EnumCullSkipsRandom and EnumCullTracked state its properties, and RunEnumCull proves the loops compute it |
| Cache.PutEnum | shove/cache.py:42-48 | definition of `BaseCache.__setitem__` with the corrected cull (Findings, row 1): cull when `len >= max_entries`, then store `(now + timeout, value)`; PutEnumStores states its properties |
| Cache.PutLRU | shove/cache.py:169-183 | definition of `BaseLRUCache.__setitem__` with the corrected cull (Findings, row 1): the timed assignment, then `_housekeep` and eviction; PutLRUFacts states its properties, and WriteLRU proves the method computes it |
| Cache.WriteEvict | shove/cache.py:170-183 | definition of the store, `_housekeep` and eviction steps on the cache's state, as Backends.Written; PutLRUFacts states its properties |
| Cache.LiveSweepAgrees | shove/cache.py:50-63 | the live sweep equals the snapshot sweep while it removes nothing, and raises RuntimeError exactly when that sweep would remove something |
| Cache.LiveCullFails | shove/cache.py:42-63 | a full cache with one expired entry: the cull as written raises RuntimeError; the snapshot cull removes it and leaves room |
| Cache.EnumSweepStore | shove/cache.py:54-63 | the sweep only removes entries, changes no value and keeps every key outside the snapshot |
| Cache.EnumSweepRemoves | shove/cache.py:54-63 | the sweep removes exactly the expired keys at enumerate indices `0..maxcull` |
| Cache.EnumSweepLast | shove/cache.py:54-63 | `num` after the sweep: `maxcull + 1` on a break, otherwise the last index, plus one if that lookup missed |
| Cache.EnumSweepTracked | shove/cache.py:54-63 | through the LRU cache the sweep keeps the bookkeeping invariant |
| Cache.SweepUntracked | shove/cache.py:54-63 | through a plain cache the sweep leaves bookkeeping and counters alone |
| Cache.EnumCullSkipsRandom | shove/cache.py:54-71 | a store of more than `maxcull + 1` keys ends the sweep with `num == maxcull + 1`, so the random phase never runs |
| Cache.FreshCacheOverflows | shove/cache.py:42-71 | a full cache of more than `maxcull + 1` fresh entries is not culled, and a new key takes it past `max_entries` |
| Cache.EnumCullMakesRoom | shove/cache.py:50-71 | an exactly full cache of at most `maxcull + 1` keys is always culled below `max_entries` |
| Cache.PhaseMakesRoom | shove/cache.py:64-71 | the random phase leaves room when it has quota and a key to draw |
| Cache.SweepReachesAll | shove/cache.py:54-63 | a sweep reaching every key with a fresh last key ends with `num` at the last index |
| Cache.PutEnumStores | shove/cache.py:42-48 | culls only when full; stores `(now + timeout, value)` over any earlier pair; no other entry changes |
| Cache.PutLRUFacts | shove/cache.py:169-183 | an LRU assignment keeps the invariant; on success the store is within `max_entries` and holds the new value |
| Cache.EnumCullTracked | shove/cache.py:36-38 | the whole cull keeps the LRU invariant: sweep lookups record hits, and deletions only remove stored keys |
| Cache.RunEnumSweep | shove/cache.py:54-63 | the sweep loop computes EnumSweep |
| Cache.RunEnumCull | shove/cache.py:50-71 | the `_cull` loops, with the sweep corrected to run over a key snapshot, compute the corrected cull EnumCull (Findings, row 1) |
| Cache.WriteLRU | shove/cache.py:169-183 | `BaseLRUCache.__setitem__` computes PutLRU |
| Cache.SimpleCache.constructor | shove/cache.py:23-32 | defaults `maxcull` 10, `max_entries` 300, `timeout` 300 |
| Cache.SimpleCache.Get | shove/cache.py:34-40 | an expired entry is deleted and raises KeyError; otherwise returns the value and changes nothing |
| Cache.SimpleCache.Contains | shove/base.py:26-32 | true exactly for a live entry; an expired one is deleted on the way |
| Cache.SimpleCache.Set | shove/cache.py:42-48 | the assignment with the corrected snapshot sweep (Findings, row 1), so the RuntimeError of the live sweep is not among its outcomes; on success `(now + timeout, value)` is stored; no other entry changes |
| Cache.SimpleCache.Delete | shove/base.py:72-76 | removes the key, or raises KeyError and changes nothing |
| Cache.SimpleCache.Len | shove/base.py:81-82 | the number of entries |
| Cache.SimpleCache.Iter | shove/base.py:78-79 | every key once |
| Cache.SimpleLRUCache.constructor | shove/cache.py:151-157 | BaseCache's defaults; counters 0; empty queue and counts |
| Cache.SimpleLRUCache.Get | shove/cache.py:159-167 | a live entry is a hit (`_hits` plus one, access recorded); absent or expired is a miss (`_misses` plus one, KeyError, queue and counts alone); the invariant is kept |
| Cache.SimpleLRUCache.Set | shove/cache.py:169-183 | timed assignment with the corrected snapshot sweep (Findings, row 1), `_housekeep`, eviction; keeps the invariant; on success within `max_entries` with the new entry stored |
| Cache.SimpleLRUCache.Delete | shove/base.py:72-76 | a direct delete changes only the store |
| Cache.SimpleLRUCache.Len | shove/base.py:81-82 | the number of entries |
| Cache.SimpleLRUCache.Iter | shove/base.py:78-79 | every key once |
| Base.Dumps | shove/base.py:34-43 | definition of `dumps`: serialise, then compress when the setting is truthy; DumpsLevel and LoadsDumps state its properties; the same code is at shove/base.py:84-93 |
| Base.Loads | shove/base.py:45-54 | definition of `loads`: decompress when the setting is truthy, keeping data that is not compressed, then deserialise; LoadsDumps and LoadsFallback state its properties; the same code is at shove/base.py:95-104 |
| Base.DumpsLevel | shove/base.py:34-43 | a truthy setting always compresses at level 9, whatever level was asked for; a falsy one does not compress; the same code is at shove/base.py:84-93 |
| Base.LoadsDumps | shove/base.py:34-54 | `loads` undoes `dumps` under the same setting, when the routines undo each other |
| Base.LoadsFallback | shove/base.py:45-54 | with compression on, data that does not decompress is deserialised as it is; the same code is at shove/base.py:95-104 |
| Base.ContainsOf | shove/base.py:26-32 | true exactly when the lookup succeeds, false exactly on KeyError; any other error propagates |
| Base.Mapping.constructor | shove/base.py:20-24 | a fresh mapping is empty |
| Base.Mapping.Get | shove/base.py:63-67 | returns the stored value; any failure to find the key is KeyError |
| Base.Mapping.Set | shove/base.py:69-70 | the store gains or overwrites exactly that pair |
| Base.Mapping.Delete | shove/base.py:72-76 | removes only that key; an absent key raises KeyError |
| Base.Mapping.Iter | shove/base.py:78-79 | every stored key once |
| Base.Mapping.Len | shove/base.py:81-82 | the number of stored keys |
| Base.Mapping.Contains | shove/base.py:26-32 | true exactly for stored keys |
| Base.SetGetDelete | shove/base.py:63-76 | a set value is read back and contained; after delete the key is gone and nothing else changed |
| Store.SourcePairs | shove/store.py:102-119 | the pairs `update` writes: none for None; for a mapping, one pair per key with its value |
| Store.ListedKeys | shove/store.py:45-50 | the items of a key list name exactly those keys |
| Store.Updated | shove/store.py:102-119 | definition of `update`'s effect: the pairs of `other`, then the keyword pairs, each written in turn; UpdateEffect states its properties, and SimpleStore.Update proves the method computes it |
| Store.UpdateEffect | shove/store.py:102-119 | after `update`, keyword keys have keyword values, a key only `other` names has the value of its last pair, and every other key is unchanged |
| Store.EqualContents | shove/store.py:20-23 | the dicts of two stores' items are equal exactly when the contents are equal |
| Store.SimpleStore.constructor | shove/store.py:135-143 | a fresh store is empty |
| Store.SimpleStore.Get | shove/backends.py:86-91 | the stored value, or KeyError exactly when absent |
| Store.SimpleStore.Set | shove/backends.py:92-94 | the store gains or overwrites exactly that pair |
| Store.SimpleStore.Delete | shove/backends.py:95-99 | removes the key, or raises KeyError and changes nothing |
| Store.SimpleStore.Items | shove/store.py:45-50 | one pair per key, in iteration order, with that key's value; the same code is at trunk/shove/store/__init__.py:76-82 |
| Store.SimpleStore.Values | shove/store.py:122-127 | the value of each key, in iteration order; the same code is at trunk/shove/store/__init__.py:148-150 |
| Store.SimpleStore.Eq | shove/store.py:20-23 | NotImplemented exactly for an operand that is not a store; otherwise equal exactly when the contents are |
| Store.SimpleStore.Ne | shove/store.py:25-26 | true exactly when the contents differ, and true for a non-store operand |
| Store.SimpleStore.Pop | shove/store.py:52-70 | a present key is returned and removed; absent with a default gives the default, unchanged; absent without one raises KeyError; more than one extra argument raises TypeError; the same code is at trunk/shove/store/__init__.py:96-109 |
| Store.SimpleStore.Popitem | shove/store.py:72-81 | removes and returns the first pair, so the size drops by one; an empty store raises KeyError; the same code is at trunk/shove/store/__init__.py:111-118 |
| Store.SimpleStore.Setdefault | shove/store.py:88-100 | a present key keeps and returns its value; an absent key is set to the default, which is returned; the same code is at trunk/shove/store/__init__.py:120-130 |
| Store.SimpleStore.WriteAll | shove/store.py:108-117 | the loop writes the pairs in order, later writes winning |
| Store.SimpleStore.Update | shove/store.py:102-119 | the pairs of `other`, then the keyword pairs, written in order; the same code is at trunk/shove/store/__init__.py:132-146 |
| Store.SimpleStore.Len | shove/store.py:145-146 | the number of keys; the same code is at trunk/shove/store/__init__.py:59-60 |
| Store.SimpleStore.Clear | shove/store.py:148-153 | every key is deleted, so the store is empty; the same code is at trunk/shove/store/__init__.py:72-74 |
| Store.SyncStore.constructor | shove/store.py:215-219 | an empty store with the given codec and hook |
| Store.SyncStore.Get | shove/store.py:167-168 | the stored bytes through `loads`, or KeyError |
| Store.SyncStore.Set | shove/store.py:221-226 | stores `dumps(value)`, then calls the sync hook exactly when there is one |
| Store.SyncStore.Delete | shove/store.py:228-233 | deletes and syncs; an absent key raises KeyError before any sync |
| Store.SyncRoundTrip | shove/store.py:221-226 | a value written reads back as itself, when the codec's routines undo each other |
| Core.Flush | shove/core.py:94-101 | the store overwritten by every buffered pair |
| Core.Flushed | shove/core.py:192-201 | every store overwritten by the buffered pairs, the list length unchanged |
| Core.Buffered | shove/core.py:45-52 | definition of a buffered set: buffer the pair, and flush once the buffer holds `_sync` entries; BufferedContents and BufferedFacts state its properties, and WriteBuffered proves the method computes it |
| Core.BufferedContents | shove/core.py:45-52 | a buffered set changes the readable contents by exactly that pair, and leaves fewer than `_sync` writes pending |
| Core.BufferedFacts | shove/core.py:45-52 | a buffered set gains exactly the pair, bounds the buffer and keeps the cache in agreement |
| Core.WriteBuffered | shove/core.py:45-52 | `__setitem__` on the store and buffer computes Buffered |
| Core.WriteFanned | shove/core.py:147-154 | `MultiShove.__setitem__` flushes to every store exactly when the buffer reaches `_sync` |
| Core.WriteEach | shove/core.py:196-198 | the inner loop writes the pair into every store |
| Core.FanOut | shove/core.py:192-201 | the nested `sync` loops leave every store overwritten by every buffered pair |
| Core.FlushedEmpty | shove/core.py:192-201 | flushing an empty buffer changes no store |
| Core.FirstLacking | shove/core.py:165-169 | the first store lacking the key: every earlier store holds it |
| Core.DeleteFromEach | shove/core.py:165-169 | deletes from each store in order; the first store lacking the key raises KeyError and it and later stores are untouched |
| Core.DeleteAll | shove/core.py:127-132 | deleting every listed key passes exactly when every store holds all of them, and then removes them from the cache and every store; otherwise it stops with KeyError at the first key some store lacks, and that key has already left the cache and every store before the first one lacking it, as `__delitem__` (shove/core.py:156-169) does; the earlier keys are gone everywhere |
| Core.Shove.constructor | shove/core.py:22-31 | the given store, an empty cache and buffer, threshold `sync` default 2 |
| Core.Shove.Sync | shove/core.py:94-101 | the store becomes the old store overwritten by the buffer; the buffer empties; readable contents unchanged; closed: AttributeError |
| Core.Shove.Get | shove/core.py:33-43 | a cache hit changes nothing; a miss syncs, reads the store and caches the value, or raises KeyError; on a coherent frontend the answer is the contents' entry; closed: TypeError |
| Core.Shove.Set | shove/core.py:45-52 | into the cache and the buffer; contents gain exactly the pair; the buffer is then empty or below `_sync`; coherence kept; closed: TypeError |
| Core.Shove.Delete | shove/core.py:54-63 | syncs, ignores a cache miss, and raises KeyError exactly when the synced store lacks the key; closed: AttributeError |
| Core.Shove.Len | shove/core.py:65-66 | the store's size only; closed: TypeError |
| Core.Shove.Clear | shove/core.py:68-72 | empties the store only; buffer and cache keep their entries |
| Core.Shove.Keys | shove/core.py:87-92 | syncs, then lists every readable key, buffered ones included |
| Core.Shove.Close | shove/core.py:74-85 | an open frontend flushes everything into the store and closes; a second close changes nothing |
| Core.TwoSetsFlush | shove/core.py:45-52 | with the default threshold, two sets of different keys are both flushed |
| Core.ClearKeepsCache | shove/core.py:68-72 | after set, set, clear a lookup still hits the cache while `len` is 0 |
| Core.MultiShove.constructor | shove/core.py:110-122 | no stores given means one empty store; threshold defaults to 2 |
| Core.MultiShove.Sync | shove/core.py:192-201 | every store overwritten by every buffered pair; buffer empty; closed: AttributeError; the same code is at shove/multi.py:65-71 |
| Core.MultiShove.Len | shove/core.py:124-125 | the first store's size; closed: TypeError |
| Core.MultiShove.Get | shove/core.py:134-145 | a miss syncs and reads only the first store, caching the value or raising KeyError; coherent answers; the same code is at shove/multi.py:29-39 |
| Core.MultiShove.Set | shove/core.py:147-154 | into cache and buffer; flush to all stores exactly when the buffer reaches `_sync`; the same code is at shove/multi.py:41-46 |
| Core.MultiShove.Delete | shove/core.py:156-169 | drops the key from the cache, syncs, deletes from each store in order; the first store lacking the key raises KeyError and later stores keep it; the same code is at shove/multi.py:48-58 |
| Core.MultiShove.Keys | shove/core.py:185-190 | syncs, then lists the first store's keys; the same code is at shove/multi.py:60-63 |
| Core.MultiShove.Clear | shove/core.py:127-132 | succeeds exactly when every store holds every key of the first store, and then removes those keys everywhere; otherwise raises KeyError at some listed key: that key is gone from the cache and from the stores before the first one lacking it, and the keys listed before it are gone from the cache and every store |
| Core.MultiShove.Close | shove/core.py:171-183 | flushes every store and closes; a second close changes nothing; the same code is at shove/multi.py:73-82 |
| Multi.Defaults | shove/multi.py:17-27 | no store arguments: one empty store, threshold 2 |
| Multi.TwoStoresMirror | shove/multi.py:41-46 | two sets reach both stores, and a lookup answers from the cache |
| TrunkStore.CmpWith | trunk/shove/store/__init__.py:45-48 | `__cmp__`: False for None, None for a non-store, and for a store a comparison that reports equal exactly when the contents are |
| TrunkStore.SyncStore.constructor | trunk/shove/store/__init__.py:153-158 | an empty store |
| TrunkStore.SyncStore.Set | trunk/shove/store/__init__.py:160-162 | stores the pair, then always calls `sync`, which raises AttributeError when the backend has none |
| TrunkStore.SyncStore.Delete | trunk/shove/store/__init__.py:164-165 | deletes, then always calls `sync`; an absent key raises KeyError first |
| TrunkStore.SyncStore.Sync | trunk/shove/store/__init__.py:162 | the backend's hook, or AttributeError |
| TrunkShove.Scheme | trunk/shove/__init__.py:159 | the text before the first colon, all of it when there is none |
| TrunkShove.SchemeOfUri | trunk/shove/__init__.py:159 | a scheme followed by a colon is read back exactly |
| TrunkShove.Loadable | trunk/shove/__init__.py:159-169 | a backend loads exactly when its scheme is registered and its module imports, otherwise ImportError; Registrations and Open state its consequences |
| TrunkShove.Registrations | trunk/shove/__init__.py:72-96 | the registries: both know `simple`, only caches know `memcached`, only stores know `s3`, and unregistered schemes never load |
| TrunkShove.GetDefault | trunk/shove/__init__.py:126-136 | returns the default exactly when the lookup raises KeyError; other errors propagate |
| TrunkShove.GetContains | trunk/shove/__init__.py:118-136 | `__contains__` and `get` agree on presence, absence and other errors |
| TrunkShove.GetMany | trunk/shove/__init__.py:138-149 | the result holds exactly the requested keys whose value is found and not None; an error other than KeyError aborts |
| TrunkShove.Open | trunk/shove/__init__.py:156-171 | any keyword raises TypeError; an unknown or unimportable store scheme, then cache scheme, raises ImportError; otherwise a fresh open frontend over the store, with an empty cache |
| TrunkShove.Shove.constructor | trunk/shove/__init__.py:156-171 | the store's contents, empty cache and buffer, open |
| TrunkShove.Shove.Get | trunk/shove/__init__.py:175-184 | a hit changes nothing; a miss syncs, reads the store and caches the value, or raises KeyError; closed: TypeError |
| TrunkShove.Shove.Set | trunk/shove/__init__.py:186-190 | writes only the cache; with the buffer always empty the store never changes; closed: TypeError |
| TrunkShove.Shove.Delete | trunk/shove/__init__.py:192-198 | drops the key from the cache, syncs, and raises KeyError exactly when the store lacks the key; closed: TypeError |
| TrunkShove.Shove.Keys | trunk/shove/__init__.py:200-203 | syncs, then every stored key once; closed: AttributeError |
| TrunkShove.Shove.Len | trunk/shove/store/__init__.py:59-60 | `len(keys())`: the store's size after a sync; closed: AttributeError |
| TrunkShove.Shove.Sync | trunk/shove/__init__.py:205-208 | the store overwritten by the buffer, which empties; closed: AttributeError |
| TrunkShove.Shove.Close | trunk/shove/__init__.py:210-214 | syncs and closes; a second call raises AttributeError |
| TrunkShove.LostOnClose | trunk/shove/__init__.py:186-214 | a value set and then closed is not in the store, so a reopened frontend raises KeyError for it |
| TrunkShove.DeleteAfterSet | trunk/shove/__init__.py:186-198 | deleting a key that was only set raises KeyError, and leaves the key uncached |
| TrunkSimpleCache.ParseInt | trunk/shove/cache/simple.py:45-49 | `int()` of blank text is no number |
| TrunkSimpleCache.Value | trunk/shove/cache/simple.py:45-49 | the number a string of decimal digits denotes, which ParseInt uses; ValueNatText and ParseIntText state its properties |
| TrunkSimpleCache.ValueNatText | trunk/shove/cache/simple.py:45-49 | a natural number's decimal text denotes it |
| TrunkSimpleCache.ParseIntText | trunk/shove/cache/simple.py:45-49 | `int(str(n)) == n` for every integer |
| TrunkSimpleCache.ParseBlank | trunk/shove/cache/simple.py:45-49 | whitespace alone is a ValueError |
| TrunkSimpleCache.ParseWord | trunk/shove/cache/simple.py:45-49 | text starting with neither sign nor digit is a ValueError |
| TrunkSimpleCache.MaxEntries | trunk/shove/cache/simple.py:45-49 | an int setting is taken as is, parseable text is parsed, and anything else gives 300 |
| TrunkSimpleCache.MaxEntriesText | trunk/shove/cache/simple.py:45-49 | an int given as its text gives the same bound as the int |
| TrunkSimpleCache.MaxEntriesFallback | trunk/shove/cache/simple.py:45-49 | `"many"`, `" "` and None all fall back to 300 |
| TrunkSimpleCache.Expired | trunk/shove/cache/simple.py:99-103 | the keys whose expiry time is before `now`, which `_cull` deletes; CullAsWrittenFails, SimpleCache.Set and SimpleCache.Cull are stated with it |
| TrunkSimpleCache.CullAsWritten | trunk/shove/cache/simple.py:99-102 | the cull as written changes nothing when it passes, and otherwise raises RuntimeError |
| TrunkSimpleCache.CullAsWrittenFails | trunk/shove/cache/simple.py:99-102 | the cull as written passes exactly when nothing has expired; otherwise it removes one expired entry and raises RuntimeError |
| TrunkSimpleCache.SetAsWritten | trunk/shove/cache/simple.py:58-68 | when it passes, the value and `now + timeout` are stored |
| TrunkSimpleCache.SetAsWrittenLosesWrite | trunk/shove/cache/simple.py:58-68 | a full cache with one expired entry: the assignment raises RuntimeError and the new key is not stored |
| TrunkSimpleCache.SimpleCache.constructor | trunk/shove/cache/simple.py:42-49 | empty dicts; the bound is MaxEntries of the setting |
| TrunkSimpleCache.SimpleCache.Get | trunk/shove/cache/simple.py:51-56 | an expired or never-timed key is dropped from the value dict only and raises KeyError; otherwise the value, or KeyError; in a valid cache (every value timed) a never-timed key has no value, so the cache is unchanged |
| TrunkSimpleCache.SimpleCache.Set | trunk/shove/cache/simple.py:58-68 | with the corrected cull (Findings, row 2): a full cache loses exactly its expired entries; then the value and `now + timeout` are stored, whatever the size |
| TrunkSimpleCache.SimpleCache.Delete | trunk/shove/cache/simple.py:70-80 | removes the key from both dicts and never raises |
| TrunkSimpleCache.SimpleCache.GetOr | trunk/shove/cache/simple.py:82-97 | the default for a never-set key and for an expired key, which is deleted; otherwise the value, or KeyError |
| TrunkSimpleCache.SimpleCache.Cull | trunk/shove/cache/simple.py:99-102 | the corrected cull (Findings, row 2), walking a snapshot of the expiry dict: removes exactly the expired entries, from both dicts |
| TrunkSimpleCache.OverBound | trunk/shove/cache/simple.py:58-68 | with `max_entries` 1, two fresh values are both kept |

## Left out

- Filesystem backends (`FileBase`, `FileCache`, `FileLRUCache`, `FileStore`): directory I/O and file-name encoding.
- SQL, DBM, remote and embedded-database backends (`DBBase`, `DBMStore`, the SQL stores and caches, S3, SVN, FTP, ZODB, Durus, BSD DB, memcached, Cassandra, Redis, Atom): calls into foreign clients.
- `ThreadShove`: thread-pool dispatch. Its effect on each store is the sequential `MultiShove` sync and delete.
- Locks and deep copies: `synchronized` and the Memory* classes are modelled as their unlocked parents, whose values are immutable.
- Serialisation: pickle, `stuf`'s `optimize`/`ld` and zlib are uninterpreted routines in `Base.Codec`.
- Backend lookup and dynamic import: `getshove`, the entry points and `__import__` are a given predicate `importable`. Backends opened from a URI start from the contents passed as `initial`.
- `atexit` hooks and `__del__`: interpreter lifecycle.
- The clock: `time()` returns a float; the model uses an integer `now`.
- `random.choice`: an arbitrary function `pick` of the draw number.
- Python 3: the model follows Python 2, the only version the package declares. Under Python 3 `keys()` is a live view, so shove/cache/core.py's sweep would also raise RuntimeError once it deletes an entry; that behaviour is not modelled.
- `BaserStore.__repr__` and `__iter__`, and the trunk `iteritems`/`iterkeys`/`itervalues` generators. They are read-only views; `items` and `values` cover what they list.
- `BaserStore.close`: it releases the backend and sets the store to None. The store classes have no closed state, so later use of a closed store is not modelled.
- The trunk `BaseStore.close`: it only releases the backend.
- `ClientStore.__init__` and `__setitem__` beyond `dumps`: the engine argument is unused by the dict store.
- The caches in front of `Core.Shove`, `Core.MultiShove` and `TrunkShove.Shove` are plain maps: a frontend never sees the cache's expiry or eviction.
- The trunk `Shove`'s default cache, the trunk SimpleCache, is likewise not composed with it.
- trunk/shove/cache/__init__.py is not part of this model. The model assumes its `BaseCache` sets `timeout` (a constructor parameter here) and that its `delete` is `__delitem__`.
- shove.store.simple, which the trunk store module imports, is not part of this model. Its `SimpleStore` is taken to be the dict store of shove/store.py.
- `MultiShove.__len__` and `clear` in shove/multi.py come from its `BaseStore` base class, so they are Store's `len(keys())` and delete-every-key, not those of shove/core.py.
- The trunk `Shove` inherits `pop`, `popitem`, `setdefault`, `update`, `items` and `values` from `BaseStore`. They are Store's operations over its `__getitem__`/`__setitem__` and are not restated on the frontend.
- TrunkShove.GetMany: `self[k]` is a given pure function `lookup`, so a lookup that changes the store (a cache miss that syncs) is not modelled.
- TrunkSimpleCache.ParseInt: whitespace between the sign and the digits, accepted by some Python 2 versions, is not accepted; float and long arguments are not modelled.
- Store.SimpleStore.Ne: for an operand that is not a store, `==` falls back to identity, which is taken to be False.
- TrunkStore.CmpWith: a comparison of unequal stores gives a non-zero answer, whose sign (dict ordering in Python 2) is not modelled.

## Findings

| source | as written | input that shows it | evidently intended | confidence | as-written member | corrected member |
|---|---|---|---|---|---|---|
| shove/cache.py:54 | the sweep iterates `enumerate(self)`, the live dict, while its lookups delete expired entries, so the step after the first deletion raises RuntimeError and the assignment is abandoned | `max_entries` 1, `maxcull` 10, one entry `a` expiring at 0, a set at `now` 1 | sweep a snapshot of the keys, as shove/cache/core.py does with `keys()` | not executed | Cache.EnumCullLive (Cache.LiveCullFails, Cache.LiveSweepAgrees) | Cache.EnumCull (Cache.EnumSweepRemoves, Cache.EnumCullMakesRoom, Cache.RunEnumCull, Cache.SimpleCache.Set, Cache.SimpleLRUCache.Set) |
| trunk/shove/cache/simple.py:102 | `_cull` iterates `_expire_info.iteritems()` while deleting from `_expire_info`, so the step after the first deletion raises RuntimeError and the pending assignment is lost | `max_entries` 1, an entry `"a"` expiring at 0, setting `"b"` at `now` 5 | iterate a snapshot of the expiry items and delete every expired entry | not executed | TrunkSimpleCache.SetAsWritten (TrunkSimpleCache.SetAsWrittenLosesWrite, TrunkSimpleCache.CullAsWrittenFails) | TrunkSimpleCache.SimpleCache.Cull (TrunkSimpleCache.SimpleCache.Set) |
