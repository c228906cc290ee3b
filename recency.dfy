/** The approximate-LRU bookkeeping shared by LRUBase (shove/backends.py) and BaseLRUCache
    (shove/cache.py): an access queue that keeps duplicates, plus a reference count per key. */
module Recency {
  import opened Wrappers
  import opened Dicts

  /** `_queue` (a deque, oldest access first) and `_refcount`. */
  datatype Tracker<K> = Tracker(queue: seq<K>, refcount: map<K, int>)

  /** The bookkeeping invariant: `_refcount.get(k, 0)` is the number of occurrences of `k`
      in `_queue`, for every key. */
  ghost predicate Counted<K>(t: Tracker<K>) {
    (forall k :: k in t.queue ==> multiset(t.queue)[k] == Get0(t.refcount, k)) &&
    (forall k :: k in t.refcount ==> multiset(t.queue)[k] == t.refcount[k])
  }

  /** Counted, read at any one key. */
  lemma CountedAt<K>(t: Tracker<K>, k: K)
    requires Counted(t)
    ensures multiset(t.queue)[k] == Get0(t.refcount, k)
  {
  }

  /** The cache-level invariant: the bookkeeping is counted and every stored key has been
      accessed at least once since it was last evicted. Stale queue entries (keys deleted
      behind the bookkeeping's back) are allowed. */
  ghost predicate Tracked<K, V>(store: map<K, V>, t: Tracker<K>) {
    Counted(t) && forall k :: k in store ==> k in t.queue
  }

  /** The queue left by compaction: the LAST occurrence of every key, in queue order. */
  function KeepLast<K(==)>(q: seq<K>): seq<K>
  {
    KeepFrom(q, 0)
  }

  /** The entries at index `i` and beyond that are their key's last occurrence. */
  function KeepFrom<K(==)>(q: seq<K>, i: nat): seq<K>
    requires i <= |q|
    decreases |q| - i
  {
    if i == |q| then [] else (if q[i] in q[i + 1..] then [] else [q[i]]) + KeepFrom(q, i + 1)
  }

  /** The counts left by compaction: 1 for every queued key; a key that is counted but no
      longer queued keeps its count. */
  function Recount<K(==)>(q: seq<K>, rc: map<K, int>): map<K, int>
  {
    map k | k in rc :: if k in q then 1 else rc[k]
  }

  /** The first half of `_housekeep(key)`: append `key` and add one to its count. */
  function Appended<K(==)>(t: Tracker<K>, key: K): Tracker<K>
  {
    Tracker(t.queue + [key], t.refcount[key := Get0(t.refcount, key) + 1])
  }

  /** What one compaction pass leaves: the last entry of every key, every queued key counted once. */
  function Compacted<K(==)>(t: Tracker<K>): Tracker<K>
  {
    Tracker(KeepLast(t.queue), Recount(t.queue, t.refcount))
  }

  /** `_housekeep(key)`: append `key`, add one to its count and, once the queue is longer
      than four times `max_entries`, run one compaction pass over it. */
  function Touch<K(==)>(t: Tracker<K>, key: K, maxEntries: int): Tracker<K>
  {
    var q := t.queue + [key];
    var rc := t.refcount[key := Get0(t.refcount, key) + 1];
    if |q| > maxEntries * 4 then Tracker(KeepLast(q), Recount(q, rc)) else Tracker(q, rc)
  }

  /** What the eviction loop of `__setitem__` leaves: how it ended, the store and the bookkeeping. */
  datatype Evicted<K, V> = Evicted(outcome: Outcome, store: map<K, V>, tracker: Tracker<K>)

  /** One turn of the eviction loop: pop the oldest queue entry and decrement its count; a key
      whose count reaches 0 is deleted from the store and from `_refcount`. `refcount[k]` on a
      key it lacks, and a delete of a key the store lacks, raise KeyError; what was popped and
      decremented before the exception stays so. */
  function PopOne<K(==), V>(store: map<K, V>, t: Tracker<K>): (r: Evicted<K, V>)
    requires t.queue != []
    ensures r.tracker.queue == t.queue[1..]
  {
    var k := t.queue[0];
    var rest := t.queue[1..];
    if k !in t.refcount then Evicted(Fail(KeyError), store, Tracker(rest, t.refcount))
    else if t.refcount[k] - 1 != 0 then Evicted(Pass, store, Tracker(rest, t.refcount[k := t.refcount[k] - 1]))
    else if k !in store then Evicted(Fail(KeyError), store, Tracker(rest, t.refcount[k := 0]))
    else Evicted(Pass, store - {k}, Tracker(rest, t.refcount - {k}))
  }

  /** The eviction loop: while the store holds more than `max_entries` keys, one PopOne;
      `popleft` on an empty queue raises IndexError. */
  function Evict<K(==), V>(store: map<K, V>, t: Tracker<K>, maxEntries: int): Evicted<K, V>
    decreases |t.queue|
  {
    if |store| <= maxEntries then Evicted(Pass, store, t)
    else if t.queue == [] then Evicted(Fail(IndexError), store, t)
    else
      var s := PopOne(store, t);
      if s.outcome.Fail? then s else Evict(s.store, s.tracker, maxEntries)
  }

  // ---------------------------------------------------------------------------------------
  // Compaction

  /** Every key of the queue survives compaction exactly once, and no other key appears. */
  lemma KeepLastOnce<K>(q: seq<K>)
    ensures forall k :: multiset(KeepLast(q))[k] == (if k in q then 1 else 0)
  {
    KeepFromOnce(q, 0);
    assert q[0..] == q;
  }

  lemma {:induction false} KeepFromOnce<K>(q: seq<K>, i: nat)
    requires i <= |q|
    ensures forall k :: multiset(KeepFrom(q, i))[k] == (if k in q[i..] then 1 else 0)
    decreases |q| - i
  {
    if i < |q| {
      KeepFromOnce(q, i + 1);
      assert q[i..] == [q[i]] + q[i + 1..];
      forall k ensures multiset(KeepFrom(q, i))[k] == (if k in q[i..] then 1 else 0) {
        assert k in q[i..] <==> k == q[i] || k in q[i + 1..];
      }
    }
  }

  /** Compaction drops no key and adds none. */
  lemma KeepLastMember<K>(q: seq<K>, k: K)
    ensures k in KeepLast(q) <==> k in q
  {
    KeepLastOnce(q);
    var c := multiset(KeepLast(q))[k];
    assert c == (if k in q then 1 else 0);
    assert k in KeepLast(q) <==> c > 0;
  }

  /** Compaction leaves no duplicates. */
  lemma KeepLastDistinct<K>(q: seq<K>)
    ensures Distinct(KeepLast(q))
  {
    KeepFromDistinct(q, 0);
  }

  lemma {:induction false} KeepFromDistinct<K>(q: seq<K>, i: nat)
    requires i <= |q|
    ensures Distinct(KeepFrom(q, i))
    decreases |q| - i
  {
    if i < |q| {
      KeepFromDistinct(q, i + 1);
      if q[i] !in q[i + 1..] {
        KeepFromOnce(q, i + 1);
        assert multiset(KeepFrom(q, i + 1))[q[i]] == 0;
        DistinctCons(q[i], KeepFrom(q, i + 1));
      }
    }
  }

  lemma DistinctCons<K>(x: K, r: seq<K>)
    requires Distinct(r) && x !in r
    ensures Distinct([x] + r)
  {
    var s := [x] + r;
    forall i, j | 0 <= i < j < |s| ensures s[i] != s[j] {
      assert s[j] == r[j - 1];
      if i > 0 { assert s[i] == r[i - 1]; }
    }
  }

  /** Compaction keeps the most recent access at the back of the queue. */
  lemma KeepLastRecent<K>(q: seq<K>, key: K)
    ensures |KeepLast(q + [key])| > 0 && KeepLast(q + [key])[|KeepLast(q + [key])| - 1] == key
  {
    KeepFromRecent(q + [key], 0);
  }

  lemma {:induction false} KeepFromRecent<K>(q: seq<K>, i: nat)
    requires i < |q|
    ensures |KeepFrom(q, i)| > 0 && KeepFrom(q, i)[|KeepFrom(q, i)| - 1] == q[|q| - 1]
    decreases |q| - i
  {
    if i == |q| - 1 {
      assert q[i + 1..] == [];
    } else {
      KeepFromRecent(q, i + 1);
    }
  }

  // ---------------------------------------------------------------------------------------
  // Housekeeping

  /** `_housekeep` keeps the counts exact. */
  lemma TouchCounted<K>(t: Tracker<K>, key: K, maxEntries: int)
    requires Counted(t)
    ensures Counted(Touch(t, key, maxEntries))
  {
    AppendCounted(t, key);
    if |t.queue| + 1 > maxEntries * 4 {
      CompactCounted(Appended(t, key));
    }
  }

  /** Appending an access and counting it keeps the counts exact. */
  lemma AppendCounted<K>(t: Tracker<K>, key: K)
    requires Counted(t)
    ensures Counted(Appended(t, key))
  {
    var q := t.queue + [key];
    var rc := t.refcount[key := Get0(t.refcount, key) + 1];
    assert multiset(q) == multiset(t.queue) + multiset{key};
    forall k | k in q ensures multiset(q)[k] == Get0(rc, k) {
      CountedAt(t, k);
    }
    forall k | k in rc ensures multiset(q)[k] == rc[k] {
      CountedAt(t, k);
    }
  }

  /** A compaction pass keeps the counts exact. */
  lemma CompactCounted<K>(t: Tracker<K>)
    requires Counted(t)
    ensures Counted(Compacted(t))
  {
    var q := t.queue;
    KeepLastOnce(q);
    var r := Tracker(KeepLast(q), Recount(q, t.refcount));
    forall k | k in r.queue ensures multiset(r.queue)[k] == Get0(r.refcount, k) {
      KeepLastMember(q, k);
      CountedAt(t, k);
      assert multiset(q)[k] > 0;
      assert k in t.refcount;
    }
    forall k | k in r.refcount ensures multiset(r.queue)[k] == r.refcount[k] {
      CountedAt(t, k);
    }
  }

  /** After `_housekeep(key)` the key is the most recent queue entry, and the queue names
      exactly the keys it named before plus `key`. */
  lemma TouchRecent<K>(t: Tracker<K>, key: K, maxEntries: int)
    ensures var q := Touch(t, key, maxEntries).queue; |q| > 0 && q[|q| - 1] == key
    ensures forall k :: k in Touch(t, key, maxEntries).queue <==> k in t.queue || k == key
  {
    var q := t.queue + [key];
    KeepLastRecent(t.queue, key);
    forall k ensures k in KeepLast(q) <==> k in q {
      KeepLastMember(q, k);
    }
  }

  /** A compaction pass runs only on a queue longer than `4 * max_entries` and leaves one
      entry per distinct key, so with a non-negative bound the compacted queue never holds
      duplicates while an uncompacted one may. */
  lemma TouchCompacts<K>(t: Tracker<K>, key: K, maxEntries: int)
    requires |t.queue| + 1 > maxEntries * 4
    ensures Distinct(Touch(t, key, maxEntries).queue)
    ensures forall k :: k in Touch(t, key, maxEntries).refcount ==>
              (k in Touch(t, key, maxEntries).queue ==> Touch(t, key, maxEntries).refcount[k] == 1)
  {
    KeepLastDistinct(t.queue + [key]);
    KeepLastOnce(t.queue + [key]);
  }

  // ---------------------------------------------------------------------------------------
  // Eviction

  /** One `popleft` on counted bookkeeping: the popped key is counted, its remaining count is
      its number of later queue entries, and every other queued key is still queued. */
  lemma PopCount<K>(t: Tracker<K>)
    requires Counted(t) && t.queue != []
    ensures var k := t.queue[0]; var rest := t.queue[1..];
      k in t.refcount && multiset(rest)[k] == t.refcount[k] - 1 &&
      (forall x :: x in t.queue && x != k ==> x in rest)
  {
    var k := t.queue[0];
    var rest := t.queue[1..];
    assert t.queue == [k] + rest;
    assert multiset(t.queue) == multiset{k} + multiset(rest);
    CountedAt(t, k);
  }

  /** Decrementing the popped key's count, or dropping it once it reaches 0, keeps the counts
      exact. */
  lemma PopCounted<K>(t: Tracker<K>)
    requires Counted(t) && t.queue != []
    ensures var k := t.queue[0]; var rest := t.queue[1..];
      k in t.refcount &&
      Counted(Tracker(rest, t.refcount[k := t.refcount[k] - 1])) &&
      (t.refcount[k] - 1 == 0 ==> Counted(Tracker(rest, t.refcount - {k})))
  {
    PopCount(t);
    var k := t.queue[0];
    var rest := t.queue[1..];
    assert t.queue == [k] + rest;
    assert multiset(t.queue) == multiset{k} + multiset(rest);
    var c := t.refcount[k] - 1;
    var t1 := Tracker(rest, t.refcount[k := c]);
    forall x | x in rest ensures multiset(rest)[x] == Get0(t1.refcount, x) {
      CountedAt(t, x);
    }
    forall x | x in t1.refcount ensures multiset(rest)[x] == t1.refcount[x] {
      CountedAt(t, x);
    }
    if c == 0 {
      var t2 := Tracker(rest, t.refcount - {k});
      forall x | x in rest ensures multiset(rest)[x] == Get0(t2.refcount, x) {
        CountedAt(t, x);
      }
    }
  }

  /** One turn of the eviction loop on tracked bookkeeping: the invariant is kept and no value
      changes; the only failure is KeyError, on a popped key the store no longer holds; a
      stored key stays stored exactly when it is still queued; and an exact cache stays exact
      and does not fail. */
  lemma PopTracked<K, V>(store: map<K, V>, t: Tracker<K>)
    requires Tracked(store, t) && t.queue != []
    ensures var s := PopOne(store, t);
      Tracked(s.store, s.tracker) &&
      s.store.Keys <= store.Keys && (forall x :: x in s.store ==> s.store[x] == store[x]) &&
      (s.outcome == Pass || (s.outcome == Fail(KeyError) && s.store == store)) &&
      (forall x :: x in store ==> (x in s.store <==> x in s.tracker.queue)) &&
      (Exact(store, t) ==> s.outcome == Pass && Exact(s.store, s.tracker))
  {
    PopCount(t);
    PopCounted(t);
  }

  /** The eviction loop keeps the bookkeeping invariant and removes stored keys without
      changing any value. */
  lemma {:induction false} EvictTracked<K, V>(store: map<K, V>, t: Tracker<K>, maxEntries: int)
    requires Tracked(store, t)
    ensures var r := Evict(store, t, maxEntries);
      Tracked(r.store, r.tracker) &&
      r.store.Keys <= store.Keys && (forall k :: k in r.store ==> r.store[k] == store[k])
    decreases |t.queue|
  {
    if |store| > maxEntries && t.queue != [] {
      var s := PopOne(store, t);
      PopTracked(store, t);
      if s.outcome.Pass? {
        EvictTracked(s.store, s.tracker, maxEntries);
      }
    }
  }

  /** The eviction loop consumes a prefix of the queue: the queue it leaves is a suffix of
      the old one. */
  lemma {:induction false} EvictSuffix<K, V>(store: map<K, V>, t: Tracker<K>, maxEntries: int)
    ensures var q := Evict(store, t, maxEntries).tracker.queue;
      |q| <= |t.queue| && q == t.queue[|t.queue| - |q|..] && (forall x :: x in q ==> x in t.queue)
    decreases |t.queue|
  {
    if |store| > maxEntries && t.queue != [] {
      var s := PopOne(store, t);
      var q := s.tracker.queue;
      if s.outcome.Pass? {
        EvictSuffix(s.store, s.tracker, maxEntries);
        SuffixOfTail(t.queue, Evict(s.store, s.tracker, maxEntries).tracker.queue);
      } else {
        assert q == t.queue[|t.queue| - |q|..];
      }
    }
  }

  /** A suffix of a sequence's tail is a suffix of the sequence. */
  lemma SuffixOfTail<K>(q: seq<K>, s: seq<K>)
    requires |q| > 0 && |s| <= |q| - 1 && s == q[1..][|q| - 1 - |s|..]
    ensures s == q[|q| - |s|..] && forall x :: x in s ==> x in q
  {
    assert q[1..][|q| - 1 - |s|..] == q[|q| - |s|..];
  }

  /** How the eviction loop ends. With a non-negative `max_entries` it never pops an empty
      queue, it fails only with KeyError (which needs a stale entry: a key whose last
      reference it drops but which the store no longer holds), and when it passes the store
      is within bounds. */
  lemma {:induction false} EvictOutcome<K, V>(store: map<K, V>, t: Tracker<K>, maxEntries: int)
    requires Tracked(store, t) && maxEntries >= 0
    ensures var r := Evict(store, t, maxEntries);
      (r.outcome == Pass ==> |r.store| <= maxEntries) &&
      (r.outcome == Pass || r.outcome == Fail(KeyError))
    decreases |t.queue|
  {
    if |store| > maxEntries {
      assert t.queue != [] by {
        var k :| k in store;
      }
      var s := PopOne(store, t);
      PopTracked(store, t);
      if s.outcome.Pass? {
        EvictOutcome(s.store, s.tracker, maxEntries);
      }
    }
  }

  /** The eviction loop is least-recently-used: a stored key survives exactly when one of
      its accesses lies in the part of the queue the loop did not consume, so the keys it
      removes are those whose most recent access is older than every survivor's. */
  lemma {:induction false} EvictLeastRecent<K, V>(store: map<K, V>, t: Tracker<K>, maxEntries: int)
    requires Tracked(store, t)
    ensures var r := Evict(store, t, maxEntries);
      forall k :: k in store ==> (k in r.store <==> k in r.tracker.queue)
    decreases |t.queue|
  {
    if |store| > maxEntries && t.queue != [] {
      var s := PopOne(store, t);
      PopTracked(store, t);
      if s.outcome.Pass? {
        EvictLeastRecent(s.store, s.tracker, maxEntries);
        EvictTracked(s.store, s.tracker, maxEntries);
        EvictSuffix(s.store, s.tracker, maxEntries);
      }
    }
  }

  /** The stronger invariant of a cache used only through its own get and set: besides
      Tracked, every queued key is stored (there are no stale entries). */
  ghost predicate Exact<K, V>(store: map<K, V>, t: Tracker<K>) {
    Tracked(store, t) && forall k :: k in t.queue ==> k in store
  }

  /** Recording an access keeps the cache-level invariant, whether or not the key is stored. */
  lemma TouchTracked<K, V>(store: map<K, V>, t: Tracker<K>, key: K, maxEntries: int)
    requires Tracked(store, t)
    ensures Tracked(store, Touch(t, key, maxEntries))
  {
    TouchCounted(t, key, maxEntries);
    TouchRecent(t, key, maxEntries);
  }

  /** Storing a value under a key and recording the access keeps the invariant, and keeps the
      bookkeeping exact if it was. */
  lemma WriteTracked<K, V>(store: map<K, V>, t: Tracker<K>, key: K, value: V, maxEntries: int)
    requires Tracked(store, t)
    ensures Tracked(store[key := value], Touch(t, key, maxEntries))
    ensures Exact(store, t) ==> Exact(store[key := value], Touch(t, key, maxEntries))
  {
    TouchCounted(t, key, maxEntries);
    TouchRecent(t, key, maxEntries);
  }

  /** Recording an access to a stored key keeps the bookkeeping exact. */
  lemma TouchExact<K, V>(store: map<K, V>, t: Tracker<K>, key: K, maxEntries: int)
    requires Exact(store, t) && key in store
    ensures Exact(store, Touch(t, key, maxEntries))
  {
    TouchCounted(t, key, maxEntries);
    TouchRecent(t, key, maxEntries);
  }

  /** Without stale entries the eviction loop always ends normally, within the bound, and
      leaves the bookkeeping exact. */
  lemma {:induction false} EvictExact<K, V>(store: map<K, V>, t: Tracker<K>, maxEntries: int)
    requires Exact(store, t) && maxEntries >= 0
    ensures var r := Evict(store, t, maxEntries);
      r.outcome == Pass && |r.store| <= maxEntries && Exact(r.store, r.tracker)
    decreases |t.queue|
  {
    if |store| > maxEntries {
      assert t.queue != [] by {
        var k :| k in store;
      }
      var s := PopOne(store, t);
      PopTracked(store, t);
      EvictExact(s.store, s.tracker, maxEntries);
    }
  }

  /** With room for at least one entry, the eviction loop never removes the key of the most
      recent access, nor changes its value: the key just written survives its own set. */
  lemma {:induction false} EvictKeepsNewest<K, V>(store: map<K, V>, t: Tracker<K>, maxEntries: int, key: K)
    requires Tracked(store, t) && maxEntries >= 1
    requires |t.queue| > 0 && t.queue[|t.queue| - 1] == key && key in store
    ensures var r := Evict(store, t, maxEntries); key in r.store && r.store[key] == store[key]
    decreases |t.queue|
  {
    if |store| > maxEntries {
      if |t.queue| == 1 {
        SingleQueue(store, t, key);
        assert false;
      }
      var rest := t.queue[1..];
      assert rest[|rest| - 1] == t.queue[|t.queue| - 1];
      var s := PopOne(store, t);
      PopTracked(store, t);
      if s.outcome.Pass? {
        EvictKeepsNewest(s.store, s.tracker, maxEntries, key);
      }
    }
  }

  /** A store whose every key is queued, with a queue of one entry, holds at most one key. */
  lemma SingleQueue<K, V>(store: map<K, V>, t: Tracker<K>, key: K)
    requires (forall k :: k in store ==> k in t.queue) && t.queue == [key]
    ensures |store| <= 1
  {
    assert store.Keys <= {key};
    SubsetSize(store.Keys, {key});
  }

  // ---------------------------------------------------------------------------------------
  // The loops themselves, shared by both LRU classes

  /** The counts part-way through a compaction pass over `q0`, once `i` entries are done: a key
      still ahead counts its remaining entries, a key whose last entry was passed counts 1,
      and an unqueued key keeps its count. */
  ghost predicate PassCounts<K>(q0: seq<K>, rc0: map<K, int>, i: nat, rc: map<K, int>)
    requires i <= |q0|
  {
    rc.Keys == rc0.Keys &&
    forall k :: k in rc0 ==>
      rc[k] == (if k in q0[i..] then multiset(q0[i..])[k] else if k in q0 then 1 else rc0[k])
  }

  /** One step of the compaction pass keeps PassCounts, and its test `refcount[k] == 1` holds
      exactly on a key's last entry. */
  lemma CompactStep<K>(q0: seq<K>, rc0: map<K, int>, i: nat, rc: map<K, int>)
    requires i < |q0| && (forall k :: k in q0 ==> k in rc0) && PassCounts(q0, rc0, i, rc)
    ensures q0[i] in rc
    ensures rc[q0[i]] == 1 <==> q0[i] !in q0[i + 1..]
    ensures rc[q0[i]] == 1 ==> PassCounts(q0, rc0, i + 1, rc)
    ensures rc[q0[i]] != 1 ==> PassCounts(q0, rc0, i + 1, rc[q0[i] := rc[q0[i]] - 1])
  {
    var k := q0[i];
    assert q0[i..] == [k] + q0[i + 1..];
    assert multiset(q0[i..]) == multiset{k} + multiset(q0[i + 1..]);
    assert k in q0[i..];
    assert rc[k] == 1 + multiset(q0[i + 1..])[k];
    assert forall x :: x in q0[i..] && x != k ==> x in q0[i + 1..];
  }

  /** `_housekeep(key)` step by step: the append and the count, then the compaction pass once
      the queue is too long. */
  method Housekeep<K>(t: Tracker<K>, key: K, maxEntries: int) returns (r: Tracker<K>)
    requires Counted(t)
    ensures r == Touch(t, key, maxEntries)
  {
    var queue := t.queue + [key];
    var refcount := t.refcount[key := Get0(t.refcount, key) + 1];
    r := Tracker(queue, refcount);
    if |queue| > maxEntries * 4 {
      AppendCounted(t, key);
      queue, refcount := CompactPass(queue, refcount);
      r := Tracker(queue, refcount);
    }
  }

  /** The compaction pass: pop every entry of the queue once, re-append it when its count is 1
      (it is the key's last entry) and otherwise decrement the count. */
  method CompactPass<K>(q0: seq<K>, rc0: map<K, int>) returns (queue: seq<K>, refcount: map<K, int>)
    requires Counted(Tracker(q0, rc0))
    ensures queue == KeepLast(q0) && refcount == Recount(q0, rc0)
  {
    PassStart(q0, rc0);
    queue, refcount := q0, rc0;
    ghost var done: seq<K> := [];
    var n := |queue|;
    var i := 0;
    while i < n
      invariant 0 <= i <= n == |q0|
      invariant queue == q0[i..] + done
      invariant done + KeepFrom(q0, i) == KeepLast(q0)
      invariant PassCounts(q0, rc0, i, refcount)
    {
      var k := queue[0];
      QueueStep(q0, i, done, queue);
      KeepStep(q0, i, done);
      CompactStep(q0, rc0, i, refcount);
      queue := queue[1..];
      if refcount[k] == 1 {
        queue := queue + [k];
        done := done + [k];
      } else {
        refcount := refcount[k := refcount[k] - 1];
      }
      i := i + 1;
    }
    PassEnd(q0, rc0, refcount);
  }

  /** One step of the compaction pass on the queue: the popped entry is `q0[i]`, and the rest
      of the queue is what remains ahead followed by what was kept. */
  lemma QueueStep<K>(q0: seq<K>, i: nat, done: seq<K>, queue: seq<K>)
    requires i < |q0| && queue == q0[i..] + done
    ensures queue[0] == q0[i] && queue[1..] == q0[i + 1..] + done
    ensures queue[1..] + [q0[i]] == q0[i + 1..] + (done + [q0[i]])
  {
    assert q0[i..] == [q0[i]] + q0[i + 1..];
    QueuePop(q0[i..], q0[i], q0[i + 1..], done, queue);
  }

  /** Re-appending the popped entry exactly when it is its key's last one keeps the kept
      entries on their way to KeepLast. */
  lemma KeepStep<K>(q0: seq<K>, i: nat, done: seq<K>)
    requires i < |q0| && done + KeepFrom(q0, i) == KeepLast(q0)
    ensures q0[i] !in q0[i + 1..] ==> (done + [q0[i]]) + KeepFrom(q0, i + 1) == KeepLast(q0)
    ensures q0[i] in q0[i + 1..] ==> done + KeepFrom(q0, i + 1) == KeepLast(q0)
  {
    var later := KeepFrom(q0, i + 1);
    if q0[i] !in q0[i + 1..] {
      assert KeepFrom(q0, i) == [q0[i]] + later;
      KeptEntry(done, q0[i], later, KeepLast(q0));
    } else {
      assert KeepFrom(q0, i) == [] + later == later;
    }
  }

  lemma QueuePop<K>(ahead: seq<K>, k: K, tail: seq<K>, done: seq<K>, queue: seq<K>)
    requires ahead == [k] + tail && queue == ahead + done
    ensures queue[0] == k && queue[1..] == tail + done && queue[1..] + [k] == tail + (done + [k])
  {
    assert queue == [k] + (tail + done);
  }

  lemma KeptEntry<K>(done: seq<K>, k: K, later: seq<K>, whole: seq<K>)
    requires done + ([k] + later) == whole
    ensures (done + [k]) + later == whole
  {
  }

  /** Before the compaction pass, the counts are those of PassCounts at 0 and every queued
      key is counted. */
  lemma PassStart<K>(q0: seq<K>, rc0: map<K, int>)
    requires Counted(Tracker(q0, rc0))
    ensures (forall k :: k in q0 ==> k in rc0) && PassCounts(q0, rc0, 0, rc0)
  {
    forall k | k in q0 ensures k in rc0 {
      CountedAt(Tracker(q0, rc0), k);
    }
    assert q0[0..] == q0;
    forall k | k in rc0 ensures multiset(q0)[k] == rc0[k] {
      CountedAt(Tracker(q0, rc0), k);
    }
  }

  /** After the compaction pass, the counts are Recount's. */
  lemma PassEnd<K>(q0: seq<K>, rc0: map<K, int>, rc: map<K, int>)
    requires PassCounts(q0, rc0, |q0|, rc)
    ensures rc == Recount(q0, rc0)
  {
    assert q0[|q0|..] == [];
  }

  /** The eviction loop of `__setitem__`, on the store and the bookkeeping. */
  method EvictOverflow<K, V>(store0: map<K, V>, t: Tracker<K>, maxEntries: int) returns (r: Evicted<K, V>)
    ensures r == Evict(store0, t, maxEntries)
  {
    var store, queue, refcount := store0, t.queue, t.refcount;
    while |store| > maxEntries
      invariant Evict(store, Tracker(queue, refcount), maxEntries) == Evict(store0, t, maxEntries)
      decreases |queue|
    {
      if queue == [] {
        return Evicted(Fail(IndexError), store, Tracker(queue, refcount));
      }
      ghost var s := PopOne(store, Tracker(queue, refcount));
      var k := queue[0];
      queue := queue[1..];
      if k !in refcount {
        return Evicted(Fail(KeyError), store, Tracker(queue, refcount));
      }
      var c := refcount[k] - 1;
      if c != 0 {
        refcount := refcount[k := c];
      } else if k !in store {
        return Evicted(Fail(KeyError), store, Tracker(queue, refcount[k := 0]));
      } else {
        store := store - {k};
        refcount := refcount - {k};
      }
      assert s == Evicted(Pass, store, Tracker(queue, refcount));
    }
    r := Evicted(Pass, store, Tracker(queue, refcount));
  }
}
