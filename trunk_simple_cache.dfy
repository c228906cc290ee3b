/** trunk/shove/cache/simple.py: the older in-process cache. Values live in one dict and
    their expiry times in a second; a key with no expiry time counts as expired (in Python 2
    `None` is less than every number). Expired entries are removed lazily by a lookup, or by
    a cull once the cache holds `max_entries` values. */
module TrunkSimpleCache {
  import opened Wrappers
  import opened Dicts

  /** The `max_entries` keyword as given: absent, an int, a string, or `None`. */
  datatype Setting = Missing | IntArg(n: int) | TextArg(s: string) | NoneArg

  /** The characters Python's `int()` strips around a number. */
  predicate IsSpace(c: char) {
    c == ' ' || '\t' <= c <= '\r'
  }

  predicate IsDigit(c: char) {
    '0' <= c <= '9'
  }

  predicate AllDigits(s: string) {
    forall i :: 0 <= i < |s| ==> IsDigit(s[i])
  }

  /** Drops leading whitespace. */
  function TrimLeft(s: string): (r: string)
    ensures |r| <= |s| && r == s[|s| - |r|..]
    ensures r != [] ==> !IsSpace(r[0])
    ensures forall i :: 0 <= i < |s| - |r| ==> IsSpace(s[i])
  {
    if s != [] && IsSpace(s[0]) then TrimLeft(s[1..]) else s
  }

  /** Drops trailing whitespace. */
  function TrimRight(s: string): (r: string)
    ensures |r| <= |s| && r == s[..|r|]
    ensures r != [] ==> !IsSpace(r[|r| - 1])
    ensures forall i :: |r| <= i < |s| ==> IsSpace(s[i])
  {
    if s != [] && IsSpace(s[|s| - 1]) then TrimRight(s[..|s| - 1]) else s
  }

  function Strip(s: string): string {
    TrimRight(TrimLeft(s))
  }

  /** The number a string of decimal digits denotes. */
  function Value(ds: string): nat
    requires AllDigits(ds)
  {
    if ds == [] then 0 else Value(ds[..|ds| - 1]) * 10 + (ds[|ds| - 1] as int - '0' as int)
  }

  /** `int(s)` on a string: surrounding whitespace, an optional sign, then one or more
      decimal digits; anything else is a ValueError (`None`). */
  function ParseInt(s: string): (r: Option<int>)
    ensures Strip(s) == [] ==> r == None
  {
    ParseStripped(Strip(s))
  }

  /** `int()` on text already stripped of whitespace. */
  function ParseStripped(t: string): Option<int> {
    if t != [] && (t[0] == '-' || t[0] == '+') then
      var ds := t[1..];
      if ds != [] && AllDigits(ds) then Some(if t[0] == '-' then -(Value(ds) as int) else Value(ds) as int) else None
    else if t != [] && AllDigits(t) then Some(Value(t))
    else None
  }

  function Digit(d: nat): (c: char)
    requires d < 10
    ensures IsDigit(c)
  {
    ('0' as int + d) as char
  }

  /** `str(n)` of a natural number. */
  function NatText(n: nat): (r: string)
    ensures r != [] && AllDigits(r)
  {
    if n < 10 then [Digit(n)] else NatText(n / 10) + [Digit(n % 10)]
  }

  /** `str(n)`. */
  function IntText(n: int): string {
    if n < 0 then "-" + NatText(-n) else NatText(n)
  }

  lemma {:induction false} ValueNatText(n: nat)
    ensures Value(NatText(n)) == n
  {
    if n >= 10 {
      var s := NatText(n / 10) + [Digit(n % 10)];
      assert s[..|s| - 1] == NatText(n / 10);
      ValueNatText(n / 10);
    }
  }

  /** A string with no whitespace at either end is its own strip. */
  lemma StripSolid(s: string)
    requires s != [] && !IsSpace(s[0]) && !IsSpace(s[|s| - 1])
    ensures Strip(s) == s
  {
  }

  /** A run of digits is read as its value. */
  lemma ParseDigits(ds: string, n: nat)
    requires ds != [] && AllDigits(ds) && Value(ds) == n
    ensures ParseInt(ds) == Some(n)
  {
    assert IsDigit(ds[0]) && IsDigit(ds[|ds| - 1]);
    StripSolid(ds);
  }

  /** A run of digits after a minus is read as the negated value. */
  lemma ParseNegative(ds: string, n: nat)
    requires ds != [] && AllDigits(ds) && Value(ds) == n
    ensures ParseInt("-" + ds) == Some(-(n as int))
  {
    var neg := "-" + ds;
    assert neg[1..] == ds;
    assert IsDigit(neg[|neg| - 1]) by {
      assert neg[|neg| - 1] == ds[|ds| - 1];
    }
    StripSolid(neg);
  }

  /** `int(str(n)) == n`: every integer setting given as its decimal text is read back. */
  lemma ParseIntText(n: int)
    ensures ParseInt(IntText(n)) == Some(n)
  {
    if n < 0 {
      ValueNatText(-n);
      ParseNegative(NatText(-n), -n);
    } else {
      ValueNatText(n);
      ParseDigits(NatText(n), n);
    }
  }

  /** A string of whitespace only is no number. */
  lemma ParseBlank(s: string)
    requires forall i :: 0 <= i < |s| ==> IsSpace(s[i])
    ensures ParseInt(s) == None
  {
  }

  /** Text that starts with neither a sign nor a digit is no number. */
  lemma ParseWord(s: string)
    requires s != [] && !IsSpace(s[0]) && !IsSpace(s[|s| - 1])
    requires !IsDigit(s[0]) && s[0] != '-' && s[0] != '+'
    ensures ParseInt(s) == None
  {
    StripSolid(s);
  }

  /** `int(max_entries)`, falling back to 300 on ValueError (an unparsable string) or
      TypeError (`None`). */
  function MaxEntries(setting: Setting): (r: int)
    ensures setting.IntArg? ==> r == setting.n
    ensures setting.TextArg? && ParseInt(setting.s).Some? ==> r == ParseInt(setting.s).value
    ensures !setting.IntArg? && !(setting.TextArg? && ParseInt(setting.s).Some?) ==> r == 300
  {
    match setting
    case Missing => 300
    case IntArg(n) => n
    case TextArg(s) => ParseInt(s).GetOr(300)
    case NoneArg => 300
  }

  /** A numeric setting, given as an int or as its text, is taken as it is. */
  lemma MaxEntriesText(n: int)
    ensures MaxEntries(TextArg(IntText(n))) == n == MaxEntries(IntArg(n))
  {
    ParseIntText(n);
  }

  /** A setting that is no number at all leaves the default. */
  lemma MaxEntriesFallback()
    ensures MaxEntries(TextArg("many")) == 300
    ensures MaxEntries(TextArg(" ")) == 300
    ensures MaxEntries(NoneArg) == 300
  {
    ParseWord("many");
    ParseBlank(" ");
  }

  /** Keys whose expiry time has passed. */
  function Expired<K>(expire: map<K, int>, now: int): set<K> {
    set k | k in expire && expire[k] < now
  }

  /** `_cull` as written: it walks the expiry dict itself (`iteritems()`) and deletes from
      it, so the step after the first deletion raises RuntimeError. `order` is the dict's
      iteration order. */
  function CullAsWritten<K, V>(cache: map<K, V>, expire: map<K, int>, order: seq<K>, now: int)
    : (r: (Outcome, map<K, V>, map<K, int>))
    requires forall k :: k in order ==> k in expire
    ensures r.0 == Pass ==> r.1 == cache && r.2 == expire
    ensures r.0 != Pass ==> r.0 == Fail(RuntimeError)
  {
    if order == [] then (Pass, cache, expire)
    else if expire[order[0]] < now then (Fail(RuntimeError), cache - {order[0]}, expire - {order[0]})
    else CullAsWritten(cache, expire, order[1..], now)
  }

  /** The cull as written succeeds exactly when there is nothing to cull; when there is, it
      removes one expired entry and raises. */
  lemma {:induction false} CullAsWrittenFails<K, V>(cache: map<K, V>, expire: map<K, int>, order: seq<K>, now: int)
    requires Enumerates(order, expire.Keys)
    ensures CullAsWritten(cache, expire, order, now).0 == Pass <==> Expired(expire, now) == {}
    ensures CullAsWritten(cache, expire, order, now).0 != Pass ==>
      exists k :: k in Expired(expire, now) &&
        CullAsWritten(cache, expire, order, now).1 == cache - {k} &&
        CullAsWritten(cache, expire, order, now).2 == expire - {k}
  {
    CullPrefix(cache, expire, order, now, 0);
  }

  /** Walking `order[i..]` after a prefix with nothing expired. */
  lemma {:induction false} CullPrefix<K, V>(cache: map<K, V>, expire: map<K, int>, order: seq<K>, now: int, i: nat)
    requires Enumerates(order, expire.Keys) && i <= |order|
    requires forall j :: 0 <= j < i ==> expire[order[j]] >= now
    ensures CullAsWritten(cache, expire, order[i..], now).0 == Pass <==> Expired(expire, now) == {}
    ensures CullAsWritten(cache, expire, order[i..], now).0 != Pass ==>
      exists k :: k in Expired(expire, now) &&
        CullAsWritten(cache, expire, order[i..], now).1 == cache - {k} &&
        CullAsWritten(cache, expire, order[i..], now).2 == expire - {k}
    decreases |order| - i
  {
    if i == |order| {
      forall k | k in expire
        ensures expire[k] >= now
      {
        var j :| 0 <= j < |order| && order[j] == k;
      }
    } else {
      assert order[i..][1..] == order[i + 1..];
      if expire[order[i]] < now {
        assert order[i] in Expired(expire, now);
      } else {
        CullPrefix(cache, expire, order, now, i + 1);
      }
    }
  }

  /** `__setitem__` with the cull as written: when the cull raises, the new value is never
      stored. */
  function SetAsWritten<K, V>(cache: map<K, V>, expire: map<K, int>, order: seq<K>, maxEntries: int,
                              timeout: int, key: K, value: V, now: int)
    : (r: (Outcome, map<K, V>, map<K, int>))
    requires forall k :: k in order ==> k in expire
    ensures r.0 == Pass ==> key in r.1 && r.1[key] == value && key in r.2 && r.2[key] == now + timeout
  {
    var (o, c, e) := if |cache| >= maxEntries then CullAsWritten(cache, expire, order, now)
                     else (Pass, cache, expire);
    if o == Pass then (Pass, c[key := value], e[key := now + timeout]) else (o, c, e)
  }

  /** A full cache holding one expired entry: storing a second key raises RuntimeError and
      leaves that key out. */
  lemma SetAsWrittenLosesWrite()
    ensures var r := SetAsWritten(map["a" := 1], map["a" := 0], ["a"], 1, 300, "b", 2, 5);
            r.0 == Fail(RuntimeError) && "b" !in r.1 && r.1 == map[]
  {
    var c: map<string, int> := map["a" := 1];
    assert c - {"a"} == map[];
  }

  /** `SimpleCache`: `cache` holds the values and `expire` their expiry times. */
  class SimpleCache<K(==), V> {
    var cache: map<K, V>
    var expire: map<K, int>
    const maxEntries: int
    const timeout: int

    /** Every cached value has an expiry time. */
    ghost predicate Valid()
      reads this
    {
      cache.Keys <= expire.Keys
    }

    /** `SimpleCache(engine, max_entries=...)`; `timeout` is what the base class sets, and
        the engine URI is unused. */
    constructor (setting: Setting, timeout: int)
      ensures cache == map[] && expire == map[] && Valid()
      ensures maxEntries == MaxEntries(setting) && this.timeout == timeout
    {
      cache, expire := map[], map[];
      maxEntries := MaxEntries(setting);
      this.timeout := timeout;
    }

    /** `__getitem__` at time `now`: an expired (or never timed) key is dropped from the
        value dict and raises KeyError; otherwise the stored value or KeyError. In a valid
        cache a never timed key has no value, so dropping it changes nothing. */
    method Get(key: K, now: int) returns (r: Result<V>)
      modifies this
      ensures expire == old(expire)
      ensures key !in expire || expire[key] < now ==> r == Err(KeyError) && cache == old(cache) - {key}
      ensures key in expire && expire[key] >= now ==> cache == old(cache)
      ensures key in expire && expire[key] >= now && key in cache ==> r == Ok(cache[key])
      ensures key in expire && expire[key] >= now && key !in cache ==> r == Err(KeyError)
      ensures old(Valid()) && key !in expire ==> cache == old(cache)
      ensures old(Valid()) ==> Valid()
    {
      if key !in expire || expire[key] < now {
        // `del self._cache[key]`: KeyError when absent, and KeyError from the lookup otherwise
        cache := cache - {key};
        return Err(KeyError);
      }
      if key !in cache {
        return Err(KeyError);
      }
      r := Ok(cache[key]);
    }

    /** `__setitem__` at time `now`: a full cache is culled first, then the value is stored
        with expiry time `now + timeout`. The cull only removes expired entries, so the
        cache can still exceed `maxEntries`. */
    method Set(key: K, value: V, now: int)
      modifies this
      ensures |old(cache)| >= maxEntries ==>
        cache == (old(cache) - Expired(old(expire), now))[key := value] &&
        expire == (old(expire) - Expired(old(expire), now))[key := now + timeout]
      ensures |old(cache)| < maxEntries ==>
        cache == old(cache)[key := value] && expire == old(expire)[key := now + timeout]
      ensures old(Valid()) ==> Valid()
    {
      if |cache| >= maxEntries {
        Cull(now);
      }
      cache := cache[key := value];
      expire := expire[key := now + timeout];
    }

    /** `__delitem__`: removes the key from both dicts, silently when absent. */
    method Delete(key: K)
      modifies this
      ensures cache == old(cache) - {key} && expire == old(expire) - {key}
      ensures old(Valid()) ==> Valid()
    {
      cache := cache - {key};
      expire := expire - {key};
    }

    /** `get(key, default)` at time `now`: a key with no expiry time gives the default; an
        expired key is deleted and gives the default; otherwise the stored value, or KeyError
        when the value dict lacks it. */
    method GetOr(key: K, default: V, now: int) returns (r: Result<V>)
      modifies this
      ensures key !in old(expire) ==> r == Ok(default) && cache == old(cache) && expire == old(expire)
      ensures key in old(expire) && old(expire)[key] < now ==>
        r == Ok(default) && cache == old(cache) - {key} && expire == old(expire) - {key}
      ensures key in old(expire) && old(expire)[key] >= now ==> cache == old(cache) && expire == old(expire)
      ensures key in old(expire) && old(expire)[key] >= now && key in cache ==> r == Ok(cache[key])
      ensures key in old(expire) && old(expire)[key] >= now && key !in cache ==> r == Err(KeyError)
      ensures old(Valid()) ==> Valid()
    {
      if key !in expire {
        return Ok(default);
      }
      if expire[key] < now {
        Delete(key);
        return Ok(default);
      }
      if key !in cache {
        return Err(KeyError);
      }
      r := Ok(cache[key]);
    }

    /** `_cull`, corrected to walk a snapshot of the expiry dict: removes exactly the
        entries whose expiry time has passed, from both dicts. */
    method Cull(now: int)
      modifies this
      ensures cache == old(cache) - Expired(old(expire), now)
      ensures expire == old(expire) - Expired(old(expire), now)
    {
      var ks := EnumerateKeys(expire);
      ghost var e0, c0 := expire, cache;
      ghost var gone: set<K> := {};
      var i := 0;
      while i < |ks|
        invariant 0 <= i <= |ks|
        invariant cache == c0 - gone && expire == e0 - gone
        invariant gone <= Expired(e0, now) && gone <= Elems(ks[..i])
        invariant forall j :: 0 <= j < i && e0[ks[j]] < now ==> ks[j] in gone
      {
        var k := ks[i];
        assert k !in Elems(ks[..i]);
        ElemsSnoc(ks, i);
        if expire[k] < now {
          RemoveMore(cache, gone, k);
          RemoveMore(expire, gone, k);
          cache, expire := cache - {k}, expire - {k};
          gone := gone + {k};
        }
        i := i + 1;
      }
      assert gone == Expired(e0, now) by {
        forall k | k in Expired(e0, now)
          ensures k in gone
        {
          var j :| 0 <= j < |ks| && ks[j] == k;
        }
      }
    }
  }

  /** With `max_entries` 1, two fresh values are both kept: the cull leaves unexpired
      entries, so the cache grows past its bound. */
  method OverBound() returns (n: nat)
    ensures n == 2
  {
    var c := new SimpleCache<string, int>(IntArg(1), 300);
    c.Set("a", 1, 0);
    c.Set("b", 2, 10);
    assert "a" !in Expired(map["a" := 300], 10);
    assert c.cache == map["a" := 1, "b" := 2];
    n := |c.cache|;
  }
}
