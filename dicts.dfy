/** Python dict behaviour shared by every store: iteration and successive assignment. */
module Dicts {

  /** No element occurs twice. */
  predicate Distinct<K(==)>(s: seq<K>) {
    forall i, j :: 0 <= i < j < |s| ==> s[i] != s[j]
  }

  /** `ks` lists every key of `s` exactly once: what iterating a Python dict yields. */
  predicate Enumerates<K>(ks: seq<K>, s: set<K>) {
    Distinct(ks) &&
    (forall k :: k in ks ==> k in s) && (forall k :: k in s ==> k in ks)
  }

  /** `d.get(k, 0)` on an integer-valued dict. */
  function Get0<K>(m: map<K, int>, k: K): int {
    if k in m then m[k] else 0
  }

  /** The keys of `order` still present in `m`, in the same order: a dict's iteration order
      after deletions (removing keys never reorders the remaining ones). */
  function Surviving<K, V>(order: seq<K>, m: map<K, V>): (r: seq<K>)
    ensures forall k :: k in r ==> k in order && k in m
    ensures forall k :: k in order && k in m ==> k in r
    ensures |r| <= |order|
  {
    if order == [] then []
    else (if order[0] in m then [order[0]] else []) + Surviving(order[1..], m)
  }

  /** Deleting keys from a dict keeps the surviving keys an enumeration of the smaller dict. */
  lemma {:induction false} SurvivingEnumerates<K, V, W>(order: seq<K>, big: map<K, W>, m: map<K, V>)
    requires Enumerates(order, big.Keys)
    requires m.Keys <= big.Keys
    ensures Enumerates(Surviving(order, m), m.Keys)
  {
    SurvivingDistinct(order, m);
  }

  lemma {:induction false} SurvivingDistinct<K, V>(order: seq<K>, m: map<K, V>)
    requires Distinct(order)
    ensures Distinct(Surviving(order, m))
  {
    if order != [] {
      var tail := order[1..];
      assert Distinct(tail) by {
        forall i, j | 0 <= i < j < |tail| ensures tail[i] != tail[j] {
          assert tail[i] == order[i + 1] && tail[j] == order[j + 1];
        }
      }
      SurvivingDistinct(tail, m);
      assert order[0] !in tail by {
        forall i | 0 <= i < |tail| ensures tail[i] != order[0] {
          assert tail[i] == order[i + 1];
        }
      }
      var rt := Surviving(tail, m);
      assert order[0] !in rt;
      if order[0] in m {
        var r := [order[0]] + rt;
        assert Surviving(order, m) == r;
        forall i, j | 0 <= i < j < |r| ensures r[i] != r[j] {
          if i > 0 {
            assert r[i] == rt[i - 1] && r[j] == rt[j - 1];
          } else {
            assert r[j] == rt[j - 1];
          }
        }
      } else {
        assert Surviving(order, m) == rt;
      }
    }
  }

  /** Dropping the first element keeps a sequence duplicate-free, and that element does not
      occur again. */
  lemma DistinctTail<K>(order: seq<K>)
    requires Distinct(order) && order != []
    ensures Distinct(order[1..]) && order[0] !in order[1..]
  {
    var tail := order[1..];
    forall i, j | 0 <= i < j < |tail| ensures tail[i] != tail[j] {
      assert tail[i] == order[i + 1] && tail[j] == order[j + 1];
    }
    forall j | 0 <= j < |tail| ensures tail[j] != order[0] {
      assert tail[j] == order[j + 1];
    }
  }

  /** An enumeration of a set is exactly as long as the set is large. */
  lemma {:induction false} EnumeratesSize<K>(ks: seq<K>, s: set<K>)
    requires Enumerates(ks, s)
    ensures |ks| == |s|
    decreases |ks|
  {
    if ks != [] {
      DistinctTail(ks);
      EnumeratesSize(ks[1..], s - {ks[0]});
    }
  }

  /** The elements of a sequence. */
  function Elems<K>(ks: seq<K>): set<K> {
    set k | k in ks
  }

  /** One more element of the sequence adds that element. */
  lemma ElemsSnoc<K>(ks: seq<K>, i: nat)
    requires i < |ks|
    ensures Elems(ks[..i + 1]) == Elems(ks[..i]) + {ks[i]}
  {
    assert ks[..i + 1] == ks[..i] + [ks[i]];
  }

  /** An enumeration of a set has exactly that set's elements. */
  lemma ElemsEnumerates<K>(ks: seq<K>, s: set<K>)
    requires Enumerates(ks, s)
    ensures Elems(ks) == s
  {
  }

  /** Removing one more key from a dict already stripped of some. */
  lemma RemoveMore<K, V>(m: map<K, V>, gone: set<K>, k: K)
    ensures (m - gone) - {k} == m - (gone + {k})
  {
  }

  /** Lists the keys of a dict, once each, in some order (`list(d.keys())`). */
  method EnumerateKeys<K, V>(m: map<K, V>) returns (ks: seq<K>)
    ensures Enumerates(ks, m.Keys)
  {
    ks := [];
    var rest := m.Keys;
    while rest != {}
      invariant rest <= m.Keys
      invariant forall k :: k in ks ==> k in m.Keys && k !in rest
      invariant forall k :: k in m.Keys && k !in rest ==> k in ks
      invariant Distinct(ks)
      decreases rest
    {
      var k :| k in rest;
      ks := ks + [k];
      rest := rest - {k};
    }
  }

  /** The keys named by a sequence of pairs. */
  function PairKeys<K, V>(pairs: seq<(K, V)>): (r: set<K>)
    ensures forall i :: 0 <= i < |pairs| ==> pairs[i].0 in r
  {
    if pairs == [] then {} else {pairs[0].0} + PairKeys(pairs[1..])
  }

  /** `for k, v in pairs: d[k] = v`, the loop body every `update` runs. */
  function Assign<K, V>(m: map<K, V>, pairs: seq<(K, V)>): map<K, V>
    decreases |pairs|
  {
    if pairs == [] then m else Assign(m[pairs[0].0 := pairs[0].1], pairs[1..])
  }

  /** Assigning pairs one after another: keys not named keep their old entry (or stay absent),
      and a named key ends with the value of its LAST pair (later writes win). */
  lemma {:induction false} AssignLaterWins<K, V>(m: map<K, V>, pairs: seq<(K, V)>)
    ensures Assign(m, pairs).Keys == m.Keys + PairKeys(pairs)
    ensures forall k :: k in m && k !in PairKeys(pairs) ==> Assign(m, pairs)[k] == m[k]
    ensures forall i :: 0 <= i < |pairs| && pairs[i].0 !in PairKeys(pairs[i + 1..]) ==>
              Assign(m, pairs)[pairs[i].0] == pairs[i].1
    decreases |pairs|
  {
    if pairs != [] {
      var m' := m[pairs[0].0 := pairs[0].1];
      var tail := pairs[1..];
      AssignLaterWins(m', tail);
      forall i | 0 <= i < |pairs| && pairs[i].0 !in PairKeys(pairs[i + 1..])
        ensures Assign(m, pairs)[pairs[i].0] == pairs[i].1
      {
        if i > 0 {
          assert pairs[i] == tail[i - 1];
          assert pairs[i + 1..] == tail[i..];
        } else {
          assert pairs[1..] == tail;
        }
      }
    }
  }

  /** The running form of Assign that a `for` loop over the pairs maintains. */
  lemma {:induction false} AssignSnoc<K, V>(m: map<K, V>, pairs: seq<(K, V)>, p: (K, V))
    ensures Assign(m, pairs + [p]) == Assign(m, pairs)[p.0 := p.1]
    decreases |pairs|
  {
    if pairs != [] {
      assert (pairs + [p])[1..] == pairs[1..] + [p];
      AssignSnoc(m[pairs[0].0 := pairs[0].1], pairs[1..], p);
    }
  }

  /** The pairs `(k, m[k])` for the keys of `order`, in that order: `items()` of a mapping
      whose keys are listed in `order`. */
  function Listed<K, V>(m: map<K, V>, order: seq<K>): (r: seq<(K, V)>)
    requires forall k :: k in order ==> k in m
    ensures |r| == |order| && forall i :: 0 <= i < |order| ==> r[i] == (order[i], m[order[i]])
    decreases |order|
  {
    if order == [] then [] else [(order[0], m[order[0]])] + Listed(m, order[1..])
  }

  /** Assigning the listed pairs of `m` copies `m`'s entries for the listed keys and keeps
      every other entry. */
  lemma {:induction false} AssignListed<K, V>(m0: map<K, V>, m: map<K, V>, order: seq<K>)
    requires forall k :: k in order ==> k in m
    ensures var r := Assign(m0, Listed(m, order));
      (forall k :: k in r ==> k in m0 || k in order) &&
      (forall k :: k in m0 ==> k in r) &&
      (forall k :: k in order ==> k in r && r[k] == m[k]) &&
      (forall k :: k in m0 && k !in order ==> r[k] == m0[k])
    decreases |order|
  {
    if order != [] {
      var m1 := m0[order[0] := m[order[0]]];
      assert Listed(m, order)[1..] == Listed(m, order[1..]);
      AssignListed(m1, m, order[1..]);
      assert forall k :: k in order <==> k == order[0] || k in order[1..];
    }
  }

  /** Listing one more key appends its pair. */
  lemma ListedSnoc<K, V>(m: map<K, V>, order: seq<K>, k: K)
    requires forall j :: j in order ==> j in m
    requires k in m
    ensures Listed(m, order + [k]) == Listed(m, order) + [(k, m[k])]
  {
  }

  /** Assigning every listed pair of `m` over `m0` is the dict union `m0` overwritten by
      `m`: what `for k, v in items(m): d[k] = v` leaves in `d`. */
  lemma AssignAll<K, V>(m0: map<K, V>, m: map<K, V>, order: seq<K>)
    requires Enumerates(order, m.Keys)
    ensures Assign(m0, Listed(m, order)) == m0 + m
  {
    var r := Assign(m0, Listed(m, order));
    AssignListed(m0, m, order);
    assert forall k :: k in m <==> k in order;
    assert r.Keys == (m0 + m).Keys;
    forall k | k in r
      ensures r[k] == (m0 + m)[k]
    {
      if k in m {
        assert k in order;
      }
    }
  }

  /** `dict(d.items())` is `d` again. */
  lemma DictOfItems<K, V>(m: map<K, V>, order: seq<K>)
    requires Enumerates(order, m.Keys)
    ensures Assign(map[], Listed(m, order)) == m
  {
    var none: map<K, V> := map[];
    AssignAll(none, m, order);
    assert none + m == m;
  }

  /** A subset as large as its superset is the whole set. */
  lemma SubsetSameSize<K>(a: set<K>, b: set<K>)
    requires a <= b && |a| == |b|
    ensures a == b
  {
    if a != b {
      var x :| x in b && x !in a;
      SubsetSize(a, b - {x});
    }
  }

  /** A subset is no larger than its superset. */
  lemma {:induction false} SubsetSize<K>(a: set<K>, b: set<K>)
    requires a <= b
    ensures |a| <= |b|
    decreases |a|
  {
    if a != {} {
      var y :| y in a;
      SubsetSize(a - {y}, b - {y});
    }
  }
}
