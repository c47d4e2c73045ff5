/**
 * Python dictionaries filled by a loop of `d[key] = value` assignments, as
 * the parsers build their results: `dict(pairs)`, `d.update(other)` and the
 * tables keyed by pair number or by time.  The dictionary is the map of the
 * assignments made, in order, and a later assignment to a key wins.
 */
module Assoc {
  import Text

  /** The dictionary left by assigning the pairs of `l` in order. */
  function AsMap<K, V>(l: seq<(K, V)>): map<K, V>
    decreases |l|
  {
    if l == [] then map[] else AsMap(l[..|l| - 1])[l[|l| - 1].0 := l[|l| - 1].1]
  }

  /** One more assignment. */
  lemma AsMapSnoc<K, V>(l: seq<(K, V)>, k: K, v: V)
    ensures AsMap(l + [(k, v)]) == AsMap(l)[k := v]
  {
    assert (l + [(k, v)])[..|l|] == l;
  }

  /** At most one more assignment. */
  lemma AsMapSnocAtMostOne<K, V>(l: seq<(K, V)>, e: seq<(K, V)>)
    requires |e| <= 1
    ensures AsMap(l + e) == if e == [] then AsMap(l) else AsMap(l)[e[0].0 := e[0].1]
  {
    if e == [] {
      assert l + e == l;
    } else {
      assert e == [(e[0].0, e[0].1)];
      AsMapSnoc(l, e[0].0, e[0].1);
    }
  }

  /** A key is in the dictionary exactly when some assignment was made to it. */
  lemma {:induction false} AsMapKeys<K, V>(l: seq<(K, V)>, k: K)
    ensures k in AsMap(l) <==> exists i :: 0 <= i < |l| && l[i].0 == k
    decreases |l|
  {
    if l != [] {
      var init := l[..|l| - 1];
      AsMapKeys(init, k);
      if k in AsMap(init) {
        var i :| 0 <= i < |init| && init[i].0 == k;
        assert l[i].0 == k;
      }
      if exists i :: 0 <= i < |l| && l[i].0 == k {
        var i :| 0 <= i < |l| && l[i].0 == k;
        if i < |init| {
          assert init[i].0 == k;
        }
      }
    }
  }

  /** The value of a key is the one of its last assignment. */
  lemma {:induction false} AsMapLast<K, V>(l: seq<(K, V)>, i: nat)
    requires i < |l|
    requires forall j :: i < j < |l| ==> l[j].0 != l[i].0
    ensures l[i].0 in AsMap(l) && AsMap(l)[l[i].0] == l[i].1
    decreases |l|
  {
    if i < |l| - 1 {
      var init := l[..|l| - 1];
      AsMapLast(init, i);
    }
  }

  /** `d.update(other)`: the assignments of `other` come after those of `d`. */
  lemma {:induction false} AsMapAppend<K, V>(a: seq<(K, V)>, b: seq<(K, V)>)
    ensures AsMap(a + b) == AsMap(a) + AsMap(b)
    decreases |b|
  {
    if b == [] {
      assert a + b == a;
    } else {
      var init := b[..|b| - 1];
      var last := b[|b| - 1];
      AsMapAppend(a, init);
      assert b == init + [last];
      Text.ConcatAssoc(a, init, [last]);
      AsMapSnoc(a + init, last.0, last.1);
      AsMapSnoc(init, last.0, last.1);
    }
  }
}
