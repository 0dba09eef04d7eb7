/**
 * Dictionary-building idioms shared by the loaders: assigning key/value pairs
 * into a dict one after another (a later pair overwrites an earlier one), and
 * grouping values into per-key lists by appending.
 */
module Collections {

  /** The keys that occur in `pairs`. */
  function KeysOf<K, V>(pairs: seq<(K, V)>): set<K> {
    set i | 0 <= i < |pairs| :: pairs[i].0
  }

  /** The dict that `d = {}; for k, v in pairs: d[k] = v` leaves behind
      (also what `dict(pairs)` and `dict(zip(keys, values))` build). */
  function DictOf<K, V>(pairs: seq<(K, V)>): (d: map<K, V>)
    ensures d.Keys == KeysOf(pairs)
    ensures |d| <= |pairs|
    decreases |pairs|
  {
    if pairs == [] then map[]
    else
      var init := pairs[..|pairs| - 1];
      assert forall i :: 0 <= i < |init| ==> init[i] == pairs[i];
      var d0 := DictOf(init);
      var d := d0[pairs[|pairs| - 1].0 := pairs[|pairs| - 1].1];
      assert d.Keys == d0.Keys + {pairs[|pairs| - 1].0};
      d
  }

  /** Assigning one more pair overwrites its key's value. */
  lemma DictOfStep<K, V>(pairs: seq<(K, V)>, i: nat)
    requires i < |pairs|
    ensures DictOf(pairs[..i + 1]) == DictOf(pairs[..i])[pairs[i].0 := pairs[i].1]
  {
    assert pairs[..i + 1][..i] == pairs[..i];
  }

  /** A later pair overwrites an earlier one: the value of a key is the value
      of the last pair that carries it. */
  lemma {:induction false} DictOfLastWins<K, V>(pairs: seq<(K, V)>, i: nat)
    requires i < |pairs|
    requires forall j :: i < j < |pairs| ==> pairs[j].0 != pairs[i].0
    ensures pairs[i].0 in DictOf(pairs) && DictOf(pairs)[pairs[i].0] == pairs[i].1
  {
    if i < |pairs| - 1 {
      var init := pairs[..|pairs| - 1];
      assert forall j :: i < j < |init| ==> init[j] == pairs[j];
      DictOfLastWins(init, i);
    }
  }

  /** The per-key lists that
      `g = {}; for k, v in pairs: (g.setdefault(k, [])).append(v)` leaves behind. */
  function Grouped<K, V>(pairs: seq<(K, V)>): (g: map<K, seq<V>>)
    ensures g.Keys == KeysOf(pairs)
    decreases |pairs|
  {
    if pairs == [] then map[]
    else
      var init := pairs[..|pairs| - 1];
      assert forall i :: 0 <= i < |init| ==> init[i] == pairs[i];
      var g0 := Grouped(init);
      var k := pairs[|pairs| - 1].0;
      g0[k := (if k in g0 then g0[k] else []) + [pairs[|pairs| - 1].1]]
  }

  /** `g.setdefault(k, []).append(v)`: the list for `k`, created empty when
      missing, gets `v` at its end; no other key changes. */
  method SetDefaultAppend<K, V>(g: map<K, seq<V>>, k: K, v: V) returns (g': map<K, seq<V>>)
    ensures g' == g[k := (if k in g then g[k] else []) + [v]]
  {
    g' := g;
    if k !in g' {
      g' := g'[k := []];
    }
    g' := g'[k := g'[k] + [v]];
  }

  /** Filing one more pair appends its value to its key's list. */
  lemma GroupedStep<K, V>(pairs: seq<(K, V)>, i: nat)
    requires i < |pairs|
    ensures Grouped(pairs[..i + 1]) ==
      var g := Grouped(pairs[..i]);
      g[pairs[i].0 := (if pairs[i].0 in g then g[pairs[i].0] else []) + [pairs[i].1]]
  {
    assert pairs[..i + 1][..i] == pairs[..i];
  }

  /** The values paired with `k`, in the order of `pairs`. */
  function ValuesOf<K(==), V>(pairs: seq<(K, V)>, k: K): (vs: seq<V>)
    ensures |vs| <= |pairs|
    decreases |pairs|
  {
    if pairs == [] then []
    else
      ValuesOf(pairs[..|pairs| - 1], k)
      + (if pairs[|pairs| - 1].0 == k then [pairs[|pairs| - 1].1] else [])
  }

  /** Each group holds exactly the values filed under its key, in input order;
      a key that never occurs has no values. */
  lemma {:induction false} GroupedValues<K, V>(pairs: seq<(K, V)>, k: K)
    ensures k in Grouped(pairs) ==> Grouped(pairs)[k] == ValuesOf(pairs, k)
    ensures k !in Grouped(pairs) ==> ValuesOf(pairs, k) == []
    decreases |pairs|
  {
    if pairs != [] {
      GroupedValues(pairs[..|pairs| - 1], k);
    }
  }

  /** Every value filed under `k` comes from a pair that carries `k`. */
  lemma {:induction false} ValuesOfMember<K, V>(pairs: seq<(K, V)>, k: K, v: V)
    requires v in ValuesOf(pairs, k)
    ensures exists i :: 0 <= i < |pairs| && pairs[i] == (k, v)
    decreases |pairs|
  {
    var init := pairs[..|pairs| - 1];
    if v in ValuesOf(init, k) {
      ValuesOfMember(init, k, v);
      var i :| 0 <= i < |init| && init[i] == (k, v);
      assert pairs[i] == (k, v);
    } else {
      assert pairs[|pairs| - 1] == (k, v);
    }
  }

  /** `[f(x) for x in xs]`. */
  function MapSeq<T, U>(f: T -> U, xs: seq<T>): seq<U>
  {
    seq(|xs|, j requires 0 <= j < |xs| => f(xs[j]))
  }

  lemma MapSeqSnoc<T, U>(f: T -> U, xs: seq<T>, j: nat)
    requires j < |xs|
    ensures MapSeq(f, xs[..j + 1]) == MapSeq(f, xs[..j]) + [f(xs[j])]
  {
    var a := MapSeq(f, xs[..j + 1]);
    var b := MapSeq(f, xs[..j]) + [f(xs[j])];
    forall k | 0 <= k < |a| ensures a[k] == b[k] {
      if k < j {
        assert xs[..j + 1][k] == xs[..j][k];
      }
    }
  }

  /** Sum of the lengths of all lists in `m`. */
  ghost function TotalLength<K, V>(m: map<K, seq<V>>): nat
    decreases |m|
  {
    if m == map[] then 0
    else
      var k :| k in m;
      assert |(m - {k}).Keys| == |m.Keys - {k}| == |m.Keys| - 1;
      |m[k]| + TotalLength(m - {k})
  }

  /** TotalLength does not depend on which key it takes first. */
  lemma {:induction false} TotalLengthRemove<K, V>(m: map<K, seq<V>>, k: K)
    requires k in m
    ensures TotalLength(m) == |m[k]| + TotalLength(m - {k})
    decreases |m|
  {
    var j :| j in m && TotalLength(m) == |m[j]| + TotalLength(m - {j});
    if j != k {
      assert |(m - {j}).Keys| == |m.Keys - {j}| == |m.Keys| - 1;
      assert |(m - {k}).Keys| == |m.Keys - {k}| == |m.Keys| - 1;
      TotalLengthRemove(m - {j}, k);
      TotalLengthRemove(m - {k}, j);
      assert m - {j} - {k} == m - {k} - {j};
    }
  }

  /** Every pair is filed in exactly one list, so the lists together hold as
      many entries as there were pairs. */
  lemma {:induction false} GroupedTotal<K, V>(pairs: seq<(K, V)>)
    ensures TotalLength(Grouped(pairs)) == |pairs|
    decreases |pairs|
  {
    if pairs != [] {
      var init := pairs[..|pairs| - 1];
      var g0 := Grouped(init);
      var k := pairs[|pairs| - 1].0;
      var g := Grouped(pairs);
      GroupedTotal(init);
      TotalLengthRemove(g, k);
      assert g - {k} == g0 - {k};
      if k in g0 {
        TotalLengthRemove(g0, k);
      } else {
        assert g0 - {k} == g0;
      }
    }
  }

  /** Two maps over the same keys whose lists have the same lengths have the
      same total length. */
  lemma {:induction false} TotalLengthSameLengths<K, V>(m: map<K, seq<V>>, m': map<K, seq<V>>)
    requires m.Keys == m'.Keys
    requires forall k :: k in m ==> |m[k]| == |m'[k]|
    ensures TotalLength(m) == TotalLength(m')
    decreases |m|
  {
    if m != map[] {
      var k :| k in m;
      TotalLengthRemove(m, k);
      TotalLengthRemove(m', k);
      assert |(m - {k}).Keys| == |m.Keys - {k}| == |m.Keys| - 1;
      TotalLengthSameLengths(m - {k}, m' - {k});
    }
  }
}
