/** Finite sums of reals over maps keyed by identifier.

    The store folds over its maps in whatever order the map yields them; over the
    reals that order is irrelevant, so one order-free sum specifies every fold.
 */
module Sums {

  ghost function Pick<T>(m: map<string, T>): (k: string)
    requires m != map[]
    ensures k in m
  {
    var k :| k in m;
    k
  }

  /** The sum of w(v) over all values v of m. */
  ghost function Sum<T>(m: map<string, T>, w: T -> real): real
    decreases m.Keys
  {
    if m == map[] then 0.0
    else
      var k := Pick(m);
      w(m[k]) + Sum(m - {k}, w)
  }

  lemma {:induction false} SumRemove<T>(m: map<string, T>, k: string, w: T -> real)
    requires k in m
    ensures Sum(m, w) == w(m[k]) + Sum(m - {k}, w)
    decreases m.Keys
  {
    var c := Pick(m);
    if c != k {
      SumRemove(m - {c}, k, w);
      SumRemove(m - {k}, c, w);
      assert (m - {c}) - {k} == (m - {k}) - {c};
    }
  }

  /** Writing one key changes the sum by exactly the difference at that key. */
  lemma SumPut<T>(m: map<string, T>, k: string, v: T, w: T -> real)
    ensures Sum(m[k := v], w) == Sum(m, w) - (if k in m then w(m[k]) else 0.0) + w(v)
  {
    SumRemove(m[k := v], k, w);
    if k in m {
      SumRemove(m, k, w);
      assert m[k := v] - {k} == m - {k};
    } else {
      assert m[k := v] - {k} == m;
    }
  }

  lemma {:induction false} SumNonNegative<T>(m: map<string, T>, w: T -> real)
    requires forall k :: k in m ==> w(m[k]) >= 0.0
    ensures Sum(m, w) >= 0.0
    decreases m.Keys
  {
    if m != map[] {
      SumNonNegative(m - {Pick(m)}, w);
    }
  }

  /** Sums are additive in the weight. */
  lemma {:induction false} SumSplit<T>(m: map<string, T>, w: T -> real, u: T -> real, v: T -> real)
    requires forall k :: k in m ==> w(m[k]) == u(m[k]) + v(m[k])
    ensures Sum(m, w) == Sum(m, u) + Sum(m, v)
    decreases m.Keys
  {
    if m != map[] {
      SumSplit(m - {Pick(m)}, w, u, v);
    }
  }

  /** Values of weight zero may be left out of a sum. */
  lemma {:induction false} SumSupport<T>(m: map<string, T>, part: map<string, T>, w: T -> real)
    requires part.Keys <= m.Keys && forall k :: k in part ==> part[k] == m[k]
    requires forall k :: k in m && k !in part ==> w(m[k]) == 0.0
    ensures Sum(m, w) == Sum(part, w)
    decreases m.Keys
  {
    if m != part {
      var k :| k in m && k !in part;
      SumRemove(m, k, w);
      SumSupport(m - {k}, part, w);
    }
  }
}
