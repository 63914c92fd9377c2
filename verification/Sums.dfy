/** Sums over the accounts of a mapping. */
module Sums {

  /** The sum of `weight` over all values of `m`. */
  ghost function Total<K(!new), V(!new)>(m: map<K, V>, weight: (K, V) -> real): real
    decreases |m|
  {
    if m.Keys == {} then 0.0
    else
      var k :| k in m;
      assert (m - {k}).Keys == m.Keys - {k};
      weight(k, m[k]) + Total(m - {k}, weight)
  }

  /** Any account may be split off first. */
  lemma {:induction false} TotalSplit<K(!new), V(!new)>(m: map<K, V>, weight: (K, V) -> real, k: K)
    requires k in m
    ensures Total(m, weight) == weight(k, m[k]) + Total(m - {k}, weight)
    decreases |m|
  {
    var j :| j in m && Total(m, weight) == weight(j, m[j]) + Total(m - {j}, weight);
    if j != k {
      assert (m - {j}).Keys == m.Keys - {j};
      assert (m - {k}).Keys == m.Keys - {k};
      TotalSplit(m - {j}, weight, k);
      TotalSplit(m - {k}, weight, j);
      assert m - {j} - {k} == m - {k} - {j};
    }
  }

  function WeightAt<K, V>(m: map<K, V>, weight: (K, V) -> real, k: K): real {
    if k in m then weight(k, m[k]) else 0.0
  }

  /** Writing one account moves the sum by exactly the change of that account. */
  lemma TotalUpdate<K(!new), V(!new)>(m: map<K, V>, weight: (K, V) -> real, k: K, v: V)
    ensures Total(m[k := v], weight) == Total(m, weight) - WeightAt(m, weight, k) + weight(k, v)
  {
    TotalSplit(m[k := v], weight, k);
    assert m[k := v] - {k} == m - {k};
    if k in m {
      TotalSplit(m, weight, k);
    } else {
      assert m - {k} == m;
    }
  }

  /** Sums are monotone in the weight. */
  lemma {:induction false} TotalMonotone<K(!new), V(!new)>(m: map<K, V>, low: (K, V) -> real, high: (K, V) -> real)
    requires forall k :: k in m ==> low(k, m[k]) <= high(k, m[k])
    ensures Total(m, low) <= Total(m, high)
    decreases |m|
  {
    if m.Keys == {} {
    } else {
      var k :| k in m;
      assert (m - {k}).Keys == m.Keys - {k};
      TotalMonotone(m - {k}, low, high);
      TotalSplit(m, low, k);
      TotalSplit(m, high, k);
    }
  }

  lemma TotalAgrees<K(!new), V(!new)>(m: map<K, V>, f: (K, V) -> real, g: (K, V) -> real)
    requires forall k :: k in m ==> f(k, m[k]) == g(k, m[k])
    ensures Total(m, f) == Total(m, g)
  {
    TotalMonotone(m, f, g);
    TotalMonotone(m, g, f);
  }

  function Plus<K, V>(f: (K, V) -> real, g: (K, V) -> real): (K, V) -> real {
    (k: K, v: V) => f(k, v) + g(k, v)
  }

  /** Weights add up account by account. */
  lemma {:induction false} TotalPlus<K(!new), V(!new)>(m: map<K, V>, f: (K, V) -> real, g: (K, V) -> real)
    ensures Total(m, Plus(f, g)) == Total(m, f) + Total(m, g)
    decreases |m|
  {
    if m.Keys == {} {
    } else {
      var k :| k in m;
      assert (m - {k}).Keys == m.Keys - {k};
      TotalPlus(m - {k}, f, g);
      TotalSplit(m, f, k);
      TotalSplit(m, g, k);
      TotalSplit(m, Plus(f, g), k);
    }
  }

  function Scale(c: real, x: real): real {
    c * x
  }

  function Scaled<K, V>(c: real, f: (K, V) -> real): (K, V) -> real {
    (k: K, v: V) => Scale(c, f(k, v))
  }

  /** A common factor can be taken out of a sum. */
  lemma {:induction false} TotalScaled<K(!new), V(!new)>(m: map<K, V>, c: real, f: (K, V) -> real)
    ensures Total(m, Scaled(c, f)) == Scale(c, Total(m, f))
    decreases |m|
  {
    if m.Keys == {} {
    } else {
      var k :| k in m;
      assert (m - {k}).Keys == m.Keys - {k};
      TotalScaled(m - {k}, c, f);
      TotalSplit(m, f, k);
      TotalSplit(m, Scaled(c, f), k);
      Distribute(c, f(k, m[k]), Total(m - {k}, f), Total(m, f));
    }
  }

  lemma Distribute(c: real, x: real, y: real, sum: real)
    requires sum == x + y
    ensures Scale(c, sum) == Scale(c, x) + Scale(c, y)
  {
  }

  /** A single weight is at most the sum when no weight is negative. */
  lemma {:induction false} TotalNonNegative<K(!new), V(!new)>(m: map<K, V>, weight: (K, V) -> real)
    requires forall k :: k in m ==> weight(k, m[k]) >= 0.0
    ensures Total(m, weight) >= 0.0
    ensures forall k :: k in m ==> weight(k, m[k]) <= Total(m, weight)
    decreases |m|
  {
    if m.Keys == {} {
    } else {
      forall k | k in m
        ensures 0.0 <= weight(k, m[k]) <= Total(m, weight)
      {
        TotalSplit(m, weight, k);
        assert (m - {k}).Keys == m.Keys - {k};
        TotalNonNegative(m - {k}, weight);
      }
      var k :| k in m;
      assert 0.0 <= weight(k, m[k]) <= Total(m, weight);
    }
  }
}
