/** Small shared vocabulary: optional values, real minima and maxima, and sums over dictionaries. */
module Common {

  datatype Option<+T> = None | Some(value: T)

  function Min(a: real, b: real): real { if a <= b then a else b }

  function Max(a: real, b: real): real { if a >= b then a else b }

  function Abs(a: real): real { if a < 0.0 then -a else a }

  function Pow2(n: nat): nat { if n == 0 then 1 else 2 * Pow2(n - 1) }

  // ---- products of reals, one fact at a time ----

  lemma MulStrict(q: real, a: real, b: real)
    requires q > 0.0 && a < b
    ensures q * a < q * b
  {}

  lemma MulMono(q: real, a: real, b: real)
    requires q >= 0.0 && a <= b
    ensures q * a <= q * b
  {}

  lemma MulPositive(a: real, b: real)
    requires a > 0.0 && b > 0.0
    ensures a * b > 0.0
  {}

  lemma SumTimes(s: real, a: real, b: real, q: real)
    requires s == a + b
    ensures s * q == a * q + b * q == q * s
  {}

  lemma DiffTimes(d: real, a: real, b: real, q: real)
    requires d == a - b
    ensures d * q == a * q - b * q == q * d
  {}

  lemma SameProduct(a: real, b: real, c: real, d: real)
    requires a == c && b == d
    ensures a * b == c * d
  {}

  lemma DivMul(c: real, q: real)
    requires q != 0.0
    ensures q * (c / q) == c
    ensures (c / q) * q == c
  {}

  /** A multiple of the quantum that is at most half a step from the quotient is at most half a quantum off. */
  lemma RoundedWithin(x: real, quantum: real, s: real, n: real, rounded: real, half: real)
    requires quantum > 0.0 && half == quantum / 2.0 && -0.5 <= n - s <= 0.5
    requires x == s * quantum && rounded == n * quantum
    ensures -half <= rounded - x <= half
  {
    var d := n - s;
    DiffTimes(d, n, s, quantum);
    assert rounded - x == d * quantum;
    MulMono(quantum, d, 0.5);
    MulMono(quantum, -0.5, d);
  }

  /** The sum of all values of a dictionary; Python's loops over a dict accumulate it in some order. */
  ghost function Total<K(!new)>(m: map<K, real>): real
    decreases |m|
  {
    if m == map[] then 0.0
    else
      var k :| k in m;
      m[k] + Total(m - {k})
  }

  /** Any key may be summed first, so the iteration order of the dictionary does not matter. */
  lemma {:induction false} TotalAt<K(!new)>(m: map<K, real>, k: K)
    requires k in m
    ensures Total(m) == m[k] + Total(m - {k})
    decreases |m|
  {
    var c :| c in m && Total(m) == m[c] + Total(m - {c});
    if c != k {
      TotalAt(m - {c}, k);
      TotalAt(m - {k}, c);
      assert m - {c} - {k} == m - {k} - {c};
    }
  }

  /** Overwriting or adding one key shifts the sum by the change at that key. */
  lemma TotalUpdate<K(!new)>(m: map<K, real>, k: K, v: real)
    ensures Total(m[k := v]) == Total(m) + v - (if k in m then m[k] else 0.0)
  {
    TotalAt(m[k := v], k);
    if k in m {
      TotalAt(m, k);
      assert m[k := v] - {k} == m - {k};
    } else {
      assert m[k := v] - {k} == m;
    }
  }

  /** Keys that carry zero may be added or dropped freely. */
  lemma {:induction false} TotalIgnoresZeros<K(!new)>(a: map<K, real>, b: map<K, real>)
    requires a.Keys <= b.Keys
    requires forall k | k in b :: b[k] == if k in a then a[k] else 0.0
    ensures Total(a) == Total(b)
    decreases |b|
  {
    if b == map[] {
      assert a == map[];
    } else {
      var k :| k in b;
      TotalAt(b, k);
      if k in a {
        TotalAt(a, k);
        TotalIgnoresZeros(a - {k}, b - {k});
      } else {
        TotalIgnoresZeros(a, b - {k});
      }
    }
  }

  lemma {:induction false} TotalOfOne<K(!new)>(m: map<K, real>, k: K)
    requires m.Keys <= {k}
    ensures Total(m) == if k in m then m[k] else 0.0
  {
    if k in m {
      TotalAt(m, k);
      assert m - {k} == map[];
    } else {
      assert m == map[];
    }
  }

  lemma FactorOut(sum: real, a: real, b: real, scaledA: real, scaledB: real, factor: real)
    requires sum == a + b && scaledA == factor * a && scaledB == factor * b
    ensures scaledA + scaledB == factor * sum
  {
    SumTimes(sum, a, b, factor);
  }

  lemma {:induction false} EmptyTotal<K(!new)>(m: map<K, real>)
    requires m == map[]
    ensures Total(m) == 0.0
  {}

  /** A common factor can be taken out of a sum. */
  lemma {:induction false} TotalScaled<K(!new)>(m: map<K, real>, scaled: map<K, real>, factor: real)
    requires scaled.Keys == m.Keys && forall k | k in m :: scaled[k] == factor * m[k]
    ensures Total(scaled) == factor * Total(m)
    decreases |m|
  {
    hide Total;
    if k :| k in m {
      TotalAt(m, k);
      TotalAt(scaled, k);
      TotalScaled(m - {k}, scaled - {k}, factor);
      FactorOut(Total(m), m[k], Total(m - {k}), scaled[k], Total(scaled - {k}), factor);
    } else {
      EmptyTotal(m);
      EmptyTotal(scaled);
    }
  }

  lemma {:induction false} AllZero<K(!new)>(m: map<K, real>)
    requires forall k | k in m :: m[k] == 0.0
    ensures Total(m) == 0.0
  {
    TotalIgnoresZeros(map[], m);
  }

  /** The entries of a dictionary whose keys a loop has still to visit. */
  ghost function Restrict<K(!new)>(m: map<K, real>, keys: set<K>): map<K, real>
    requires keys <= m.Keys
  {
    map k | k in keys :: m[k]
  }

  /** Visiting one more key moves its value from the rest to the sum. */
  lemma RestrictStep<K(!new)>(m: map<K, real>, keys: set<K>, k: K)
    requires keys <= m.Keys && k in keys
    ensures Total(Restrict(m, keys)) == m[k] + Total(Restrict(m, keys - {k}))
  {
    TotalAt(Restrict(m, keys), k);
    assert Restrict(m, keys) - {k} == Restrict(m, keys - {k});
  }
}
