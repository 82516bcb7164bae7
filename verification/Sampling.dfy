/** Which of an interview's frames are analysed: evenly spaced, not the first so many. */
module Sampling {

  /** The row the i-th sample is, `int(i * (n / limit))` with the division exact. */
  function SampleIndex(i: nat, n: nat, limit: nat): int
    requires limit > 0
  {
    (i as real * (n as real / limit as real)).Floor
  }

  function Sampled<T>(rows: seq<T>, limit: nat): seq<T>
    requires limit > 0
  {
    if |rows| <= limit then rows
    else seq(limit, i requires 0 <= i < limit => IndexInRange(i, |rows|, limit); rows[SampleIndex(i, |rows|, limit)])
  }

  method Sample<T>(rows: seq<T>, limit: nat) returns (sample: seq<T>)
    requires limit > 0
    ensures sample == Sampled(rows, limit)
  {
    if |rows| <= limit {
      return rows;
    }
    sample := [];
    for i := 0 to limit
      invariant sample == Sampled(rows, limit)[..i]
    {
      IndexInRange(i, |rows|, limit);
      sample := sample + [rows[SampleIndex(i, |rows|, limit)]];
    }
  }

  lemma ProductLess(a: real, b: real, m: real, p: real, q: real)
    requires m > 0.0 && a < b && p == a * m && q == b * m
    ensures p < q
  {
    var d := b - a;
    assert d * m > 0.0;
    assert d * m == q - p;
  }

  lemma ProductAtMost(a: real, b: real, m: real, p: real, q: real)
    requires m > 0.0 && a <= b && p == a * m && q == b * m
    ensures p <= q
  {
    if a < b {
      ProductLess(a, b, m, p, q);
    }
  }

  lemma FloorTimes(x: real, k: int, m: nat, p: int)
    requires m > 0 && k as real <= x < (k + 1) as real && p as real == x * (m as real)
    ensures m * k <= p < m * k + m
  {
    Products(k, m);
    Products(k + 1, m);
    ProductAtMost(k as real, x, m as real, (k * m) as real, p as real);
    ProductLess(x, (k + 1) as real, m as real, p as real, ((k + 1) * m) as real);
    assert k * m <= p < (k + 1) * m;
  }

  /** The index is the whole part of i * n / limit. */
  lemma IndexBounds(i: nat, n: nat, limit: nat)
    requires limit > 0
    ensures limit * SampleIndex(i, n, limit) <= i * n < limit * SampleIndex(i, n, limit) + limit
  {
    var x := i as real * (n as real / limit as real);
    Cancel(i as real, n as real, limit as real);
    Products(i, n);
    FloorTimes(x, x.Floor, limit, i * n);
  }

  lemma Cancel(i: real, n: real, m: real)
    requires m > 0.0
    ensures i * (n / m) * m == i * n
  {
    assert n / m * m == n;
    assert i * (n / m) * m == i * (n / m * m);
  }

  lemma Products(a: int, b: int)
    ensures a as real * b as real == (a * b) as real
  {
  }

  lemma {:induction false} AtLeastOnce(m: nat, k: nat)
    requires k > 0
    ensures m * k >= m
  {
    if k > 1 {
      AtLeastOnce(m, k - 1);
      assert m * k == m * (k - 1) + m;
    }
  }

  lemma Multiples(m: nat, a: int, b: int)
    requires m > 0
    ensures a < b ==> m * a + m <= m * b
    ensures a <= b ==> m * a <= m * b
  {
    assert m * b == m * a + m * (b - a);
    if a < b {
      AtLeastOnce(m, b - a);
    }
  }

  lemma IndexInRange(i: nat, n: nat, limit: nat)
    requires i < limit < n
    ensures 0 <= SampleIndex(i, n, limit) < n
  {
    IndexBounds(i, n, limit);
    var k := SampleIndex(i, n, limit);
    Multiples(limit, k, 0);
    Multiples(limit, n, k);
    Multiples(n, i, limit);
  }

  /** Neighbouring samples are the whole part of n / limit rows apart, or one more. */
  lemma GapsAreEven(i: nat, n: nat, limit: nat)
    requires i + 1 < limit < n
    ensures SampleIndex(i + 1, n, limit) - SampleIndex(i, n, limit) in {n / limit, (n + limit - 1) / limit}
  {
    var a, b, q := SampleIndex(i, n, limit), SampleIndex(i + 1, n, limit), n / limit;
    IndexBounds(i, n, limit);
    IndexBounds(i + 1, n, limit);
    assert (i + 1) * n == i * n + n;
    var d := b - a;
    assert limit * d == limit * b - limit * a;
    GapBetween(d, n, limit);
  }

  lemma GapBetween(d: int, n: nat, limit: nat)
    requires limit > 0 && n - limit < limit * d < n + limit
    ensures d in {n / limit, (n + limit - 1) / limit}
  {
    var q, r := n / limit, n % limit;
    assert n == limit * q + r;
    Multiples(limit, d, q);
    Multiples(limit, q + 1, d);
    Quotient(n + limit - 1, limit, if r == 0 then q else q + 1, if r == 0 then limit - 1 else r - 1);
  }

  lemma Quotient(x: nat, m: nat, q: int, r: int)
    requires m > 0 && x == m * q + r && 0 <= r < m
    ensures x / m == q
  {
    assert m * (x / m) + x % m == x;
    Multiples(m, q, x / m);
    Multiples(m, x / m, q);
  }

  /** Later samples are later rows, at least the whole part of n / limit further on for each step. */
  lemma {:induction false} SamplesAdvance(i: nat, j: nat, n: nat, limit: nat)
    requires i < j < limit < n
    ensures SampleIndex(j, n, limit) >= SampleIndex(i, n, limit) + (j - i) * (n / limit)
    ensures SampleIndex(i, n, limit) < SampleIndex(j, n, limit)
    decreases j
  {
    GapsAreEven(j - 1, n, limit);
    Quotients(n, limit);
    if i < j - 1 {
      SamplesAdvance(i, j - 1, n, limit);
      assert (j - i) * (n / limit) == (j - 1 - i) * (n / limit) + n / limit;
    }
  }

  lemma Quotients(n: nat, limit: nat)
    requires 0 < limit < n
    ensures 1 <= n / limit <= (n + limit - 1) / limit <= n / limit + 1
  {
    var q, r := n / limit, n % limit;
    assert n == limit * q + r;
    Multiples(limit, q, 0);
    Quotient(n + limit - 1, limit, if r == 0 then q else q + 1, if r == 0 then limit - 1 else r - 1);
  }

  /** All rows if there are no more than `limit`; otherwise exactly `limit` of them, the first always among them, in order
      and none twice, and no more than one gap left after the last. */
  lemma SampleIsSpread<T>(rows: seq<T>, limit: nat)
    requires 0 < limit
    ensures |rows| <= limit ==> Sampled(rows, limit) == rows
    ensures limit < |rows| ==>
      && |Sampled(rows, limit)| == limit && Sampled(rows, limit)[0] == rows[0]
      && (forall i, j :: 0 <= i < j < limit ==> 0 <= SampleIndex(i, |rows|, limit) < SampleIndex(j, |rows|, limit) < |rows|)
      && (forall i :: 0 <= i < limit ==>
            0 <= SampleIndex(i, |rows|, limit) < |rows| && Sampled(rows, limit)[i] == rows[SampleIndex(i, |rows|, limit)])
      && SampleIndex(limit - 1, |rows|, limit) + (|rows| + limit - 1) / limit >= |rows|
  {
    var n := |rows|;
    if limit < n {
      forall i, j | 0 <= i < j < limit
        ensures 0 <= SampleIndex(i, n, limit) < SampleIndex(j, n, limit) < n
      {
        IndexInRange(i, n, limit);
        IndexInRange(j, n, limit);
        SamplesAdvance(i, j, n, limit);
      }
      forall i | 0 <= i < limit
        ensures 0 <= SampleIndex(i, n, limit) < n
      {
        IndexInRange(i, n, limit);
      }
      assert SampleIndex(0, n, limit) == 0;
      ReachesTheEnd(n, limit);
    }
  }

  /** What is left after the last sample is no more than one gap. */
  lemma ReachesTheEnd(n: nat, limit: nat)
    requires 0 < limit < n
    ensures SampleIndex(limit - 1, n, limit) + (n + limit - 1) / limit >= n
  {
    var k := SampleIndex(limit - 1, n, limit);
    IndexBounds(limit - 1, n, limit);
    assert (limit - 1) * n == limit * n - n;
    var d := n - k;
    assert limit * d == limit * n - limit * k;
    GapBetween(d, n, limit);
    Quotients(n, limit);
  }
}
