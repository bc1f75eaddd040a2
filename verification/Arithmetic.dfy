/** Exact arithmetic for scores, and JavaScript's Math.round: halves go up. */
module Arithmetic {
  function Round(x: real): int {
    (x + 0.5).Floor
  }

  function Sum(xs: seq<real>): real {
    if xs == [] then 0.0 else Sum(xs[..|xs| - 1]) + xs[|xs| - 1]
  }

  /** Math.round(x * 100) / 100 */
  function Round2(x: real): real {
    Round(x * 100.0) as real / 100.0
  }

  lemma RoundNear(x: real)
    ensures x - 0.5 <= Round(x) as real <= x + 0.5
  {
  }

  lemma RoundBetween(lo: int, hi: int, x: real)
    requires lo as real <= x <= hi as real
    ensures lo <= Round(x) <= hi
  {
  }

  /** Rounding to hundredths moves a number by at most half a hundredth and respects whole bounds. */
  lemma Round2Near(x: real)
    ensures x - 0.005 <= Round2(x) <= x + 0.005
  {
    RoundNear(x * 100.0);
  }

  lemma Round2Between(lo: int, hi: int, x: real)
    requires lo as real <= x <= hi as real
    ensures lo as real <= Round2(x) <= hi as real
  {
    RoundBetween(100 * lo, 100 * hi, x * 100.0);
  }

  lemma Cancel(x: real, y: real, t: real)
    requires t > 0.0
    ensures x <= y <==> x * t <= y * t
  {
    assert (y - x) * t == y * t - x * t;
    if x <= y { assert (y - x) * t >= 0.0; } else { assert (x - y) * t > 0.0; }
  }

  /** A mean lies between the bounds of its summands. */
  lemma Between(lo: real, hi: real, sum: real, n: real)
    requires n > 0.0 && lo * n <= sum <= hi * n
    ensures lo <= sum / n <= hi
  {
    assert sum / n * n == sum;
    Cancel(lo, sum / n, n);
    Cancel(sum / n, hi, n);
  }

  /** `n` copies of `e` added up. */
  function Times(e: real, n: nat): real {
    if n == 0 then 0.0 else Times(e, n - 1) + e
  }

  lemma {:induction false} TimesIsProduct(e: real, n: nat)
    ensures Times(e, n) == e * n as real
  {
    if n > 0 {
      TimesIsProduct(e, n - 1);
      assert e * n as real == e * (n - 1) as real + e;
    }
  }

  /** Sums of `n` numbers that differ by at most `e` each have means that differ by at most `e`. */
  lemma NearMeans(s: real, t: real, n: nat, e: real)
    requires n > 0 && s - Times(e, n) <= t <= s + Times(e, n)
    ensures s / n as real - e <= t / n as real <= s / n as real + e
  {
    TimesIsProduct(e, n);
    var m := n as real;
    assert s / m * m == s;
    assert (s / m - e) * m == s - e * m;
    assert (s / m + e) * m == s + e * m;
    Between(s / m - e, s / m + e, t, m);
  }

  /** Rounding is to the nearest whole number, and halves go up. */
  lemma RoundIsHalfUp(x: real)
    ensures Round(x) as real - 0.5 <= x < Round(x) as real + 0.5
  {
  }

  /** `h` hundredths are the mean of `n` numbers with the given sum, rounded half up. */
  predicate IsRoundedMean(h: int, sum: real, n: nat) {
    (h as real - 0.5) * n as real <= sum * 100.0 < (h as real + 0.5) * n as real
  }

  /** A rounded mean of `n` numbers in terms of their sum. */
  lemma HalfUp(sum: real, n: nat)
    requires n > 0
    ensures var h := Round(sum / n as real * 100.0);
            Round2(sum / n as real) * 100.0 == h as real && IsRoundedMean(h, sum, n)
  {
    var q := sum / n as real;
    RoundIsHalfUp(q * 100.0);
    assert q * n as real == sum;
    ScaledBounds(Round(q * 100.0), q, sum, n);
  }

  lemma ScaledBounds(h: int, q: real, sum: real, n: nat)
    requires n > 0 && q * n as real == sum && h as real - 0.5 <= q * 100.0 < h as real + 0.5
    ensures IsRoundedMean(h, sum, n)
  {
    var m, hundred := n as real, q * 100.0;
    Hundredfold(q, m, sum);
    Cancel(h as real - 0.5, hundred, m);
    StrictTimes(h as real + 0.5, hundred, m, sum * 100.0);
  }

  lemma Hundredfold(q: real, m: real, sum: real)
    requires q * m == sum
    ensures q * 100.0 * m == sum * 100.0
  {
  }

  lemma StrictTimes(x: real, y: real, t: real, z: real)
    requires t > 0.0 && y * t == z && y < x
    ensures z < x * t
  {
    Cancel(x, y, t);
  }

  lemma {:induction false} SumConcat(xs: seq<real>, ys: seq<real>)
    ensures Sum([]) == 0.0 && Sum(xs + ys) == Sum(xs) + Sum(ys)
    ensures forall x :: Sum([x]) == x
  {
    if ys == [] {
      assert xs + ys == xs;
    } else {
      SumConcat(xs, ys[..|ys| - 1]);
      assert (xs + ys)[..|xs + ys| - 1] == xs + ys[..|ys| - 1];
    }
    forall x ensures Sum([x]) == x { assert [x][..0] == []; }
  }
}
