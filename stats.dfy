/** Column arithmetic of the pages: pandas `sum()`, `mean()` and `cumsum()`
    over a column of exact reals. */
module Stats {
  import Seqs

  /** `column.sum()`. */
  function Sum(xs: seq<real>): real
    decreases |xs|
  {
    if xs == [] then 0.0 else xs[0] + Sum(xs[1..])
  }

  lemma {:induction false} SumAppend(a: seq<real>, b: seq<real>)
    ensures Sum(a + b) == Sum(a) + Sum(b)
    decreases |a|
  {
    if a == [] {
      assert a + b == b;
    } else {
      SumAppend(a[1..], b);
      assert (a + b)[1..] == a[1..] + b;
    }
  }

  /** A column whose every entry is at most `hi` sums to at most `|xs| * hi`,
      and likewise for a lower bound. */
  lemma {:induction false} SumBounds(xs: seq<real>, lo: real, hi: real)
    requires forall i :: 0 <= i < |xs| ==> lo <= xs[i] <= hi
    ensures |xs| as real * lo <= Sum(xs) <= |xs| as real * hi
    decreases |xs|
  {
    if xs != [] {
      SumBounds(xs[1..], lo, hi);
    }
  }

  /** `column.mean()` of a non-empty column. */
  function Mean(xs: seq<real>): (m: real)
    requires |xs| > 0
    ensures m * |xs| as real == Sum(xs)
  {
    Sum(xs) / |xs| as real
  }

  /** The mean lies between any bounds of the column. */
  lemma MeanBounds(xs: seq<real>, lo: real, hi: real)
    requires |xs| > 0
    requires forall i :: 0 <= i < |xs| ==> lo <= xs[i] <= hi
    ensures lo <= Mean(xs) <= hi
  {
    SumBounds(xs, lo, hi);
    var n := |xs| as real;
    ScaleOrder(lo, Mean(xs), n);
    ScaleOrder(Mean(xs), hi, n);
  }

  /** Multiplying by a positive count keeps the order of two values. */
  lemma ScaleOrder(a: real, b: real, n: real)
    requires n > 0.0
    ensures a <= b <==> a * n <= b * n
    ensures a < b <==> a * n < b * n
  {
    assert (b - a) * n == b * n - a * n;
  }

  /** Two columns of the same length compare in mean exactly as they compare
      in sum. */
  lemma MeanOrder(a: seq<real>, b: seq<real>)
    requires |a| == |b| > 0
    ensures Mean(a) < Mean(b) <==> Sum(a) < Sum(b)
  {
    ScaledCompare(Mean(a), Mean(b), |a| as real, Sum(a), Sum(b));
  }

  /** `column.cumsum()` continuing from the running total `acc`. */
  function RunningFrom(acc: real, xs: seq<real>): (r: seq<real>)
    ensures |r| == |xs|
    decreases |xs|
  {
    if xs == [] then [] else [acc + xs[0]] + RunningFrom(acc + xs[0], xs[1..])
  }

  /** `column.cumsum()`. */
  function CumSum(xs: seq<real>): (r: seq<real>)
    ensures |r| == |xs|
  {
    RunningFrom(0.0, xs)
  }

  /** Entry `i` of the running total is the sum of the first `i + 1` entries. */
  lemma {:induction false} RunningFromIsPrefixSum(acc: real, xs: seq<real>, i: nat)
    requires i < |xs|
    ensures RunningFrom(acc, xs)[i] == acc + Sum(xs[..i + 1])
    decreases |xs|
  {
    if i > 0 {
      RunningFromIsPrefixSum(acc + xs[0], xs[1..], i - 1);
      assert xs[..i + 1] == [xs[0]] + xs[1..][..i];
    } else {
      assert xs[..1] == [xs[0]] + [];
    }
  }

  /** cumsum entry `i` is the sum of entries `0..i`; in particular the last
      entry is the column total. */
  lemma CumSumIsPrefixSum(xs: seq<real>)
    ensures forall i :: 0 <= i < |xs| ==> CumSum(xs)[i] == Sum(xs[..i + 1])
    ensures xs != [] ==> CumSum(xs)[|xs| - 1] == Sum(xs)
  {
    forall i | 0 <= i < |xs| ensures CumSum(xs)[i] == Sum(xs[..i + 1]) {
      RunningFromIsPrefixSum(0.0, xs, i);
    }
    if xs != [] {
      assert xs[..|xs|] == xs;
    }
  }

  /** A column whose entries are `k` times another's sums to `k` times its
      sum. */
  lemma {:induction false} SumPointwiseScale(a: seq<real>, b: seq<real>, k: real)
    requires |a| == |b|
    requires forall i :: 0 <= i < |a| ==> b[i] == k * a[i]
    ensures Sum(b) == k * Sum(a)
    decreases |a|
  {
    if a != [] {
      SumPointwiseScale(a[1..], b[1..], k);
    }
  }

  /** A column no entry of which exceeds the matching entry of another sums
      to no more. */
  lemma {:induction false} SumPointwiseOrder(a: seq<real>, b: seq<real>)
    requires |a| == |b|
    requires forall i :: 0 <= i < |a| ==> a[i] <= b[i]
    ensures Sum(a) <= Sum(b)
    decreases |a|
  {
    if a != [] {
      SumPointwiseOrder(a[1..], b[1..]);
    }
  }

  /** The share `k / n` of `k` rows among `n > 0`. */
  function Share(k: nat, n: nat): (r: real)
    requires n > 0
    ensures r * n as real == k as real
    ensures k <= n ==> 0.0 <= r <= 1.0
  {
    var s := k as real / n as real;
    ScaleOrder(s, 1.0, n as real);
    s
  }

  /** A share exceeds one half exactly when `k` is more than half of `n`, is
      0 exactly when `k` is, and 1 exactly when `k` is `n`. */
  lemma ShareOrder(k: nat, n: nat)
    requires n > 0
    ensures Share(k, n) > 0.5 <==> 2 * k > n
    ensures Share(k, n) == 0.0 <==> k == 0
    ensures Share(k, n) == 1.0 <==> k == n
  {
    var r, m, x := Share(k, n), n as real, k as real;
    ScaledCompare(0.5, r, m, 0.5 * m, x);
    ScaledCompare(r, 0.0, m, x, 0.0);
    ScaledCompare(0.0, r, m, 0.0, x);
    ScaledCompare(r, 1.0, m, x, m);
    ScaledCompare(1.0, r, m, m, x);
  }

  /** More rows among the same number give a larger share. */
  lemma ShareMonotone(a: nat, b: nat, n: nat)
    requires n > 0 && a <= b
    ensures Share(a, n) <= Share(b, n)
  {
    ScaledCompare(Share(a, n), Share(b, n), n as real, a as real, b as real);
  }

  /** Two values that scale by the same positive factor compare as their
      scaled results do. */
  lemma ScaledCompare(ra: real, rb: real, m: real, a: real, b: real)
    requires m > 0.0 && ra * m == a && rb * m == b
    ensures ra <= rb <==> a <= b
    ensures ra < rb <==> a < b
  {
    ScaleOrder(ra, rb, m);
  }

  /** The change from `base` to `now` in percent of `base`. */
  function PercentChange(base: real, now: real): (r: real)
    requires base != 0.0
    ensures r * base == (now - base) * 100.0
  {
    (now - base) / base * 100.0
  }

  /** For a positive base the change is positive exactly when the value grew
      and zero exactly when it stayed. */
  lemma PercentChangeSign(base: real, now: real)
    requires base > 0.0
    ensures PercentChange(base, now) > 0.0 <==> now > base
    ensures PercentChange(base, now) == 0.0 <==> now == base
  {
    var r := PercentChange(base, now);
    ScaleOrder(0.0, r, base);
    ScaleOrder(r, 0.0, base);
  }

  /** A change of at least `lo` percent puts `now` at or above
      `(1 + lo / 100)` times a positive base, and back. */
  lemma PercentChangeAtLeast(base: real, now: real, lo: real)
    requires base > 0.0
    ensures lo <= PercentChange(base, now) <==> (1.0 + lo / 100.0) * base <= now
  {
    ScaleOrder(lo, PercentChange(base, now), base);
  }

  /** A change of at most `hi` percent puts `now` at or below
      `(1 + hi / 100)` times a positive base, and back. */
  lemma PercentChangeAtMost(base: real, now: real, hi: real)
    requires base > 0.0
    ensures PercentChange(base, now) <= hi <==> now <= (1.0 + hi / 100.0) * base
  {
    ScaleOrder(PercentChange(base, now), hi, base);
  }

  /** Scaling both values by the same non-zero factor keeps the change. */
  lemma PercentChangeScale(base: real, now: real, k: real)
    requires base != 0.0 && k != 0.0
    ensures k * base != 0.0
    ensures PercentChange(k * base, k * now) == PercentChange(base, now)
  {
    var r := PercentChange(base, now);
    assert (r * base) * k == ((now - base) * 100.0) * k;
    assert r * (k * base) == (k * now - k * base) * 100.0;
  }

  /** A column at least `k` times another, entry by entry, sums to at least
      `k` times its sum. */
  lemma {:induction false} SumAtLeast(base: seq<real>, now: seq<real>, k: real)
    requires |base| == |now|
    requires forall i :: 0 <= i < |base| ==> k * base[i] <= now[i]
    ensures k * Sum(base) <= Sum(now)
    decreases |base|
  {
    if base != [] {
      SumAtLeast(base[1..], now[1..], k);
      assert k * Sum(base) == k * base[0] + k * Sum(base[1..]);
    }
  }

  /** A column at most `k` times another, entry by entry, sums to at most
      `k` times its sum. */
  lemma {:induction false} SumAtMost(base: seq<real>, now: seq<real>, k: real)
    requires |base| == |now|
    requires forall i :: 0 <= i < |base| ==> now[i] <= k * base[i]
    ensures Sum(now) <= k * Sum(base)
    decreases |base|
  {
    if base != [] {
      SumAtMost(base[1..], now[1..], k);
      assert k * Sum(base) == k * base[0] + k * Sum(base[1..]);
    }
  }

  /** Reordering a column keeps its sum. */
  lemma {:induction false} SumPermutation(a: seq<real>, b: seq<real>)
    requires multiset(a) == multiset(b)
    ensures Sum(a) == Sum(b)
    decreases |a|
  {
    if a == [] {
      assert b == [];
    } else {
      assert a[0] in multiset(b);
      var j :| 0 <= j < |b| && b[j] == a[0];
      var rest := b[..j] + b[j + 1..];
      Seqs.RemoveMatch(a, b, j);
      SumPermutation(a[1..], rest);
      SumAppend(b[..j], [b[j]] + b[j + 1..]);
      SumAppend([b[j]], b[j + 1..]);
      SumAppend(b[..j], b[j + 1..]);
      assert b == b[..j] + ([b[j]] + b[j + 1..]);
    }
  }
}
