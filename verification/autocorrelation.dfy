/** The autocorrelation estimate of step 0 (`FindAutocorrelations`): lag sums
    over the history window x[p−N .. p−1]. */
module Autocorrelation {

  /** Σ_{idx=lo}^{hi} x[idx]·x[idx+lag}, accumulated with increasing idx;
      zero when the range is empty. */
  function LagSum(x: seq<real>, lo: int, hi: int, lag: nat): real
    requires lo <= hi ==> 0 <= lo && hi + lag < |x|
    decreases hi - lo
  {
    if hi < lo then 0.0 else LagSum(x, lo, hi - 1, lag) + x[hi] * x[hi + lag]
  }

  /** The window x[p−N .. p−1] lies inside the signal (it may be empty). */
  predicate WindowInSignal(n: int, p: int, N: int)
  {
    0 <= p - N && p <= n
  }

  /** c[j] for j = 0..m: the lag-j sum over the window, whose products both
      stay inside the window (idx + j <= p − 1). */
  function Autocorrelations(x: seq<real>, p: int, N: int, m: nat): (c: seq<real>)
    requires WindowInSignal(|x|, p, N)
    ensures |c| == m + 1
    ensures 0.0 <= c[0]
    ensures forall j :: 0 <= j <= m && N <= j ==> c[j] == 0.0
  {
    EnergyNonNegative(x, p - N, p - 1);
    var c := seq(m + 1, j requires 0 <= j <= m => LagSum(x, p - N, p - 1 - j, j));
    assert forall j :: 0 <= j <= m && N <= j ==> c[j] == 0.0 by {
      forall j | 0 <= j <= m && N <= j
        ensures c[j] == 0.0
      {
        assert p - 1 - j < p - N;
        assert c[j] == LagSum(x, p - N, p - 1 - j, j);
      }
    }
    c
  }

  /** The lag-0 sum is a sum of squares, so it is never negative. */
  lemma {:induction false} EnergyNonNegative(x: seq<real>, lo: int, hi: int)
    requires lo <= hi ==> 0 <= lo && hi < |x|
    ensures 0.0 <= LagSum(x, lo, hi, 0)
    decreases hi - lo
  {
    if lo <= hi {
      EnergyNonNegative(x, lo, hi - 1);
      assert 0.0 <= x[hi] * x[hi];
    }
  }

  /** Every sample of the window x[p−N .. p−1] is zero. */
  predicate ZeroWindow(x: seq<real>, p: int, N: int)
  {
    forall idx :: p - N <= idx < p && 0 <= idx < |x| ==> x[idx] == 0.0
  }

  /** x and y have the same length and the same samples in x[p−N .. p−1]. */
  predicate AgreeOnWindow(x: seq<real>, y: seq<real>, p: int, N: int)
  {
    |x| == |y| && forall idx :: p - N <= idx < p && 0 <= idx < |x| ==> x[idx] == y[idx]
  }

  /** A lag sum that stays inside a zero window is zero. */
  lemma {:induction false} LagSumOfZeroWindow(x: seq<real>, p: int, N: int, hi: int, lag: nat)
    requires WindowInSignal(|x|, p, N) && hi + lag <= p - 1
    requires ZeroWindow(x, p, N)
    ensures LagSum(x, p - N, hi, lag) == 0.0
    decreases hi - (p - N)
  {
    if p - N <= hi {
      LagSumOfZeroWindow(x, p, N, hi - 1, lag);
      assert x[hi] == 0.0;
    }
  }

  /** A lag sum inside the window reads nothing outside it. */
  lemma {:induction false} LagSumAgree(x: seq<real>, y: seq<real>, p: int, N: int, hi: int, lag: nat)
    requires WindowInSignal(|x|, p, N) && hi + lag <= p - 1
    requires AgreeOnWindow(x, y, p, N)
    ensures LagSum(x, p - N, hi, lag) == LagSum(y, p - N, hi, lag)
    decreases hi - (p - N)
  {
    if p - N <= hi {
      LagSumAgree(x, y, p, N, hi - 1, lag);
      assert x[hi] == y[hi] && x[hi + lag] == y[hi + lag];
    }
  }

  /** On a zero window every autocorrelation is zero. */
  lemma ZeroWindowAutocorrelations(x: seq<real>, p: int, N: int, m: nat)
    requires WindowInSignal(|x|, p, N) && ZeroWindow(x, p, N)
    ensures forall j :: 0 <= j <= m ==> Autocorrelations(x, p, N, m)[j] == 0.0
  {
    forall j | 0 <= j <= m
      ensures Autocorrelations(x, p, N, m)[j] == 0.0
    {
      LagSumOfZeroWindow(x, p, N, p - 1 - j, j);
    }
  }

  /** Signals that agree on the window have the same autocorrelations. */
  lemma AutocorrelationsAgree(x: seq<real>, y: seq<real>, p: int, N: int, m: nat)
    requires WindowInSignal(|x|, p, N) && AgreeOnWindow(x, y, p, N)
    ensures Autocorrelations(x, p, N, m) == Autocorrelations(y, p, N, m)
  {
    forall j | 0 <= j <= m
      ensures Autocorrelations(x, p, N, m)[j] == Autocorrelations(y, p, N, m)[j]
    {
      LagSumAgree(x, y, p, N, p - 1 - j, j);
    }
  }
}
