/** The C# loops of the engines, step for step, with the range checks made
    up front rather than met as exceptions: each step clones
    its vector, writes the working copy entry by entry and reads only the
    clone. Every method is proved to compute the simultaneous update of
    module BurgSteps, and Train to compute BurgEngine.Train. */
module BurgLoops {
  import opened Results
  import opened Vectors
  import opened BurgSteps
  import opened BurgEngine
  import Autocorrelation

  /** `FindAutocorrelations`: c[j] accumulates x[idx]·x[idx+j] for idx from
      p−N up to p−1−j. */
  method FindAutocorrelations(x: seq<real>, p: int, N: int, m: nat) returns (c: seq<real>)
    requires Autocorrelation.WindowInSignal(|x|, p, N)
    ensures |c| == m + 1
    ensures forall j :: 0 <= j <= m ==> c[j] == Autocorrelation.LagSum(x, p - N, p - 1 - j, j)
    ensures c == Autocorrelation.Autocorrelations(x, p, N, m)
  {
    c := Zeros(m + 1);
    var j := 0;
    while j <= m
      invariant 0 <= j <= m + 1 && |c| == m + 1
      invariant forall t :: 0 <= t < j ==> c[t] == Autocorrelation.LagSum(x, p - N, p - 1 - t, t)
    {
      c := c[j := 0.0];
      var index := p - N;
      while index <= p - 1 - j
        invariant p - N <= index && (index == p - N || index <= p - j)
        invariant |c| == m + 1
        invariant c[j] == Autocorrelation.LagSum(x, p - N, index - 1, j)
        invariant forall t :: 0 <= t < j ==> c[t] == Autocorrelation.LagSum(x, p - N, p - 1 - t, t)
      {
        c := c[j := c[j] + x[index] * x[index + j]];
        index := index + 1;
      }
      j := j + 1;
    }
  }

  /** `ComputeReflectionCoef`: one pass accumulates the flipped and the
      plain inner product; the denominator starts at eps. */
  method ComputeReflectionCoef(a: seq<real>, g: seq<real>, i: nat, eps: real) returns (res: Result<real>)
    requires i + 1 < |a| && i + 1 < |g|
    ensures res == BurgSteps.ReflectionCoef(a, g, i, eps)
  {
    var nominator := 0.0;
    var denominator := eps;
    var index := 0;
    while index <= i + 1
      invariant 0 <= index <= i + 2
      invariant nominator == Dot(a, Flip(g, i + 1), index)
      invariant denominator == eps + Dot(a, g, index)
    {
      nominator := nominator + a[index] * g[JinversOrder(index, i + 1)];
      denominator := denominator + a[index] * g[index];
      index := index + 1;
    }
    if denominator == 0.0 {
      return Err(DivideByZero);
    }
    res := Ok(-nominator / denominator);
  }

  /** `UpdatePredictionCoefs`: a[index] := old_a[index] + k·old_a[i+1−index]. */
  method UpdatePredictionCoefs(a: seq<real>, kappa: real, i: nat) returns (a': seq<real>)
    requires i + 1 < |a|
    ensures |a'| == |a|
    ensures forall j :: 0 <= j <= i + 1 ==> a'[j] == a[j] + kappa * a[i + 1 - j]
    ensures a' == BurgSteps.UpdatePredictionCoefs(a, kappa, i)
  {
    ghost var want := BurgSteps.UpdatePredictionCoefs(a, kappa, i);
    var oldA := a;
    a' := a;
    var index := 0;
    while index <= i + 1
      invariant 0 <= index <= i + 2 && |a'| == |a|
      invariant forall j :: 0 <= j < index ==> a'[j] == want[j]
      invariant forall j :: index <= j < |a| ==> a'[j] == a[j]
    {
      a' := a'[index := oldA[index] + kappa * oldA[JinversOrder(index, i + 1)]];
      index := index + 1;
    }
    assert forall j :: 0 <= j < |a| ==> a'[j] == want[j];
  }

  /** `UpdateR`: r[index+1] := old_r[index] minus the two endpoint products,
      then r[0] := 2·c[i+1]. */
  method UpdateR(r: seq<real>, x: seq<real>, p: int, N: int, c: seq<real>, i: nat) returns (r': seq<real>)
    requires 1 <= i < |r| && i + 1 < |c|
    requires StepReads(x, p, N, i)
    ensures |r'| == |r|
    ensures r' == BurgSteps.UpdateR(r, x, p, N, c, i)
  {
    ghost var want := BurgSteps.UpdateR(r, x, p, N, c, i);
    var oldR := r;
    r' := r;
    var index := 0;
    while index <= i - 1
      invariant 0 <= index <= i && |r'| == |r|
      invariant forall j :: 1 <= j <= index ==> r'[j] == want[j]
      invariant forall j :: index < j < |r| ==> r'[j] == r[j]
    {
      r' := r'[index + 1 := oldR[index] - x[p - N + index] * x[p - N + i] - x[p - 1 - index] * x[p - 1 - i]];
      index := index + 1;
    }
    r' := r'[0 := 2.0 * c[i + 1]];
    assert forall j :: 0 <= j < |r| ==> r'[j] == want[j];
  }

  /** The inner loop of `ComputeDeltaRMultByA`: the two inner products
      ⟨u, a⟩ and ⟨v, a⟩ over columns 0..i, accumulated column by column. */
  method InnerProducts(x: seq<real>, a: seq<real>, p: int, N: int, i: nat) returns (innerProduct1: real, innerProduct2: real)
    requires i < |a| && StepReads(x, p, N, i)
    ensures innerProduct1 == Dot(HeadReversed(x, p, N, i), a, i + 1)
    ensures innerProduct2 == Dot(Tail(x, p, N, i), a, i + 1)
  {
    ghost var u := HeadReversed(x, p, N, i);
    ghost var v := Tail(x, p, N, i);
    innerProduct1 := 0.0;
    innerProduct2 := 0.0;
    var indexColumn := 0;
    while indexColumn <= i
      invariant 0 <= indexColumn <= i + 1
      invariant innerProduct1 == Dot(u, a, indexColumn)
      invariant innerProduct2 == Dot(v, a, indexColumn)
    {
      innerProduct1 := innerProduct1 + x[p - N + i - indexColumn] * a[indexColumn];
      innerProduct2 := innerProduct2 + x[p - 1 - i + indexColumn] * a[indexColumn];
      indexColumn := indexColumn + 1;
    }
  }

  /** `ComputeDeltaRMultByA`: for every row the two inner products are
      recomputed over all columns, then combined with that row's samples.
      The result is row by row the product of −(u·uᵀ + v·vᵀ) with a. */
  method ComputeDeltaRMultByA(x: seq<real>, a: seq<real>, p: int, N: int, i: nat, delta: seq<real>) returns (d: seq<real>)
    requires i < |a| && i < |delta| && StepReads(x, p, N, i)
    ensures |d| == |delta|
    ensures d == BurgSteps.DeltaRAndA(x, a, p, N, i, delta)
  {
    ghost var want := BurgSteps.DeltaRAndA(x, a, p, N, i, delta);
    d := delta;
    var indexRow := 0;
    while indexRow <= i
      invariant 0 <= indexRow <= i + 1 && |d| == |delta|
      invariant forall row :: 0 <= row < indexRow ==> d[row] == want[row]
      invariant forall row :: indexRow <= row < |delta| ==> d[row] == delta[row]
    {
      var innerProduct1, innerProduct2 := InnerProducts(x, a, p, N, i);
      assert want[indexRow] == DeltaEntry(x, a, p, N, i, indexRow);
      d := d[indexRow := 0.0 - x[p - N + i - indexRow] * innerProduct1 - x[p - 1 - i + indexRow] * innerProduct2];
      indexRow := indexRow + 1;
    }
    assert forall row :: 0 <= row < |d| ==> d[row] == want[row];
  }

  /** `UpdateG`: g[index] := old_g[index] + k[i−1]·old_g[i−index] + delta[index]
      for index <= i, then g[i+1] += r[index]·a[index] for index <= i. */
  method UpdateG(g: seq<real>, k: seq<real>, delta: seq<real>, r: seq<real>, a: seq<real>, i: nat) returns (g': seq<real>)
    requires 1 <= i <= |k| && i + 1 < |g| && i < |delta| && i < |r| && i < |a|
    ensures |g'| == |g|
    ensures forall j :: 0 <= j <= i ==> g'[j] == g[j] + k[i - 1] * g[i - j] + delta[j]
    ensures g' == BurgSteps.UpdateG(g, k[i - 1], delta, r, a, i)
  {
    ghost var want := BurgSteps.UpdateG(g, k[i - 1], delta, r, a, i);
    var oldG := g;
    g' := g;
    var index := 0;
    while index <= i
      invariant 0 <= index <= i + 1 && |g'| == |g|
      invariant forall j :: 0 <= j < index ==> g'[j] == want[j]
      invariant forall j :: index <= j < |g| ==> g'[j] == g[j]
    {
      g' := g'[index := oldG[index] + k[i - 1] * oldG[JinversOrder(index, i)] + delta[index]];
      index := index + 1;
    }
    index := 0;
    while index <= i
      invariant 0 <= index <= i + 1 && |g'| == |g|
      invariant forall j :: 0 <= j < |g| && j != i + 1 ==> g'[j] == want[j]
      invariant g'[i + 1] == g[i + 1] + Dot(r, a, index)
    {
      g' := g'[i + 1 := g'[i + 1] + r[index] * a[index]];
      index := index + 1;
    }
    assert forall j :: 0 <= j < |g| ==> g'[j] == want[j];
  }

  /** `GetForwardPrediction`: prediction −= a[index]·x[p−index] for
      index = 1..|a|−1. */
  method GetForwardPrediction(x: seq<real>, p: int, N: int, co: Coefficients) returns (prediction: real)
    requires 1 <= |co.a| && PredictionsInBounds(|x|, p, N, |co.a| - 1)
    ensures prediction == ForwardPrediction(x, p, N, co)
  {
    prediction := 0.0;
    var index := 1;
    while index <= |co.a| - 1
      invariant 1 <= index <= |co.a|
      invariant prediction == -ForwardSum(co.a, x, p, index - 1)
    {
      prediction := prediction - co.a[index] * x[p - index];
      index := index + 1;
    }
  }

  /** `GetBackwardPrediction`: prediction −= a[index]·x[p−N−1+index] for
      index = 1..|a|−1. */
  method GetBackwardPrediction(x: seq<real>, p: int, N: int, co: Coefficients) returns (prediction: real)
    requires 1 <= |co.a| && PredictionsInBounds(|x|, p, N, |co.a| - 1)
    ensures prediction == BackwardPrediction(x, p, N, co)
  {
    prediction := 0.0;
    var index := 1;
    while index <= |co.a| - 1
      invariant 1 <= index <= |co.a|
      invariant prediction == -BackwardSum(co.a, x, p, N, index - 1)
    {
      prediction := prediction - co.a[index] * x[p - N - 1 + index];
      index := index + 1;
    }
  }

  /** `Train`: allocation and range failures first, then the autocorrelations,
      Initialization and the iterations. */
  method Train(e: Engine, x: seq<real>, p: int, m: int, N: int) returns (res: Result<Coefficients>)
    ensures res == BurgEngine.Train(e, x, p, m, N)
  {
    var kLen := KLength(e, m);
    if m + 1 < 0 || kLen < 0 {
      return Err(Overflow);
    }
    if m < 1 || !(0 <= p - N < |x|) || !(0 <= p - 1 < |x|) {
      return Err(IndexOutOfRange);
    }
    var c := FindAutocorrelations(x, p, N, m);
    var s := Iterations(Epsilon(e), ZeroDivisionThrows(e), x, p, N, m, kLen, c, Initialization(x, p, N, m, c, kLen));
    if s.Err? {
      return Err(s.error);
    }
    res := Ok(Coefficients(s.value.a, s.value.k));
  }

  /** Steps 2–3 of one turn: `UpdatePredictionCoefs`, k[i] := kappa and
      the counter increment. */
  method Advance(s: BurgState, kappa: real, m: nat, kLen: nat) returns (t: BurgState)
    requires Shaped(s, m, kLen)
    ensures t == Step(s, kappa, m, kLen)
  {
    var a := UpdatePredictionCoefs(s.a, kappa, s.i);
    t := BurgState(s.i + 1, a, s.g, s.r, s.k[s.i := kappa], s.delta);
  }

  /** Steps 5–7 of one turn: `UpdateR`, `ComputeDeltaRMultByA`, `UpdateG`. */
  method Refresh(x: seq<real>, p: int, N: int, c: seq<real>, t: BurgState, m: nat, kLen: nat) returns (u: BurgState)
    requires Advanced(t, m, kLen) && t.i < m && |c| == m + 1
    requires StepReads(x, p, N, t.i)
    ensures u == BurgSteps.Refresh(x, p, N, c, t, m, kLen)
  {
    var r := UpdateR(t.r, x, p, N, c, t.i);
    var delta := ComputeDeltaRMultByA(x, t.a, p, N, t.i, t.delta);
    var g := UpdateG(t.g, t.k, delta, r, t.a, t.i);
    u := BurgState(t.i, t.a, g, r, t.k, delta);
    assert BurgSteps.Refresh(x, p, N, c, t, m, kLen) == BurgState(t.i, t.a, g, r, t.k, delta);
  }

  /** The `while (i <= m)` loop of Train, whose only exit is the `return`
      taken as soon as the incremented counter equals m. When a zero
      denominator does not throw, the loop runs on with the coefficient
      standing in for NaN or ±∞, and the result is reported as not a number. */
  method Iterations(eps: real, throws: bool, x: seq<real>, p: int, N: int, m: nat, kLen: nat, c: seq<real>, s0: BurgState)
    returns (res: Result<BurgState>)
    requires Shaped(s0, m, kLen) && |c| == m + 1
    requires 0 <= p - N && p - 1 < |x|
    ensures res == Iterate(eps, throws, x, p, N, m, kLen, c, s0, false)
  {
    var s := s0;
    var zeroDen := false;
    while s.i <= m
      invariant Shaped(s, m, kLen)
      invariant Iterate(eps, throws, x, p, N, m, kLen, c, s, zeroDen) == Iterate(eps, throws, x, p, N, m, kLen, c, s0, false)
      decreases m - s.i
    {
      var kappa := ComputeReflectionCoef(s.a, s.g, s.i, eps);
      if kappa.Err? && throws {
        return Err(DivideByZero);
      }
      var kv := Carried(kappa);
      ghost var before := zeroDen;
      zeroDen := zeroDen || kappa.Err?;
      var t := Advance(s, kv, m, kLen);
      if t.i == m {
        if zeroDen {
          return Err(DivideByZero);
        }
        return Ok(t);
      }
      if !ReadsInBounds(|x|, p, N, t.i) {
        return Err(IndexOutOfRange);
      }
      IterateTurn(eps, throws, x, p, N, m, kLen, c, s, before);
      s := Refresh(x, p, N, c, t, m, kLen);
    }
    assert false;
  }
}
