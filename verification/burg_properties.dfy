/** Laws of the whole estimator: which inputs are safe, what an all-zero
    window yields, and that an estimate depends on nothing but the window. */
module BurgProperties {
  import opened Results
  import opened Vectors
  import opened BurgSteps
  import opened BurgEngine
  import opened Autocorrelation
  import Operations

  /** Under 1 <= m <= N <= p <= |x| Train never reads outside an array:
      it either succeeds or meets a zero denominator. */
  lemma SafeDomain(e: Engine, x: seq<real>, p: int, m: int, N: int)
    requires 1 <= m <= N <= p <= |x|
    ensures TrainInBounds(|x|, p, m, N)
    ensures Train(e, x, p, m, N).Ok? || Train(e, x, p, m, N) == Err(DivideByZero)
  {
  }

  /** Order 0 fails: Initialization reads c[1] from a one-entry array. */
  lemma OrderZeroFails(e: Engine, x: seq<real>, p: int, N: int)
    ensures Train(e, x, p, 0, N) == Err(IndexOutOfRange)
  {
  }

  /** Every working vector is zero except the leading 1 of a. */
  predicate Zeroed(s: BurgState)
  {
    && (forall j :: 0 < j < |s.a| ==> s.a[j] == 0.0)
    && (forall j :: 0 <= j < |s.g| ==> s.g[j] == 0.0)
    && (forall j :: 0 <= j < |s.r| ==> s.r[j] == 0.0)
    && (forall j :: 0 <= j < |s.k| ==> s.k[j] == 0.0)
    && (forall j :: 0 <= j < |s.delta| ==> s.delta[j] == 0.0)
  }

  /** Steps 5–7 on a zero window keep every vector zero. */
  lemma ZeroRefresh(x: seq<real>, p: int, N: int, c: seq<real>, t: BurgState, m: nat, kLen: nat)
    requires Advanced(t, m, kLen) && t.i < m <= N && |c| == m + 1
    requires StepReads(x, p, N, t.i) && ZeroWindow(x, p, N)
    requires forall j :: 0 <= j <= m ==> c[j] == 0.0
    requires Zeroed(t)
    ensures Zeroed(Refresh(x, p, N, c, t, m, kLen))
  {
    var i := t.i;
    var r' := UpdateR(t.r, x, p, N, c, i);
    forall j | 0 <= j < |r'|
      ensures r'[j] == 0.0
    {
      if 0 < j <= i {
        assert x[p - N + j - 1] == 0.0 && x[p - 1 - (j - 1)] == 0.0;
      }
    }
    var d' := DeltaRAndA(x, t.a, p, N, i, t.delta);
    forall row | 0 <= row < |d'|
      ensures d'[row] == 0.0
    {
      if row <= i {
        assert d'[row] == DeltaEntry(x, t.a, p, N, i, row);
        assert x[p - N + i - row] == 0.0 && x[p - 1 - i + row] == 0.0;
      }
    }
    DotOfZeroProducts(r', t.a, i + 1);
    var g' := UpdateG(t.g, t.k[i - 1], d', r', t.a, i);
    assert forall j :: 0 <= j < |g'| ==> g'[j] == 0.0;
  }

  /** With a non-zero seed, steps 1–3 on zero vectors divide 0 by the seed
      and leave every vector zero. */
  lemma ZeroAdvance(eps: real, s: BurgState, m: nat, kLen: nat)
    requires eps != 0.0 && Shaped(s, m, kLen) && Zeroed(s)
    ensures ReflectionCoef(s.a, s.g, s.i, eps) == Ok(0.0)
    ensures Zeroed(Step(s, 0.0, m, kLen))
  {
    DotOfZeroProducts(s.a, Flip(s.g, s.i + 1), s.i + 2);
    DotOfZeroProducts(s.a, s.g, s.i + 2);
  }

  /** With a non-zero seed, every iteration on a zero window divides 0 by
      the seed: all reflection coefficients are 0 and all vectors stay zero. */
  lemma {:induction false} ZeroIterate(eps: real, throws: bool, x: seq<real>, p: int, N: int, m: nat, kLen: nat, c: seq<real>, s: BurgState)
    requires eps != 0.0
    requires Shaped(s, m, kLen) && |c| == m + 1 && m <= N
    requires 0 <= p - N && p <= |x|
    requires ZeroWindow(x, p, N) && (forall j :: 0 <= j <= m ==> c[j] == 0.0)
    requires Zeroed(s)
    ensures Iterate(eps, throws, x, p, N, m, kLen, c, s, false).Ok?
    ensures Zeroed(Iterate(eps, throws, x, p, N, m, kLen, c, s, false).value)
    decreases m - s.i
  {
    ZeroAdvance(eps, s, m, kLen);
    var t := Step(s, 0.0, m, kLen);
    if t.i < m {
      assert ReadsInBounds(|x|, p, N, t.i);
      var u := Refresh(x, p, N, c, t, m, kLen);
      IterateTurn(eps, throws, x, p, N, m, kLen, c, s, false);
      ZeroRefresh(x, p, N, c, t, m, kLen);
      ZeroIterate(eps, throws, x, p, N, m, kLen, c, u);
    }
  }

  /** Σ a[j]·x[…] vanishes when a[1..n] does. */
  lemma {:induction false} ForwardSumOfMonic(a: seq<real>, x: seq<real>, p: int, n: nat)
    requires n < |a| && 0 <= p - n && (1 <= n ==> p - 1 < |x|)
    requires forall j :: 1 <= j <= n ==> a[j] == 0.0
    ensures ForwardSum(a, x, p, n) == 0.0
  {
    if n > 0 {
      ForwardSumOfMonic(a, x, p, n - 1);
    }
  }

  lemma {:induction false} BackwardSumOfMonic(a: seq<real>, x: seq<real>, p: int, N: int, n: nat)
    requires n < |a| && (1 <= n ==> 0 <= p - N && p - N - 1 + n < |x|)
    requires forall j :: 1 <= j <= n ==> a[j] == 0.0
    ensures BackwardSum(a, x, p, N, n) == 0.0
  {
    if n > 0 {
      BackwardSumOfMonic(a, x, p, N, n - 1);
    }
  }

  /** On a zero window Initialization leaves only a[0] = 1 non-zero. */
  lemma ZeroInitialization(x: seq<real>, p: int, N: int, m: nat, kLen: nat)
    requires 1 <= m <= N && m <= kLen && 0 <= p - N && p <= |x|
    requires ZeroWindow(x, p, N)
    ensures Zeroed(Initialization(x, p, N, m, Autocorrelations(x, p, N, m), kLen))
  {
    ZeroWindowAutocorrelations(x, p, N, m);
    assert x[p - N] == 0.0 && x[p - 1] == 0.0;
  }

  /** The coefficients the guarded engines produce on a zero window. */
  lemma ZeroWindowCoefficients(e: Engine, x: seq<real>, p: int, m: int, N: int)
    requires !e.Double64?
    requires 1 <= m <= N <= p <= |x|
    requires ZeroWindow(x, p, N)
    ensures Train(e, x, p, m, N).Ok?
    ensures forall j :: 1 <= j <= m ==> Train(e, x, p, m, N).value.a[j] == 0.0
    ensures forall j :: 0 <= j < |Train(e, x, p, m, N).value.k| ==> Train(e, x, p, m, N).value.k[j] == 0.0
  {
    var kLen := KLength(e, m);
    var c := Autocorrelations(x, p, N, m);
    ZeroWindowAutocorrelations(x, p, N, m);
    ZeroInitialization(x, p, N, m, kLen);
    var s0 := Initialization(x, p, N, m, c, kLen);
    ZeroIterate(Epsilon(e), ZeroDivisionThrows(e), x, p, N, m, kLen, c, s0);
    TrainOfIterate(e, x, p, m, N);
  }

  /** Once the arrays exist and Initialization's reads are in range, Train
      is the iteration's outcome. */
  lemma TrainOfIterate(e: Engine, x: seq<real>, p: int, m: int, N: int)
    requires 1 <= m && 0 <= p - N < |x| && 0 <= p - 1 < |x| && 0 <= KLength(e, m)
    ensures
      var kLen := KLength(e, m);
      var c := Autocorrelations(x, p, N, m);
      var it := Iterate(Epsilon(e), ZeroDivisionThrows(e), x, p, N, m, kLen, c, Initialization(x, p, N, m, c, kLen), false);
      Train(e, x, p, m, N) == if it.Ok? then Ok(Coefficients(it.value.a, it.value.k)) else Err(it.error)
  {
  }

  /** Zero-signal law of the guarded engines (generic and decimal): on an
      all-zero window every reflection coefficient is 0, a = [1, 0, …, 0],
      and both predictions are 0. */
  lemma ZeroWindowLaw(e: Engine, x: seq<real>, p: int, m: int, N: int)
    requires !e.Double64?
    requires 1 <= m <= N <= p <= |x|
    requires ZeroWindow(x, p, N)
    ensures Train(e, x, p, m, N).Ok?
    ensures forall j :: 0 <= j < |Train(e, x, p, m, N).value.k| ==> Train(e, x, p, m, N).value.k[j] == 0.0
    ensures ForwardPrediction(x, p, N, Train(e, x, p, m, N).value) == 0.0
    ensures BackwardPrediction(x, p, N, Train(e, x, p, m, N).value) == 0.0
  {
    ZeroWindowCoefficients(e, x, p, m, N);
    var co := Train(e, x, p, m, N).value;
    ForwardSumOfMonic(co.a, x, p, m);
    BackwardSumOfMonic(co.a, x, p, N, m);
  }

  /** The double engine, whose denominator starts at 0, divides 0 by 0 in
      its very first iteration on an all-zero window. */
  lemma ZeroWindowUnguarded(x: seq<real>, p: int, m: int, N: int)
    requires 1 <= m <= N <= p <= |x|
    requires ZeroWindow(x, p, N)
    ensures Train(Double64, x, p, m, N) == Err(DivideByZero)
  {
    var kLen := KLength(Double64, m);
    var c := Autocorrelations(x, p, N, m);
    var s0 := Initialization(x, p, N, m, c, kLen);
    ZeroInitialization(x, p, N, m, kLen);
    DotOfZeroProducts(s0.a, s0.g, 2);
    assert ReflectionCoef(s0.a, s0.g, 0, 0.0) == Err(DivideByZero);
    assert !Iterate(0.0, false, x, p, N, m, kLen, c, s0, false).Ok?;
    SafeDomain(Double64, x, p, m, N);
  }

  /** Steps 5–7 read only window samples when the counter is below N. */
  lemma RefreshAgree(x: seq<real>, y: seq<real>, p: int, N: int, c: seq<real>, t: BurgState, m: nat, kLen: nat)
    requires Advanced(t, m, kLen) && t.i < m <= N && |c| == m + 1
    requires StepReads(x, p, N, t.i) && AgreeOnWindow(x, y, p, N)
    ensures StepReads(y, p, N, t.i)
    ensures Refresh(x, p, N, c, t, m, kLen) == Refresh(y, p, N, c, t, m, kLen)
  {
    UpdateRAgree(t.r, x, y, p, N, c, t.i);
    DeltaRAndAAgree(x, y, t.a, p, N, t.i, t.delta);
  }

  /** Step 5 reads the window's first i+1 and last i+1 samples. */
  lemma UpdateRAgree(r: seq<real>, x: seq<real>, y: seq<real>, p: int, N: int, c: seq<real>, i: nat)
    requires 1 <= i < |r| && i + 1 < |c| && i < N
    requires StepReads(x, p, N, i) && AgreeOnWindow(x, y, p, N)
    ensures StepReads(y, p, N, i)
    ensures UpdateR(r, x, p, N, c, i) == UpdateR(r, y, p, N, c, i)
  {
    var rx, ry := UpdateR(r, x, p, N, c, i), UpdateR(r, y, p, N, c, i);
    assert forall j :: 0 <= j < |rx| ==> rx[j] == ry[j];
  }

  /** Step 6 reads the same samples through the vectors u and v. */
  lemma DeltaRAndAAgree(x: seq<real>, y: seq<real>, a: seq<real>, p: int, N: int, i: nat, delta: seq<real>)
    requires i < |a| && i < |delta| && i < N
    requires StepReads(x, p, N, i) && AgreeOnWindow(x, y, p, N)
    ensures StepReads(y, p, N, i)
    ensures DeltaRAndA(x, a, p, N, i, delta) == DeltaRAndA(y, a, p, N, i, delta)
  {
    assert HeadReversed(x, p, N, i) == HeadReversed(y, p, N, i);
    assert Tail(x, p, N, i) == Tail(y, p, N, i);
    var dx, dy := DeltaRAndA(x, a, p, N, i, delta), DeltaRAndA(y, a, p, N, i, delta);
    assert forall row :: 0 <= row < |dx| ==> dx[row] == dy[row];
  }

  /** Initialization reads only x[p−N] and x[p−1] besides c. */
  lemma InitializationAgree(x: seq<real>, y: seq<real>, p: int, N: int, m: nat, c: seq<real>, kLen: nat)
    requires 1 <= m <= kLen && |c| == m + 1 && 0 <= p - N < |x| && 0 <= p - 1 < |x|
    requires 1 <= N && AgreeOnWindow(x, y, p, N)
    ensures Initialization(x, p, N, m, c, kLen) == Initialization(y, p, N, m, c, kLen)
  {
    assert x[p - N] == y[p - N] && x[p - 1] == y[p - 1];
    var s, t := Initialization(x, p, N, m, c, kLen), Initialization(y, p, N, m, c, kLen);
    assert s.g[0] == t.g[0];
    assert s.g == t.g;
  }

  lemma {:induction false} IterateAgree(eps: real, throws: bool, x: seq<real>, y: seq<real>, p: int, N: int, m: nat, kLen: nat, c: seq<real>, s: BurgState, zeroDen: bool)
    requires Shaped(s, m, kLen) && |c| == m + 1 && m <= N
    requires 0 <= p - N && p - 1 < |x| && AgreeOnWindow(x, y, p, N)
    ensures Iterate(eps, throws, x, p, N, m, kLen, c, s, zeroDen) == Iterate(eps, throws, y, p, N, m, kLen, c, s, zeroDen)
    decreases m - s.i
  {
    var coef := ReflectionCoef(s.a, s.g, s.i, eps);
    if !(coef.Err? && throws) {
      var t := Step(s, Carried(coef), m, kLen);
      if t.i < m && ReadsInBounds(|x|, p, N, t.i) {
        RefreshAgree(x, y, p, N, c, t, m, kLen);
        IterateTurn(eps, throws, x, p, N, m, kLen, c, s, zeroDen);
        IterateTurn(eps, throws, y, p, N, m, kLen, c, s, zeroDen);
        IterateAgree(eps, throws, x, y, p, N, m, kLen, c, Refresh(x, p, N, c, t, m, kLen), zeroDen || coef.Err?);
      }
    }
  }

  lemma {:induction false} ForwardSumAgree(a: seq<real>, x: seq<real>, y: seq<real>, p: int, N: int, n: nat)
    requires n < |a| && n <= N && 0 <= p - n && (1 <= n ==> p - 1 < |x|)
    requires AgreeOnWindow(x, y, p, N)
    ensures ForwardSum(a, x, p, n) == ForwardSum(a, y, p, n)
  {
    if n > 0 {
      ForwardSumAgree(a, x, y, p, N, n - 1);
      assert x[p - n] == y[p - n];
    }
  }

  lemma {:induction false} BackwardSumAgree(a: seq<real>, x: seq<real>, y: seq<real>, p: int, N: int, n: nat)
    requires n < |a| && n <= N && (1 <= n ==> 0 <= p - N && p - N - 1 + n < |x|)
    requires AgreeOnWindow(x, y, p, N)
    ensures BackwardSum(a, x, p, N, n) == BackwardSum(a, y, p, N, n)
  {
    if n > 0 {
      BackwardSumAgree(a, x, y, p, N, n - 1);
      assert x[p - N - 1 + n] == y[p - N - 1 + n];
    }
  }

  /** Train reads no sample outside the window when m <= N. */
  lemma TrainAgree(e: Engine, x: seq<real>, y: seq<real>, p: int, m: int, N: int)
    requires m <= N && AgreeOnWindow(x, y, p, N)
    ensures Train(e, x, p, m, N) == Train(e, y, p, m, N)
  {
    var kLen := KLength(e, m);
    if 1 <= m && 0 <= kLen && 0 <= p - N < |x| && 0 <= p - 1 < |x| {
      AutocorrelationsAgree(x, y, p, N, m);
      var c := Autocorrelations(x, p, N, m);
      assert |c| == m + 1;
      InitializationAgree(x, y, p, N, m, c, kLen);
      IterateAgree(Epsilon(e), ZeroDivisionThrows(e), x, y, p, N, m, kLen, c, Initialization(x, p, N, m, c, kLen), false);
    }
  }

  /** With m ≤ N, for two equal-length signals that agree on the history
      window x[p−N .. p−1], Train gives the same outcome and both predictions
      from it are equal: every Train call starts from freshly allocated
      vectors and keeps nothing from earlier calls. With m > N the later
      iterations read outside the window, x[p] included. */
  lemma WindowLocality(e: Engine, x: seq<real>, y: seq<real>, p: int, m: int, N: int)
    requires m <= N && AgreeOnWindow(x, y, p, N)
    ensures Train(e, x, p, m, N) == Train(e, y, p, m, N)
    ensures Train(e, x, p, m, N).Ok? ==>
      && ForwardPrediction(x, p, N, Train(e, x, p, m, N).value) == ForwardPrediction(y, p, N, Train(e, x, p, m, N).value)
      && BackwardPrediction(x, p, N, Train(e, x, p, m, N).value) == BackwardPrediction(y, p, N, Train(e, x, p, m, N).value)
  {
    TrainAgree(e, x, y, p, m, N);
    var res := Train(e, x, p, m, N);
    if res.Ok? {
      PredictionsAgree(res.value, x, y, p, N);
    }
  }

  /** A prediction from coefficients of order at most N reads only the
      window's samples. */
  lemma PredictionsAgree(co: Coefficients, x: seq<real>, y: seq<real>, p: int, N: int)
    requires 1 <= |co.a| && |co.a| - 1 <= N && PredictionsInBounds(|x|, p, N, |co.a| - 1)
    requires AgreeOnWindow(x, y, p, N)
    ensures ForwardPrediction(x, p, N, co) == ForwardPrediction(y, p, N, co)
    ensures BackwardPrediction(x, p, N, co) == BackwardPrediction(y, p, N, co)
  {
    ForwardSumAgree(co.a, x, y, p, N, |co.a| - 1);
    BackwardSumAgree(co.a, x, y, p, N, |co.a| - 1);
  }
}
