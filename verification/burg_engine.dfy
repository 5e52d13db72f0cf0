/** The three Fast Burg engines of the library as one recursion:
    `FastBurgAlgorithm<T>` (generic, denominator seeded with the backend's
    `AlmostZero`, k of length m), `FastBurgAlgorithm64` (double, no seed,
    k of length m+1) and `FastBurgAlgorithm128` (decimal, seed 10^-27,
    k of length m+1). */
module BurgEngine {
  import opened Results
  import opened Vectors
  import opened BurgSteps
  import Operations
  import Autocorrelation

  /** Which class runs the recursion. */
  datatype Engine = Generic(backend: Operations.Backend) | Double64 | Decimal128

  /** The generic constructor: `Operations<T>.Default` is resolved when the
      engine is built, so an unsupported T fails before any training. */
  function NewGeneric(t: Operations.TypeCode): (res: Result<Engine>)
    ensures res.Ok? <==> !t.Other?
    ensures res.Ok? ==> res.value.Generic? && Operations.TypeCodeOf(res.value.backend) == t
    ensures t.Other? ==> res == Err(NotSupported(t.name))
  {
    var b :- Operations.Create(t);
    Ok(Generic(b))
  }

  /** The initial value of the reflection-coefficient denominator: positive
      for the generic and the decimal engine, zero for the double engine. The
      decimal engine's literal is the decimal backend's AlmostZero. */
  function Epsilon(e: Engine): (eps: real)
    ensures 0.0 <= eps
    ensures eps == 0.0 <==> e.Double64?
    ensures e.Decimal128? ==> eps == Operations.AlmostZero(Operations.DecimalOperations)
  {
    match e
    case Generic(b) => Operations.AlmostZero(b)
    case Double64 => 0.0
    case Decimal128 => 0.000000000000000000000000001
  }

  /** Whether a zero reflection-coefficient denominator stops Train: the
      decimal engines throw, the double engines carry NaN or ±∞ on. */
  predicate ZeroDivisionThrows(e: Engine)
  {
    match e
    case Generic(b) => Operations.DivisionThrows(b)
    case Double64 => false
    case Decimal128 => true
  }

  /** The length CreateInternalVariables gives the reflection coefficients. */
  function KLength(e: Engine, m: int): (len: int)
    ensures m <= len <= m + 1
    ensures len == m <==> e.Generic?
  {
    if e.Generic? then m else m + 1
  }

  /** What the getters hand out after a successful Train. */
  datatype Coefficients = Coefficients(a: seq<real>, k: seq<real>)

  /** The signal reads of UpdateR and ComputeDeltaRMultByA at counter i. */
  predicate ReadsInBounds(n: int, p: int, N: int, i: int)
  {
    p - N + i < n && 0 <= p - 1 - i
  }

  /** Exactly the (p, m, N) for which Train reads only existing entries:
      c[1] exists, Initialization's x[p−N] and x[p−1] exist, and the last
      iteration that updates r (counter m−1) reads inside the signal. */
  predicate TrainInBounds(n: int, p: int, m: int, N: int)
  {
    && 1 <= m
    && 0 <= p - N < n
    && 0 <= p - 1 < n
    && (2 <= m ==> ReadsInBounds(n, p, N, m - 1))
  }

  /** The reads of both predictions, for coefficients a[0..m]. */
  predicate PredictionsInBounds(n: int, p: int, N: int, m: int)
  {
    1 <= m && 0 <= p - m && p - 1 < n && 0 <= p - N && p - N - 1 + m < n
  }

  /** The `while` loop of Train from counter s.i on: it returns as soon as
      the incremented counter reaches m, so r, deltaRAndAProduct and g are
      never updated at counter m. A zero denominator stops the loop when
      `throws`; otherwise the coefficient is NaN or ±∞ and the loop goes on
      with the same reads, so the model carries 0 in its place and records
      in `zeroDen` that the result will not be a number. An index error
      surfaces at the first counter whose reads leave the signal. */
  function Iterate(eps: real, throws: bool, x: seq<real>, p: int, N: int, m: nat, kLen: nat, c: seq<real>, s: BurgState, zeroDen: bool): (res: Result<BurgState>)
    requires Shaped(s, m, kLen) && |c| == m + 1
    requires 0 <= p - N && p - 1 < |x|
    decreases m - s.i
    ensures res.Ok? ==> Advanced(res.value, m, kLen) && res.value.i == m && !zeroDen
    ensures res.Ok? ==> forall j :: 0 <= j < s.i ==> res.value.k[j] == s.k[j]
    ensures res.Ok? && s.i + 1 < m ==> ReadsInBounds(|x|, p, N, m - 1)
    ensures res == Err(IndexOutOfRange) ==> s.i + 1 < m && !ReadsInBounds(|x|, p, N, m - 1)
    ensures !throws && s.i + 1 < m && !ReadsInBounds(|x|, p, N, m - 1) ==> res == Err(IndexOutOfRange)
    ensures res.Err? ==> res.error == IndexOutOfRange || res.error == DivideByZero
  {
    var coef := ReflectionCoef(s.a, s.g, s.i, eps);
    if coef.Err? && throws then Err(DivideByZero)
    else
      var t := Step(s, Carried(coef), m, kLen);
      var zeroDen' := zeroDen || coef.Err?;
      if t.i == m then (if zeroDen' then Err(DivideByZero) else Ok(t))
      else if !ReadsInBounds(|x|, p, N, t.i) then Err(IndexOutOfRange)
      else Iterate(eps, throws, x, p, N, m, kLen, c, Refresh(x, p, N, c, t, m, kLen), zeroDen')
  }

  /** The reflection coefficient the loop carries on with: 0 stands in for
      the NaN or ±∞ a zero denominator leaves in a double engine. */
  function Carried(coef: Result<real>): real
  {
    if coef.Ok? then coef.value else 0.0
  }

  /** One turn of the loop that neither stops nor reads out of range. */
  lemma IterateTurn(eps: real, throws: bool, x: seq<real>, p: int, N: int, m: nat, kLen: nat, c: seq<real>, s: BurgState, zeroDen: bool)
    requires Shaped(s, m, kLen) && |c| == m + 1
    requires 0 <= p - N && p - 1 < |x|
    requires !(ReflectionCoef(s.a, s.g, s.i, eps).Err? && throws)
    requires s.i + 1 < m && ReadsInBounds(|x|, p, N, s.i + 1)
    ensures Iterate(eps, throws, x, p, N, m, kLen, c, s, zeroDen)
         == Iterate(eps, throws, x, p, N, m, kLen, c,
                    Refresh(x, p, N, c, Step(s, Carried(ReflectionCoef(s.a, s.g, s.i, eps)), m, kLen), m, kLen),
                    zeroDen || ReflectionCoef(s.a, s.g, s.i, eps).Err?)
  {
  }

  /** `Train(position, coefficientsNumber, historyLengthSamples)`: allocate,
      initialise, iterate. A negative array length raises an overflow; any
      read outside an array raises an index error, unless a decimal engine
      met a zero denominator first; otherwise the result is
      a monic a[0..m] whose last entry is the last reflection coefficient,
      with the entries of k past m−1 left at zero. */
  function Train(e: Engine, x: seq<real>, p: int, m: int, N: int): (res: Result<Coefficients>)
    ensures res == Err(Overflow) <==> m + 1 < 0 || KLength(e, m) < 0
    ensures res.Ok? ==> TrainInBounds(|x|, p, m, N)
    ensures TrainInBounds(|x|, p, m, N) ==> res.Ok? || res == Err(DivideByZero)
    ensures !ZeroDivisionThrows(e) ==>
      (res == Err(IndexOutOfRange) <==> !(m + 1 < 0 || KLength(e, m) < 0) && !TrainInBounds(|x|, p, m, N))
    ensures res.Ok? ==>
      && |res.value.a| == m + 1
      && |res.value.k| == KLength(e, m)
      && res.value.a[0] == 1.0
      && res.value.a[m] == res.value.k[m - 1]
      && (forall j :: m <= j < |res.value.k| ==> res.value.k[j] == 0.0)
    ensures res.Ok? ==> PredictionsInBounds(|x|, p, N, m)
  {
    var kLen := KLength(e, m);
    if m + 1 < 0 || kLen < 0 then Err(Overflow)
    else if m < 1 || !(0 <= p - N < |x|) || !(0 <= p - 1 < |x|) then Err(IndexOutOfRange)
    else
      var c := Autocorrelation.Autocorrelations(x, p, N, m);
      var s :- Iterate(Epsilon(e), ZeroDivisionThrows(e), x, p, N, m, kLen, c, Initialization(x, p, N, m, c, kLen), false);
      Ok(Coefficients(s.a, s.k))
  }

  /** Σ_{j=1}^{n} a[j]·x[p−j]. */
  function ForwardSum(a: seq<real>, x: seq<real>, p: int, n: nat): real
    requires n < |a| && 0 <= p - n && (1 <= n ==> p - 1 < |x|)
  {
    if n == 0 then 0.0 else ForwardSum(a, x, p, n - 1) + a[n] * x[p - n]
  }

  /** Σ_{j=1}^{n} a[j]·x[p−N−1+j]. */
  function BackwardSum(a: seq<real>, x: seq<real>, p: int, N: int, n: nat): real
    requires n < |a| && (1 <= n ==> 0 <= p - N && p - N - 1 + n < |x|)
  {
    if n == 0 then 0.0 else BackwardSum(a, x, p, N, n - 1) + a[n] * x[p - N - 1 + n]
  }

  /** The samples x[p−1], x[p−2], …, x[p−n], most recent first. */
  function Recent(x: seq<real>, p: int, n: nat): seq<real>
    requires 0 <= p - n && p <= |x|
  {
    seq(n, j requires 0 <= j < n => x[p - 1 - j])
  }

  /** The value predicted for x[p] from the m samples before it: with a
      monic a, the forward error filter Σ_{j=0}^{m} a[j]·x[p−j] leaves
      exactly x[p] minus the prediction. */
  function ForwardPrediction(x: seq<real>, p: int, N: int, co: Coefficients): (r: real)
    requires 1 <= |co.a| && PredictionsInBounds(|x|, p, N, |co.a| - 1)
    ensures co.a[0] == 1.0 && p < |x| ==> Dot(co.a, Recent(x, p + 1, |co.a|), |co.a|) == x[p] - r
  {
    var r := -ForwardSum(co.a, x, p, |co.a| - 1);
    assert co.a[0] == 1.0 && p < |x| ==> Dot(co.a, Recent(x, p + 1, |co.a|), |co.a|) == x[p] - r by {
      if co.a[0] == 1.0 && p < |x| {
        ForwardFilter(co.a, x, p, |co.a| - 1, Recent(x, p + 1, |co.a|));
      }
    }
    r
  }

  /** The value predicted for x[p−N−1] from the m samples after it: with a
      monic a, the backward error filter Σ_{j=0}^{m} a[j]·x[p−N−1+j] leaves
      exactly x[p−N−1] minus the prediction. */
  function BackwardPrediction(x: seq<real>, p: int, N: int, co: Coefficients): (r: real)
    requires 1 <= |co.a| && PredictionsInBounds(|x|, p, N, |co.a| - 1)
    ensures co.a[0] == 1.0 && 1 <= p - N ==>
      Dot(co.a, x[p - N - 1 .. p - N - 1 + |co.a|], |co.a|) == x[p - N - 1] - r
  {
    var r := -BackwardSum(co.a, x, p, N, |co.a| - 1);
    assert co.a[0] == 1.0 && 1 <= p - N ==>
      Dot(co.a, x[p - N - 1 .. p - N - 1 + |co.a|], |co.a|) == x[p - N - 1] - r by {
      if co.a[0] == 1.0 && 1 <= p - N {
        BackwardFilter(co.a, x, p, N, |co.a| - 1, x[p - N - 1 .. p - N - 1 + |co.a|]);
      }
    }
    r
  }

  /** The forward sum is the forward error filter without its a[0]·x[p] tap. */
  lemma {:induction false} ForwardFilter(a: seq<real>, x: seq<real>, p: int, n: nat, h: seq<real>)
    requires n < |a| && n < |h| && 0 <= p - n && p < |x|
    requires forall j :: 0 <= j <= n ==> h[j] == x[p - j]
    ensures Dot(a, h, n + 1) == a[0] * x[p] + ForwardSum(a, x, p, n)
  {
    if n > 0 {
      ForwardFilter(a, x, p, n - 1, h);
    }
  }

  /** The backward sum is the backward error filter without its
      a[0]·x[p−N−1] tap. */
  lemma {:induction false} BackwardFilter(a: seq<real>, x: seq<real>, p: int, N: int, n: nat, h: seq<real>)
    requires n < |a| && n < |h| && 1 <= p - N && p - N - 1 + n < |x|
    requires forall j :: 0 <= j <= n ==> h[j] == x[p - N - 1 + j]
    ensures Dot(a, h, n + 1) == a[0] * x[p - N - 1] + BackwardSum(a, x, p, N, n)
  {
    if n > 0 {
      BackwardFilter(a, x, p, N, n - 1, h);
    }
  }
}
