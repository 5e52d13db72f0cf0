/** One step of the Fast Burg recursion at a time (steps 0–7 on page 3 of
    Vos, "A Fast Implementation of Burg's Method"), as pure functions over
    exact reals.

    Each C# step clones a working vector, then overwrites it entry by entry
    while reading only the clone. Here each step is the simultaneous update it
    amounts to: a new sequence computed from the previous one. The loops that
    build it in place are in module BurgLoops. */
module BurgSteps {
  import opened Results
  import opened Vectors
  import Operations

  /** The working vectors of one Train call and its iteration counter. */
  datatype BurgState = BurgState(
    i: nat,            // iteration counter
    a: seq<real>,      // prediction coefficients a[0..m]
    g: seq<real>,      // auxiliary vector g[0..m+1]
    r: seq<real>,      // auxiliary vector r[0..m]
    k: seq<real>,      // reflection coefficients (m or m+1 of them)
    delta: seq<real>   // deltaRAndAProduct[0..m]
  )

  /** The allocation sizes of CreateInternalVariables. */
  predicate Sized(s: BurgState, m: nat, kLen: nat)
  {
    |s.a| == m + 1 && |s.g| == m + 2 && |s.r| == m + 1 && |s.k| == kLen && |s.delta| == m + 1
  }

  /** The invariant at the head of iteration s.i: a is monic and zero past
      s.i, g is zero past s.i+1, r past s.i, and k from s.i on. */
  predicate Shaped(s: BurgState, m: nat, kLen: nat)
  {
    && Sized(s, m, kLen)
    && s.i < m <= kLen
    && s.a[0] == 1.0
    && (forall j :: s.i < j <= m ==> s.a[j] == 0.0)
    && (forall j :: s.i + 1 < j <= m + 1 ==> s.g[j] == 0.0)
    && (forall j :: s.i < j <= m ==> s.r[j] == 0.0)
    && (forall j :: s.i <= j < kLen ==> s.k[j] == 0.0)
  }

  /** The invariant just after the counter was incremented to s.i: the newest
      coefficient a[s.i] is the newest reflection coefficient k[s.i−1]. */
  predicate Advanced(s: BurgState, m: nat, kLen: nat)
  {
    && Sized(s, m, kLen)
    && 1 <= s.i <= m <= kLen
    && s.a[0] == 1.0
    && s.a[s.i] == s.k[s.i - 1]
    && (forall j :: s.i < j <= m ==> s.a[j] == 0.0)
    && (forall j :: s.i < j <= m + 1 ==> s.g[j] == 0.0)
    && (forall j :: s.i <= j <= m ==> s.r[j] == 0.0)
    && (forall j :: s.i <= j < kLen ==> s.k[j] == 0.0)
  }

  /** Step 0 (`Initialization`, after the autocorrelations c): a = [1, 0, …],
      g = [2c0 − |x[p−N]|² − |x[p−1]|², 2c1, 0, …], r = [2c1, 0, …], and k
      and deltaRAndAProduct all zero as allocated. */
  function Initialization(x: seq<real>, p: int, N: int, m: nat, c: seq<real>, kLen: nat): (s: BurgState)
    requires 1 <= m <= kLen && |c| == m + 1
    requires 0 <= p - N < |x| && 0 <= p - 1 < |x|
    ensures Shaped(s, m, kLen) && s.i == 0
    ensures s.g[0] == 2.0 * c[0] - x[p - N] * x[p - N] - x[p - 1] * x[p - 1]
    ensures s.g[1] == 2.0 * c[1] && s.r[0] == 2.0 * c[1]
    ensures forall j :: 0 <= j <= m ==> s.delta[j] == 0.0
  {
    var first := Operations.Abs(x[p - N]);
    var last := Operations.Abs(x[p - 1]);
    BurgState(
      0,
      [1.0] + Zeros(m),
      [2.0 * c[0] - first * first - last * last, 2.0 * c[1]] + Zeros(m),
      [2.0 * c[1]] + Zeros(m),
      Zeros(kLen),
      Zeros(m + 1))
  }

  /** Step 1 (`ComputeReflectionCoef`) at counter i: k = −num/den with
      num = Σ_{j=0}^{i+1} a[j]·g[i+1−j] and den = eps + Σ_{j=0}^{i+1} a[j]·g[j].
      A zero denominator is a failure. */
  function ReflectionCoef(a: seq<real>, g: seq<real>, i: nat, eps: real): (res: Result<real>)
    requires i + 1 < |a| && i + 1 < |g|
    ensures res.Ok? <==> eps + Dot(a, g, i + 2) != 0.0
    ensures res.Ok? ==> res.value * (eps + Dot(a, g, i + 2)) == -Dot(a, Flip(g, i + 1), i + 2)
    ensures res.Err? ==> res.error == DivideByZero
  {
    var nominator := Dot(a, Flip(g, i + 1), i + 2);
    var denominator := eps + Dot(a, g, i + 2);
    Operations.Divide(-nominator, denominator)
  }

  /** Step 2 (`UpdatePredictionCoefs`) at counter i: a[j] + kappa·a[i+1−j]
      for j <= i+1, read from the old a. On a monic a that is zero past i the
      result stays monic and its new last coefficient a[i+1] is kappa. */
  function UpdatePredictionCoefs(a: seq<real>, kappa: real, i: nat): (a': seq<real>)
    requires i + 1 < |a|
    ensures |a'| == |a|
    ensures forall j :: i + 1 < j < |a| ==> a'[j] == a[j]
    ensures a[0] == 1.0 && a[i + 1] == 0.0 ==> a'[0] == 1.0 && a'[i + 1] == kappa
  {
    seq(|a|, j requires 0 <= j < |a| =>
      if j <= i + 1 then a[j] + kappa * a[JinversOrder(j, i + 1)] else a[j])
  }

  /** The signal reads of steps 5 and 6 at counter i stay inside the signal. */
  predicate StepReads(x: seq<real>, p: int, N: int, i: nat)
  {
    0 <= p - N && p - N + i < |x| && 0 <= p - 1 - i && p - 1 < |x|
  }

  /** Step 5 (`UpdateR`) at counter i: r shifts up by one place, each entry
      corrected by the two endpoint products, and r[0] becomes 2·c[i+1]. Only
      r[0..i] change. */
  function UpdateR(r: seq<real>, x: seq<real>, p: int, N: int, c: seq<real>, i: nat): (r': seq<real>)
    requires 1 <= i < |r| && i + 1 < |c|
    requires StepReads(x, p, N, i)
    ensures |r'| == |r|
    ensures r'[0] == 2.0 * c[i + 1]
    ensures forall j :: 0 <= j < i ==>
      r'[j + 1] == r[j] - x[p - N + j] * x[p - N + i] - x[p - 1 - j] * x[p - 1 - i]
    ensures forall j :: i < j < |r| ==> r'[j] == r[j]
  {
    seq(|r|, j requires 0 <= j < |r| =>
      if j == 0 then 2.0 * c[i + 1]
      else if j <= i then r[j - 1] - x[p - N + j - 1] * x[p - N + i] - x[p - 1 - (j - 1)] * x[p - 1 - i]
      else r[j])
  }

  /** u = [x[p−N+i], x[p−N+i−1], …, x[p−N]]: the window's first i+1 samples, reversed. */
  function HeadReversed(x: seq<real>, p: int, N: int, i: nat): (u: seq<real>)
    requires StepReads(x, p, N, i)
    ensures |u| == i + 1
  {
    seq(i + 1, col requires 0 <= col <= i => x[p - N + i - col])
  }

  /** v = [x[p−1−i], …, x[p−1]]: the window's last i+1 samples. */
  function Tail(x: seq<real>, p: int, N: int, i: nat): (v: seq<real>)
    requires StepReads(x, p, N, i)
    ensures |v| == i + 1
  {
    seq(i + 1, col requires 0 <= col <= i => x[p - 1 - i + col])
  }

  /** Row `row` of the product of the deltaR matrix −(u·uᵀ + v·vᵀ) with a,
      summed over its first n columns. */
  function DeltaRRow(u: seq<real>, v: seq<real>, a: seq<real>, row: nat, n: nat): real
    requires row < |u| && row < |v| && n <= |u| && n <= |v| && n <= |a|
  {
    if n == 0 then 0.0
    else DeltaRRow(u, v, a, row, n - 1) - (u[row] * u[n - 1] + v[row] * v[n - 1]) * a[n - 1]
  }

  /** The matrix row factors through the two inner products ⟨u,a⟩ and ⟨v,a⟩,
      which do not depend on the row. */
  lemma {:induction false} DeltaRRowFactors(u: seq<real>, v: seq<real>, a: seq<real>, row: nat, n: nat)
    requires row < |u| && row < |v| && n <= |u| && n <= |v| && n <= |a|
    ensures DeltaRRow(u, v, a, row, n) == 0.0 - u[row] * Dot(u, a, n) - v[row] * Dot(v, a, n)
  {
    if n > 0 {
      DeltaRRowFactors(u, v, a, row, n - 1);
      RowStep(u[row], v[row], Dot(u, a, n - 1), Dot(v, a, n - 1), u[n - 1], v[n - 1], a[n - 1]);
    }
  }

  /** One column of the row sum, regrouped around the two inner products. */
  lemma RowStep(ur: real, vr: real, du: real, dv: real, un: real, vn: real, an: real)
    ensures (0.0 - ur * du - vr * dv) - (ur * un + vr * vn) * an
         == 0.0 - ur * (du + un * an) - vr * (dv + vn * an)
  {
    assert (ur * un + vr * vn) * an == ur * (un * an) + vr * (vn * an);
  }

  /** Row `row` of step 6 as the source forms it: 0 − u[row]·⟨u,a⟩ − v[row]·⟨v,a⟩. */
  function DeltaEntry(x: seq<real>, a: seq<real>, p: int, N: int, i: nat, row: nat): (e: real)
    requires i < |a| && row <= i && StepReads(x, p, N, i)
    ensures e == DeltaRRow(HeadReversed(x, p, N, i), Tail(x, p, N, i), a, row, i + 1)
  {
    var u := HeadReversed(x, p, N, i);
    var v := Tail(x, p, N, i);
    DeltaRRowFactors(u, v, a, row, i + 1);
    0.0 - x[p - N + i - row] * Dot(u, a, i + 1) - x[p - 1 - i + row] * Dot(v, a, i + 1)
  }

  /** Step 6 (`ComputeDeltaRMultByA`) at counter i: rows 0..i of deltaR·a,
      the product of the matrix −(u·uᵀ + v·vᵀ) with a; later rows keep
      their value. */
  function DeltaRAndA(x: seq<real>, a: seq<real>, p: int, N: int, i: nat, delta: seq<real>): (d: seq<real>)
    requires i < |a| && i < |delta| && StepReads(x, p, N, i)
    ensures |d| == |delta|
    ensures forall row :: 0 <= row <= i ==>
      d[row] == DeltaRRow(HeadReversed(x, p, N, i), Tail(x, p, N, i), a, row, i + 1)
    ensures forall row :: i < row < |delta| ==> d[row] == delta[row]
  {
    seq(|delta|, row requires 0 <= row < |delta| =>
      if row <= i then DeltaEntry(x, a, p, N, i, row) else delta[row])
  }

  /** Step 7 (`UpdateG`) at counter i: g[j] + kPrev·g[i−j] + delta[j] for
      j <= i, read from the old g; then g[i+1] accumulates Σ_{j<=i} r[j]·a[j].
      When g[i+1] was still zero it ends up exactly that inner product. */
  function UpdateG(g: seq<real>, kPrev: real, delta: seq<real>, r: seq<real>, a: seq<real>, i: nat): (g': seq<real>)
    requires i + 1 < |g| && i < |delta| && i < |r| && i < |a|
    ensures |g'| == |g|
    ensures g'[i + 1] == g[i + 1] + Dot(r, a, i + 1)
    ensures g[i + 1] == 0.0 ==> g'[i + 1] == Dot(r, a, i + 1)
    ensures forall j :: i + 1 < j < |g| ==> g'[j] == g[j]
  {
    seq(|g|, j requires 0 <= j < |g| =>
      if j <= i then g[j] + kPrev * g[JinversOrder(j, i)] + delta[j]
      else if j == i + 1 then g[i + 1] + Dot(r, a, i + 1)
      else g[j])
  }

  /** Steps 2–3, once step 1 has produced kappa: k[s.i] := kappa, the
      coefficient update and the counter increment. Only a, k and the
      counter change, and the new last coefficient a[s.i+1] is kappa. */
  function Step(s: BurgState, kappa: real, m: nat, kLen: nat): (t: BurgState)
    requires Shaped(s, m, kLen)
    ensures Advanced(t, m, kLen) && t.i == s.i + 1 && t.k[s.i] == kappa
    ensures t.g == s.g && t.r == s.r && t.delta == s.delta
    ensures forall j :: 0 <= j < kLen && j != s.i ==> t.k[j] == s.k[j]
  {
    BurgState(s.i + 1, UpdatePredictionCoefs(s.a, kappa, s.i), s.g, s.r, s.k[s.i := kappa], s.delta)
  }

  /** Steps 5–7 at counter s.i: r, then deltaRAndAProduct from the new a, then
      g from the new r and a. Re-establishes the head-of-iteration invariant,
      with g[s.i+1] = ⟨r, a⟩ over 0..s.i. */
  function Refresh(x: seq<real>, p: int, N: int, c: seq<real>, s: BurgState, m: nat, kLen: nat): (t: BurgState)
    requires Advanced(s, m, kLen) && s.i < m && |c| == m + 1
    requires StepReads(x, p, N, s.i)
    ensures Shaped(t, m, kLen) && t.i == s.i
    ensures t.a == s.a && t.k == s.k
    ensures t.g[t.i + 1] == Dot(t.r, t.a, t.i + 1)
  {
    var r' := UpdateR(s.r, x, p, N, c, s.i);
    var d' := DeltaRAndA(x, s.a, p, N, s.i, s.delta);
    var g' := UpdateG(s.g, s.k[s.i - 1], d', r', s.a, s.i);
    BurgState(s.i, s.a, g', r', s.k, d')
  }
}
