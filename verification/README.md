# Fast Burg linear prediction — a Dafny model

FastBurgAlgorithmLibrary estimates linear-prediction coefficients with Koen
Vos's fast variant of Burg's method ("A Fast Implementation of Burg's
Method"). `Train(position, coefficientsNumber, historyLengthSamples)` estimates
from the window of the `N = historyLengthSamples` samples just before
`p = position`. When `m > N` it also reads samples outside that window, since
nothing rejects such an order. It computes `m = coefficientsNumber`
reflection coefficients `k` and the monic prediction polynomial `a[0..m]`.
It uses the autocorrelation `c[0..m]` and the auxiliary vectors `g`, `r` and `deltaRAndAProduct`. The two
predictions built from the result are:

- the forward prediction `−Σ a[j]·x[p−j]`, an estimate of `x[p]`;
- the backward prediction `−Σ a[j]·x[p−N−1+j]`, an estimate of `x[p−N−1]`.

The library ships three copies of this recursion:

- the generic `FastBurgAlgorithm<T>`, which works through an `IOperations<T>` backend (double or decimal);
- `FastBurgAlgorithm64` on double;
- `FastBurgAlgorithm128` on decimal.

They differ in three ways:

- the seed of the reflection-coefficient denominator: `AlmostZero()`, 0, or 10^-27;
- the length of `k`: m in the generic class, m+1 in the other two;
- whether backward prediction exists: only the generic class has it.

The model has one engine, `BurgEngine.Train`, which takes an `Engine` value
that selects among these three variants. Samples are exact reals.

Modules:

- `Results`: errors and the `Result` type.
- `Operations`: the backend factory and its arithmetic.
- `Vectors`: inner products and the `J` index flip.
- `Autocorrelation`: the lagged sums `c[j]`.
- `BurgSteps`: each step of one iteration as a pure function. Each C# step
  clones a vector and then overwrites it in place; here that is a single
  simultaneous update.
- `BurgEngine`: allocation, initialisation, the iteration, and the predictions.
- `BurgLoops`: the C# loops themselves, with their clones and index flips. Each
  loop is proved equal to its `BurgSteps`/`BurgEngine` counterpart.
- `BurgProperties`: laws about whole `Train` runs.

Failures are values, not exceptions:

- `Overflow`: a negative array length.
- `IndexOutOfRange`: a read outside `c`, `x` or the other arrays.
- `DivideByZero`: a reflection-coefficient denominator that is exactly 0.

The two element types meet a zero denominator differently, and the model
keeps the difference (`BurgEngine.ZeroDivisionThrows`):

- Decimal throws `DivideByZeroException`. The decimal class and the generic
  class over decimal stop at that iteration. An index error that the C# code
  would meet only in a later iteration never happens.
- Double yields NaN or ±∞ and keeps going. The double class and the generic
  class over double carry on through the remaining iterations, still reading
  the signal. An out-of-range read in a later iteration still throws
  `IndexOutOfRange`. If training reaches counter m without one, the result is
  `DivideByZero`, which stands for "the coefficients contain NaN or ∞". The
  carried coefficient is 0 in place of NaN. Only the failure and its kind
  are observable, so that choice does not matter.

## Model

| member | source | states |
|---|---|---|
| Operations.Create | FastBurgAlgorithmLibrary/Operations.cs:19-32 | Double and Decimal get a backend whose type code is the one requested; every other type fails with NotSupported carrying the type's name |
| Operations.CreateRoundTrip | FastBurgAlgorithmLibrary/Operations.cs:19-32 | Creating a backend from its own type code gives that backend back |
| Operations.AlmostZero | FastBurgAlgorithmLibrary/Operations.cs:41-51 | The seed is strictly positive and at most 10^-27. For double it is double.Epsilon = 2^-1074; for decimal it is 10^-27 |
| Operations.Add | FastBurgAlgorithmLibrary/Operations.cs:36 | Subtracting the second operand from the sum gives the first back |
| Operations.Subtract | FastBurgAlgorithmLibrary/Operations.cs:37 | Adding the subtrahend back to the difference gives the minuend |
| Operations.Multiply | FastBurgAlgorithmLibrary/Operations.cs:38 | Dividing the product by a non-zero factor gives the other factor back |
| Operations.Divide | FastBurgAlgorithmLibrary/Operations.cs:39 | Succeeds exactly when the divisor is non-zero. The quotient times the divisor is the dividend; a zero divisor is DivideByZero |
| Operations.Abs | FastBurgAlgorithmLibrary/Operations.cs:40 | The result is non-negative, equals x or −x, and squares to x² |
| Vectors.JinversOrder | FastBurgAlgorithmLibrary/FastBurgAlgorithm.cs:328-331 | The flipped index max − index stays within 0..max |
| Vectors.JinversOrderInvolution | FastBurgAlgorithmLibrary/FastBurgAlgorithm.cs:328-331 | Flipping an index twice gives it back |
| Vectors.DotOfZeroProducts | FastBurgAlgorithmLibrary/FastBurgAlgorithm.cs:299-311 | An inner product whose every term has a zero factor is zero |
| Autocorrelation.Autocorrelations | FastBurgAlgorithmLibrary/FastBurgAlgorithm.cs:369-383 | There are m+1 lags. c[0], a sum of squares, is never negative. Every lag j ≥ N is 0, because its loop over the window has no iterations |
| Autocorrelation.EnergyNonNegative | FastBurgAlgorithmLibrary/FastBurgAlgorithm.cs:369-383 | The lag-0 sum Σ x[t]·x[t] over any range is non-negative |
| Autocorrelation.LagSumOfZeroWindow | FastBurgAlgorithmLibrary/FastBurgAlgorithm.cs:369-383 | A lagged sum that stays inside an all-zero window is zero |
| Autocorrelation.LagSumAgree | FastBurgAlgorithmLibrary/FastBurgAlgorithm.cs:369-383 | Two signals equal on the window have equal lagged sums |
| Autocorrelation.ZeroWindowAutocorrelations | FastBurgAlgorithmLibrary/FastBurgAlgorithm.cs:369-383 | An all-zero window has zero autocorrelation at every lag 0..m |
| Autocorrelation.AutocorrelationsAgree | FastBurgAlgorithmLibrary/FastBurgAlgorithm.cs:369-383 | The autocorrelations c[0..m] depend only on the window's samples |
| BurgSteps.Initialization | FastBurgAlgorithmLibrary/FastBurgAlgorithm.cs:338-362 | Sets a = [1, 0, …] and g[0] = 2c[0] − \|x[p−N]\|² − \|x[p−1]\|². Sets g[1] = 2c[1] and r[0] = 2c[1]. Every other entry is zero, and the counter is 0 |
| BurgSteps.ReflectionCoef | FastBurgAlgorithmLibrary/FastBurgAlgorithm.cs:294-318 | Succeeds exactly when eps + ⟨a, g⟩ over 0..i+1 is non-zero. Then k·(eps + ⟨a,g⟩) = −⟨a, J·g⟩; otherwise the result is DivideByZero |
| BurgSteps.UpdatePredictionCoefs | FastBurgAlgorithmLibrary/FastBurgAlgorithm.cs:278-288 | Entries past i+1 are unchanged. A monic a that is zero at i+1 stays monic, and its new a[i+1] is the reflection coefficient |
| BurgSteps.UpdateR | FastBurgAlgorithmLibrary/FastBurgAlgorithm.cs:254-272 | r[0] becomes 2·c[i+1]; entries past i are unchanged |
| BurgSteps.DeltaRRowFactors | FastBurgAlgorithmLibrary/FastBurgAlgorithm.cs:209-248 | Row `row` of the matrix product −(u·uᵀ + v·vᵀ)·a equals 0 − u[row]·⟨u,a⟩ − v[row]·⟨v,a⟩, which is the two-pass form the code computes |
| BurgSteps.DeltaEntry | FastBurgAlgorithmLibrary/FastBurgAlgorithm.cs:235-246 | The code's entry, built from the two inner products, is row `row` of −(u·uᵀ + v·vᵀ)·a |
| BurgSteps.DeltaRAndA | FastBurgAlgorithmLibrary/FastBurgAlgorithm.cs:209-248 | Rows 0..i are rows of the matrix product −(u·uᵀ + v·vᵀ)·a; later rows are unchanged |
| BurgSteps.UpdateG | FastBurgAlgorithmLibrary/FastBurgAlgorithm.cs:181-203 | g[i+1] grows by ⟨r, a⟩ over 0..i, and equals ⟨r, a⟩ if it was zero. Entries past i+1 are unchanged |
| BurgSteps.Step | FastBurgAlgorithmLibrary/FastBurgAlgorithm.cs:79-83 | Steps 2–3 with a given reflection coefficient keep the coefficient invariant: a stays monic, a[i] = k[i−1], and a and k are zero past the counter. The counter grows by one, k[i] becomes the coefficient, no other k changes, and g, r and deltaR are untouched |
| BurgSteps.Refresh | FastBurgAlgorithmLibrary/FastBurgAlgorithm.cs:87-91 | Steps 5–7 restore the loop-head invariant with the same counter. a and k are untouched, and g[i+1] = ⟨r, a⟩ |
| BurgEngine.KLength | FastBurgAlgorithmLibrary/FastBurgAlgorithm.cs:104 | k has m entries in the generic class and m+1 in the double and decimal classes (FastBurgAlgorithm64.cs:63); no class gives it any other length |
| BurgEngine.NewGeneric | FastBurgAlgorithmLibrary/FastBurgAlgorithm.cs:39-46 | The generic class can be built for double and decimal, with the matching backend; any other element type fails with NotSupported |
| BurgEngine.Epsilon | FastBurgAlgorithmLibrary/FastBurgAlgorithm128.cs:232-245 | The denominator seed is non-negative, and zero exactly for the double class (FastBurgAlgorithm64.cs:224-237). The decimal class uses the decimal backend's AlmostZero |
| BurgEngine.Iterate | FastBurgAlgorithmLibrary/FastBurgAlgorithm.cs:77-92 | On success the counter is m, the coefficient invariant holds, earlier reflection coefficients are kept, and no zero denominator was met. IndexOutOfRange implies that a later counter's window reads leave the signal. For double, which does not stop at a zero denominator, such reads always end in IndexOutOfRange. The only other failure is DivideByZero |
| BurgEngine.Train | FastBurgAlgorithmLibrary/FastBurgAlgorithm.cs:64-106 | Overflow happens exactly when an array length is negative. Success implies TrainInBounds, and TrainInBounds rules out every failure except DivideByZero. For the double engines, which do not stop at a zero denominator, IndexOutOfRange happens exactly when the lengths are non-negative and TrainInBounds fails. On success \|a\| = m+1, \|k\| is the class's length, a[0] = 1, a[m] = k[m−1], k is zero from m on, and both predictions are in bounds |
| BurgEngine.ForwardPrediction | FastBurgAlgorithmLibrary/FastBurgAlgorithm.cs:113-128 | For a monic a, x[p] minus the prediction is the output Σ_{j=0}^{m} a[j]·x[p−j] of the forward prediction-error filter at p |
| BurgEngine.BackwardPrediction | FastBurgAlgorithmLibrary/FastBurgAlgorithm.cs:135-151 | For a monic a, x[p−N−1] minus the prediction is the output Σ_{j=0}^{m} a[j]·x[p−N−1+j] of the backward prediction-error filter at p−N−1 |
| BurgEngine.ForwardFilter | FastBurgAlgorithmLibrary/FastBurgAlgorithm.cs:113-128 | The prediction's loop sum is the forward error filter without its a[0]·x[p] tap |
| BurgEngine.BackwardFilter | FastBurgAlgorithmLibrary/FastBurgAlgorithm.cs:135-151 | The prediction's loop sum is the backward error filter without its a[0]·x[p−N−1] tap |
| BurgLoops.FindAutocorrelations | FastBurgAlgorithmLibrary/FastBurgAlgorithm.cs:369-383 | The nested loops give c[j] = Σ_{t=p−N}^{p−1−j} x[t]·x[t+j] for every lag j ≤ m |
| BurgLoops.ComputeReflectionCoef | FastBurgAlgorithmLibrary/FastBurgAlgorithm.cs:294-318 | The loop that accumulates numerator and denominator yields the reflection coefficient of step 1 |
| BurgLoops.UpdatePredictionCoefs | FastBurgAlgorithmLibrary/FastBurgAlgorithm.cs:278-288 | Writing in place while reading the clone gives a[j] + k·a[i+1−j] for j ≤ i+1 and keeps the rest |
| BurgLoops.UpdateR | FastBurgAlgorithmLibrary/FastBurgAlgorithm.cs:254-272 | The in-place shift gives r'[j+1] = r[j] − x[p−N+j]·x[p−N+i] − x[p−1−j]·x[p−1−i] for j < i, which is step 5 |
| BurgLoops.InnerProducts | FastBurgAlgorithmLibrary/FastBurgAlgorithm.cs:214-232 | The inner loop gives the two inner products of a with the window's head read backwards and with its tail |
| BurgLoops.ComputeDeltaRMultByA | FastBurgAlgorithmLibrary/FastBurgAlgorithm.cs:209-248 | The nested loops, which recompute both inner products for every row, give step 6: rows 0..i of −(u·uᵀ + v·vᵀ)·a, with later rows kept |
| BurgLoops.UpdateG | FastBurgAlgorithmLibrary/FastBurgAlgorithm.cs:181-203 | The two loops give g[j] + k[i−1]·g[i−j] + deltaR[j] for j ≤ i and then add ⟨r, a⟩ to g[i+1], which is step 7 |
| BurgLoops.GetForwardPrediction | FastBurgAlgorithmLibrary/FastBurgAlgorithm.cs:113-128 | The loop computes −Σ_{j=1}^{m} a[j]·x[p−j] |
| BurgLoops.GetBackwardPrediction | FastBurgAlgorithmLibrary/FastBurgAlgorithm.cs:135-151 | The loop computes −Σ_{j=1}^{m} a[j]·x[p−N−1+j] |
| BurgLoops.Advance | FastBurgAlgorithmLibrary/FastBurgAlgorithm.cs:81-83 | UpdatePredictionCoefs, the write of k[i] and the counter increment give the functional step |
| BurgLoops.Refresh | FastBurgAlgorithmLibrary/FastBurgAlgorithm.cs:87-91 | UpdateR, ComputeDeltaRMultByA and UpdateG, run in that order on the arrays, give steps 5–7 of the functional model |
| BurgLoops.Iterations | FastBurgAlgorithmLibrary/FastBurgAlgorithm.cs:77-92 | The while loop, with its early return at counter m, computes the recursion's result |
| BurgLoops.Train | FastBurgAlgorithmLibrary/FastBurgAlgorithm.cs:64-93 | The imperative Train (allocate, autocorrelate, initialise, loop) gives the same result as the functional engine, for every engine and every input |
| BurgProperties.SafeDomain | FastBurgAlgorithmLibrary/FastBurgAlgorithm.cs:51-63 | A simple sufficient domain: with 1 ≤ m ≤ N ≤ p ≤ \|x\|, no read leaves an array, so Train succeeds or hits a zero denominator. The only documented rule is that position must be greater than historyLengthSamples (lines 51-54); the order bounds are this model's choice |
| BurgProperties.OrderZeroFails | FastBurgAlgorithmLibrary/FastBurgAlgorithm.cs:338-362 | Order 0 always fails with IndexOutOfRange, because Initialization reads c[1] |
| BurgProperties.ZeroRefresh | FastBurgAlgorithmLibrary/FastBurgAlgorithm.cs:87-91 | Steps 5–7 on an all-zero window keep every working vector zero |
| BurgProperties.ZeroAdvance | FastBurgAlgorithmLibrary/FastBurgAlgorithm.cs:79-83 | With a non-zero seed and zero vectors, steps 1–3 succeed with reflection coefficient 0 and leave the vectors zero |
| BurgProperties.ZeroIterate | FastBurgAlgorithmLibrary/FastBurgAlgorithm.cs:77-92 | With a non-zero seed the whole iteration on an all-zero window succeeds and leaves only a[0] = 1 |
| BurgProperties.ForwardSumOfMonic | FastBurgAlgorithmLibrary/FastBurgAlgorithm.cs:113-128 | The forward sum vanishes when a[1..n] is zero |
| BurgProperties.BackwardSumOfMonic | FastBurgAlgorithmLibrary/FastBurgAlgorithm.cs:135-151 | The backward sum vanishes when a[1..n] is zero |
| BurgProperties.ZeroInitialization | FastBurgAlgorithmLibrary/FastBurgAlgorithm.cs:338-362 | On an all-zero window Initialization leaves only a[0] = 1 non-zero |
| BurgProperties.ZeroWindowCoefficients | FastBurgAlgorithmLibraryUnitTests/FastBurgAlgorithm128UnitTests.cs:40-66 | For the generic and decimal classes an all-zero window trains successfully: every reflection coefficient is 0 and a = [1, 0, …, 0] |
| BurgProperties.ZeroWindowLaw | FastBurgAlgorithmLibraryUnitTests/FastBurgAlgorithm128UnitTests.cs:40-66 | For the generic and decimal classes, on an all-zero window, Train succeeds, every k is 0, and both predictions are 0 |
| BurgProperties.ZeroWindowUnguarded | FastBurgAlgorithmLibrary/FastBurgAlgorithm64.cs:224-237 | The double class, whose denominator starts at 0, divides 0 by 0 on an all-zero window |
| BurgProperties.RefreshAgree | FastBurgAlgorithmLibrary/FastBurgAlgorithm.cs:87-91 | While the counter is below N, steps 5–7 give the same state for any two signals equal on the window |
| BurgProperties.UpdateRAgree | FastBurgAlgorithmLibrary/FastBurgAlgorithm.cs:254-272 | Step 5 reads only window samples |
| BurgProperties.DeltaRAndAAgree | FastBurgAlgorithmLibrary/FastBurgAlgorithm.cs:209-248 | Step 6 reads only window samples |
| BurgProperties.InitializationAgree | FastBurgAlgorithmLibrary/FastBurgAlgorithm.cs:338-362 | Initialization reads only the window's first and last samples |
| BurgProperties.IterateAgree | FastBurgAlgorithmLibrary/FastBurgAlgorithm.cs:77-92 | With m ≤ N, the whole iteration gives the same result for any two signals equal on the window |
| BurgProperties.ForwardSumAgree | FastBurgAlgorithmLibrary/FastBurgAlgorithm.cs:113-128 | The forward sum of order n ≤ N reads only window samples |
| BurgProperties.BackwardSumAgree | FastBurgAlgorithmLibrary/FastBurgAlgorithm.cs:135-151 | The backward sum of order n ≤ N reads only window samples |
| BurgProperties.TrainAgree | FastBurgAlgorithmLibrary/FastBurgAlgorithm.cs:64-93 | With m ≤ N, Train's outcome (coefficients or error) is the same for any two equal-length signals that agree on the window |
| BurgProperties.PredictionsAgree | FastBurgAlgorithmLibrary/FastBurgAlgorithm.cs:113-151 | Forward and backward predictions of order ≤ N read only window samples |
| BurgProperties.WindowLocality | FastBurgAlgorithmLibrary/FastBurgAlgorithm.cs:64-151 | Each Train call starts from freshly allocated vectors. So with m ≤ N, for two equal-length signals that agree on the window x[p−N..p−1], Train gives the same outcome and both predictions from it are equal. With m > N the code also reads samples outside the window, x[p] among them (FastBurgAlgorithm.cs:264-267) |

## Left out

- Floating-point rounding: samples and arithmetic are exact reals, so the
  accuracy tests against Octave reference coefficients are not modelled.
  A double NaN/∞ from a zero denominator is reported as the DivideByZero
  failure once training ends; an IndexOutOfRange met on the way comes
  first. Which entries become NaN is not modelled.
- Decimal range and precision: decimal overflow (OverflowException) and
  its 28-digit rounding are not modelled.
- The casts of the double input through `Convert.ChangeType` and to
  `decimal`, and the casts back to double in the predictions, are identity
  maps.
- 32-bit integer arithmetic: `m + 1` and the index sums are unbounded
  integers. Only the negative array length (`OverflowException`) is
  modelled; int wrap-around at 2^31 and out-of-memory are not.
- Object state: the fields that persist between calls are not modelled. A
  prediction is a function of the coefficients that `Train` returns. Calling
  a predictor before `Train`, or after a failed `Train`, gives a
  NullReference or stale result in the C# code, and is not modelled.
- `GetPredictionCoefs` and `GetReflectionCoefs` return fresh `.Clone()`
  copies of the arrays (FastBurgAlgorithm.cs:160,172, FastBurgAlgorithm64.cs:110,122,
  FastBurgAlgorithm128.cs:125,137). The value-typed `Coefficients` models
  such a copy exactly, so there is no getter member.
- Operations.Add, Operations.Subtract and Operations.Multiply document the
  backend only. Nothing else in the model calls them: the engine writes
  +, − and · on reals directly, which are the same functions. Division goes
  through `Operations.Divide`, because its zero case is a failure.
- BurgEngine.NewGeneric: models only the `Operations<T>.Default` lookup. In
  the constructor, each sample is first converted with `Convert.ChangeType`
  (FastBurgAlgorithm.cs:41-44). On a non-empty signal that conversion throws
  InvalidCastException for types such as char or DateTime, and
  OverflowException for byte with a negative sample. So NotSupported is
  reached only when every conversion succeeds: for any element type on an
  empty signal, and for the numeric types whose range holds the samples.
- The classes FastBurgPrediction.cs, FastBurgPredictionCalculator.cs, Data.cs,
  Data64.cs and Data128.cs, and the console program ConsoleApp1, are not
  part of this model.
- Optimality of the estimate is not proved: neither the minimal prediction
  error of Burg's method nor the sign of the denominator (|k| ≤ 1).
- BurgProperties.ZeroWindowLaw: states the zero-signal law for the generic
  and decimal classes only. For the double class the law fails (see
  Findings).
- Train does not reject m = N. With 1 ≤ m = N ≤ p ≤ \|x\| every read is in
  bounds (FastBurgAlgorithm.cs:64-93), and the model follows the code.
- Initialization sets `r[0] = 2·c[1]`, as the code does.

## Findings

| source | as written | input that shows it | evidently intended | confidence | as-written member | corrected member |
|---|---|---|---|---|---|---|
| FastBurgAlgorithmLibrary/FastBurgAlgorithm64.cs:224-237 | The double class starts the reflection-coefficient denominator at 0. On an all-zero window the first coefficient is −0/0 = NaN, and so is the forward prediction | x = 522 zeros, p = 512, m = 4, N = 512 (FastBurgAlgorithmLibraryUnitTests/FastBurgAlgorithm64UnitTests.cs:119-149 expects prediction 0) | Seed the denominator with a tiny positive value, as the generic class does with AlmostZero() and the decimal class does with 10^-27 (FastBurgAlgorithm128.cs:235). Then every coefficient is 0 and both predictions are 0 | high; not executed | BurgProperties.ZeroWindowUnguarded | BurgProperties.ZeroWindowLaw |
