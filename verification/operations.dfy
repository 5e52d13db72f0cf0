/** The arithmetic backend `IOperations<T>` of the generic engine
    (FastBurgAlgorithmLibrary/Operations.cs).

    Over exact reals the double and the decimal backend perform the same field
    operations; they differ only in the value of `AlmostZero`. */
module Operations {
  import opened Results

  /** The `TypeCode` of the generic engine's type argument `T`. */
  datatype TypeCode = Double | Decimal | Other(name: string)

  /** The two backends `Operations<T>.Create` can hand out. */
  datatype Backend = DoubleOperations | DecimalOperations

  /** The type code a backend is selected for. */
  function TypeCodeOf(b: Backend): TypeCode
  {
    match b
    case DoubleOperations => Double
    case DecimalOperations => Decimal
  }

  /** `Operations<T>.Create`: dispatch on the type code; any other type is
      refused with `NotSupportedException`. */
  function Create(t: TypeCode): (r: Result<Backend>)
    ensures r.Ok? <==> !t.Other?
    ensures r.Ok? ==> TypeCodeOf(r.value) == t
    ensures t.Other? ==> r == Err(NotSupported(t.name))
  {
    match t
    case Double => Ok(DoubleOperations)
    case Decimal => Ok(DecimalOperations)
    case Other(name) => Err(NotSupported(name))
  }

  /** Whether `Divide` by zero raises: decimal division throws
      `DivideByZeroException`, double division yields NaN or ±∞ and goes on. */
  predicate DivisionThrows(b: Backend)
  {
    b.DecimalOperations?
  }

  /** Every backend is the one `Create` selects for its own type code. */
  lemma CreateRoundTrip(b: Backend)
    ensures Create(TypeCodeOf(b)) == Ok(b)
  {
  }

  /** 2^1074: `double.Epsilon`, the least positive double, is its reciprocal. */
  const TwoPow1074: nat := 202402253307310618352495346718917307049556649764142118356901358027430339567995346891960383701437124495187077864316811911389808737385793476867013399940738509921517424276566361364466907742093216341239767678472745068562007483424692698618103355649159556340810056512358769552333414615230502532186327508646006263307707741093494784

  /** `double.Epsilon` = 2^-1074. */
  const DoubleEpsilon: real := 1.0 / (TwoPow1074 as real)

  /** The decimal literal 0.000000000000000000000000001M = 10^-27. */
  const DecimalAlmostZero: real := 0.000000000000000000000000001

  /** `AlmostZero()`: the seed of the reflection-coefficient denominator. */
  function AlmostZero(b: Backend): (eps: real)
    ensures 0.0 < eps
    ensures eps <= DecimalAlmostZero
  {
    match b
    case DoubleOperations => DoubleEpsilon
    case DecimalOperations => DecimalAlmostZero
  }

  function Add(x: real, y: real): (r: real)
    ensures Subtract(r, y) == x
  {
    x + y
  }

  function Subtract(x: real, y: real): (r: real)
    ensures r + y == x
  {
    x - y
  }

  function Multiply(x: real, y: real): (r: real)
    ensures y != 0.0 ==> Divide(r, y) == Ok(x)
  {
    assert y != 0.0 ==> (x * y) / y == x;
    x * y
  }

  /** `Divide(a, b)`: a zero divisor is an error (decimal division by zero
      throws; double division by zero leaves the reals). */
  function Divide(x: real, y: real): (r: Result<real>)
    ensures r.Ok? <==> y != 0.0
    ensures r.Ok? ==> r.value * y == x
    ensures r.Err? ==> r == Err(DivideByZero)
  {
    if y == 0.0 then Err(DivideByZero) else Ok(x / y)
  }

  /** `Math.Abs`: non-negative, and its square is the square of its argument,
      which is what the squared endpoint terms of g[0] rely on. */
  function Abs(x: real): (r: real)
    ensures 0.0 <= r
    ensures r == x || r == -x
    ensures r * r == x * x
  {
    if x < 0.0 then -x else x
  }
}
