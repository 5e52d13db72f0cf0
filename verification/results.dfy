/** Failure outcomes of the Fast Burg estimator.

    The C# classes report failures by throwing; the model returns them as the
    `Err` arm of `Result`, so that an operation either yields its value or the
    exception the source would raise at that point. */
module Results {

  /** The exceptions the estimator can raise. */
  datatype Error =
    | NotSupported(typeName: string)  // Operations<T>.Create for a T that is neither double nor decimal
    | Overflow                        // an array allocated with a negative length
    | IndexOutOfRange                 // an index outside the signal or a working vector
    | DivideByZero                    // a reflection-coefficient denominator that is exactly zero

  /** A value, or the error that stopped its computation; usable with `:-`. */
  datatype Result<+T> = Ok(value: T) | Err(error: Error) {

    predicate IsFailure() {
      Err?
    }

    function PropagateFailure<U>(): Result<U>
      requires Err?
    {
      Err(error)
    }

    function Extract(): T
      requires Ok?
    {
      value
    }
  }
}
