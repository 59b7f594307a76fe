/** Failure-compatible result of a calculation in the hedge calculator.
    Python raises ZeroDivisionError where the model returns `Err`. */
module Outcomes {

  /** Why a calculation has no value. */
  datatype CalcError =
    | ZeroOdds    // american_to_decimal was handed 0 and divides by abs(0)
    | ZeroStake   // the conversion rate divides by a promo amount of 0

  datatype Result<+T> = Ok(value: T) | Err(error: CalcError) {

    predicate IsFailure() {
      Err?
    }

    function PropagateFailure<U>(): Result<U>
      requires Err?
    {
      Err(error)
    }

    function Extract(): T
      requires Ok?
    {
      value
    }
  }
}
