/** How an operation of the engine can fail. The engine itself raises Python
    exceptions or lets numpy fill its arrays with inf/nan; the model reports
    either as an error value. */
module Outcome {

  datatype Error =
    | IndexError      // a Python/numpy index out of range (`args[1]`, `M[0]`)
    | ShapeMismatch   // numpy refuses a product of incompatible shapes
    | ZeroDivision    // Python raises ZeroDivisionError on a float division
    | NonFinite       // numpy divides by zero or takes a negative root: inf/nan

  datatype Result<+T> = Ok(value: T) | Err(error: Error)
}
