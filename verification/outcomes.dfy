/** Optional values and the outcome of a translation step. */
module Outcomes {

  datatype Option<+T> = None | Some(value: T) {
    function GetOr(default: T): T {
      match this
      case Some(v) => v
      case None => default
    }
  }

  /**
   * What a step of the parser can end in: a value, the parser's one exception
   * (MalformedCssExpressionException, carrying its message), or a loop that never
   * ends (the scanner's cursor stops moving while characters remain).
   * Failure-compatible, so `:-` propagates the first failure, as a PHP throw does.
   */
  datatype Outcome<+T> = Ok(value: T) | Malformed(message: string) | Diverges {

    predicate IsFailure() {
      !Ok?
    }

    function PropagateFailure<U>(): Outcome<U>
      requires !Ok?
    {
      if Malformed? then Malformed(message) else Diverges
    }

    function Extract(): T
      requires Ok?
    {
      value
    }
  }

  /**
   * Two steps run one after the other with their results concatenated; the
   * first failure is the result, as with a thrown exception.
   */
  function Chain<T>(x: Outcome<seq<T>>, y: Outcome<seq<T>>): Outcome<seq<T>> {
    if !x.Ok? then x
    else if !y.Ok? then y
    else Ok(x.value + y.value)
  }
}
