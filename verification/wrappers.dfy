/** Optional values: the model's rendering of a TypeScript `field?: T` or of
    a value that may be `undefined`. */
module Wrappers {

  datatype Option<+T> = None | Some(value: T) {

    /** Lets `:-` propagate an absent value. */
    predicate IsFailure()
    {
      None?
    }

    function PropagateFailure<U>(): Option<U>
      requires None?
    {
      None
    }

    function Extract(): T
      requires Some?
    {
      value
    }

    /** The value, or `default` when absent (the source's `x || default`
        where only absence is falsy). */
    function GetOr(default: T): T
    {
      match this
      case Some(v) => v
      case None => default
    }

    /** A shallow-merge step: `patch` wins when it is present. */
    function Or(fallback: Option<T>): Option<T>
    {
      if Some? then this else fallback
    }
  }
}
