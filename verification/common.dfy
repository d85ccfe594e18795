/**
 * Failure-aware wrappers shared by every module of the model.
 *
 * `Option` stands for a Ruby value that may be `nil`; `Result` stands for an
 * operation that may raise instead of returning.
 */
module Common {

  /** A value that may be absent (Ruby `nil`). */
  datatype Option<+T> = None | Some(value: T) {

    /** Ruby's `x || d` on a possibly-nil `x`. */
    function GetOr(d: T): T {
      match this
      case Some(v) => v
      case None => d
    }

    /** Ruby's `x || y` on two possibly-nil values. */
    function Or(other: Option<T>): Option<T> {
      if Some? then this else other
    }
  }

  /** The outcome of an operation that may raise. */
  datatype Result<+T, +E> = Ok(value: T) | Err(error: E) {

    predicate IsFailure() {
      Err?
    }

    function PropagateFailure<U>(): Result<U, E>
      requires Err?
    {
      Err(error)
    }

    function Extract(): T
      requires Ok?
    {
      value
    }
  }

  /** Regrouping a concatenation of three sequences. */
  lemma ConcatAssoc<T>(x: seq<T>, y: seq<T>, z: seq<T>)
    ensures (x + y) + z == x + (y + z)
  {
  }

  /** The two halves of a concatenation are recovered by slicing at the seam. */
  lemma SliceAtSeam<T>(x: seq<T>, y: seq<T>)
    ensures (x + y)[..|x|] == x && (x + y)[|x|..] == y
  {
  }
}
