/** Failure-propagating outcomes shared by every decoding step. */
module Results {

  /** A value that may be absent (an optional field of a node). */
  datatype Option<T> = None | Some(value: T)

  /**
   * The outcome of a decoding step. Every thrown `Error` of the parser
   * becomes the single failure `Err`; the message text is not kept.
   */
  datatype Result<T> = Ok(value: T) | Err {
    predicate IsFailure() {
      Err?
    }

    function PropagateFailure<U>(): Result<U>
      requires Err?
    {
      Err
    }

    function Extract(): T
      requires Ok?
    {
      value
    }
  }
}
