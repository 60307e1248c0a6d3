/** Failure-compatible wrappers shared by every compiler in the model.

    The TypeScript and JavaScript sources signal failure by throwing: `node:assert`
    raises an AssertionError, reading a property of `undefined` raises a TypeError
    and `JSON.parse` raises a SyntaxError. The model returns a `Result` instead,
    and `:-` propagates the first failure in evaluation order, as a throw would.
 */
module Wrappers {

  datatype Option<+T> = None | Some(value: T)

  /** Why a compilation was abandoned. */
  datatype Error =
    /** `assert(...)` from `node:assert` failed; the message is the one the source passes. */
    | AssertionFailed(message: string)
    /** A property was read from `undefined` (a missing child), raising a TypeError. */
    | UndefinedNode
    /** `JSON.parse` rejected the text of a block label. */
    | JsonSyntax(text: string)
    /** The re-walk of spliced values went deeper than the given bound. */
    | DepthExceeded

  datatype Result<+T> = Ok(value: T) | Fail(error: Error) {

    predicate IsFailure() {
      Fail?
    }

    function PropagateFailure<U>(): Result<U>
      requires Fail?
    {
      Fail(error)
    }

    function Extract(): T
      requires Ok?
    {
      value
    }
  }
}
