/** The failure kinds the account service raises, and the wrappers that carry them. */
module Outcomes {

  /** A value that may be absent (Kotlin's nullable types). */
  datatype Option<+T> = None | Some(value: T) {
    predicate IsFailure() { None? }
    function PropagateFailure<U>(): Option<U> requires None? { None }
    function Extract(): T requires Some? { value }
  }

  /** The exceptions of the core, one constructor per exception class. */
  datatype Failure =
    | NotFound(message: string)          // ResourceNotFoundException
    | AlreadyExists(message: string)     // ResourceAlreadyExistsException
    | BadRequest(message: string)        // BadRequestException
    | AccessDenied(message: string)      // the project's own AccessDeniedException
    | BadCredentials(message: string)    // Spring's BadCredentialsException
    | UsernameNotFound(message: string)  // Spring's UsernameNotFoundException
    | IllegalArgument(message: string)   // raised by PageRequest.of
    | MalformedToken                     // the JWT parser refusing a token it cannot read
    | ExpiredToken                       // the JWT parser refusing a token past its expiration
    | DataIntegrityViolation             // the unique constraint on the username column
    | NullPointer                        // Kotlin's `!!`, or a member access on null
    | ClassCast                          // a failing `as` cast

  /** The outcome of an operation that returns a value or throws. */
  datatype Result<+T> = Ok(value: T) | Err(error: Failure) {
    predicate IsFailure() { Err? }
    function PropagateFailure<U>(): Result<U> requires Err? { Err(error) }
    function Extract(): T requires Ok? { value }
  }

  /** The outcome of an operation that returns nothing or throws. */
  datatype Outcome = Pass | Fail(error: Failure)
}
