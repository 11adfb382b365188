/** ResourceControllerAdvice: the exceptions turned into an HTTP status and an error body. */
module Advice {
  import opened Outcomes

  datatype ErrorMessage = ErrorMessage(logref: string, message: string)

  datatype ErrorResponse = ErrorResponse(status: int, body: ErrorMessage)

  /** The exception kinds the advice has a handler for. */
  predicate Handled(e: Failure) {
    e.NotFound? || e.AlreadyExists? || e.BadRequest? || e.AccessDenied? || e.BadCredentials?
  }

  /** The response of the handler for `e`, or None when no handler matches it. */
  function Handle(e: Failure): (r: Option<ErrorResponse>)
    ensures r.Some? <==> Handled(e)
    ensures r.Some? ==> r.value.body.message == e.message
    ensures r.Some? ==> 400 <= r.value.status < 500
  {
    match e
    case NotFound(m) => Some(ErrorResponse(404, ErrorMessage("Not Found Error", m)))
    case AlreadyExists(m) => Some(ErrorResponse(409, ErrorMessage("Already Exist Error", m)))
    case BadRequest(m) => Some(ErrorResponse(400, ErrorMessage("Bad Request", m)))
    case AccessDenied(m) => Some(ErrorResponse(403, ErrorMessage("Forbidden", m)))
    case BadCredentials(m) => Some(ErrorResponse(401, ErrorMessage("Bad credentials", m)))
    case _ => None
  }

  /** Distinct handled kinds get distinct statuses, and the status decides the logref. */
  lemma StatusDeterminesKind(e1: Failure, e2: Failure)
    requires Handle(e1).Some? && Handle(e2).Some?
    requires Handle(e1).value.status == Handle(e2).value.status
    ensures e1.NotFound? == e2.NotFound? && e1.AlreadyExists? == e2.AlreadyExists?
    ensures e1.BadRequest? == e2.BadRequest? && e1.AccessDenied? == e2.AccessDenied?
    ensures e1.BadCredentials? == e2.BadCredentials?
    ensures Handle(e1).value.body.logref == Handle(e2).value.body.logref
  {
  }

  /** Each handled kind, with its status and logref. */
  lemma HandlerTable(m: string)
    ensures Handle(NotFound(m)) == Some(ErrorResponse(404, ErrorMessage("Not Found Error", m)))
    ensures Handle(AlreadyExists(m)) == Some(ErrorResponse(409, ErrorMessage("Already Exist Error", m)))
    ensures Handle(BadRequest(m)) == Some(ErrorResponse(400, ErrorMessage("Bad Request", m)))
    ensures Handle(AccessDenied(m)) == Some(ErrorResponse(403, ErrorMessage("Forbidden", m)))
    ensures Handle(BadCredentials(m)) == Some(ErrorResponse(401, ErrorMessage("Bad credentials", m)))
  {
  }
}
