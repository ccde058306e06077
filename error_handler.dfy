/** The boundary mapping from an error to the JSON error response: HTTP status, response code,
    response message and the error text as detail. */
module ErrorHandler {
  import opened AppErrors
  import opened Constants
  import opened Wrappers

  /** `context.JSON(status, model.ErrorResponse{...})`. */
  datatype ErrorResponse = ErrorResponse(status: int, code: string, message: string, detail: string)

  /** `Handle(context, err)`: the first kind (in the switch's order) that `err` answers to
      picks the status, code and message; errors of no kind become a 500. */
  function Handle(err: Error): (r: ErrorResponse)
    ensures r.detail == Message(err)
    ensures Is(err, ResourceNotFound) ==> r.status == 404 && r.code == "01" && r.message == "Resource Not Found"
    ensures Is(err, AuthFailed) ==> r.status == 401 && r.code == "02" && r.message == "Authentication Failed"
    ensures Is(err, AccessDenied) ==> r.status == 403 && r.code == "03" && r.message == "Access Denied"
    ensures Is(err, Validation) ==> r.status == 400 && r.code == "04" && r.message == "Validation failed"
    ensures Is(err, Conflict) || Is(err, DBOperation) ==>
              r.status == 409 && r.code == "05" && r.message == "Conflict Resource"
    ensures (forall k :: !Is(err, k)) ==> r.status == 500 && r.code == "99" && r.message == "Unexpected Error"
  {
    AllKindsExclusive(err);
    if Is(err, ResourceNotFound) then
      ErrorResponse(404, ResourceNotFoundCode, ResourceNotFoundMessage, Message(err))
    else if Is(err, AuthFailed) then
      ErrorResponse(401, AuthFailedCode, AuthFailedMessage, Message(err))
    else if Is(err, AccessDenied) then
      ErrorResponse(403, AccessDeniedCode, AccessDeniedMessage, Message(err))
    else if Is(err, Validation) then
      ErrorResponse(400, ValidationFailedCode, ValidationFailedMessage, Message(err))
    else if Is(err, Conflict) then
      ErrorResponse(409, ConflictResourceCode, ConflictResourceMessage, Message(err))
    else if Is(err, DBOperation) then
      ErrorResponse(409, ConflictResourceCode, ConflictResourceMessage, Message(err))
    else
      ErrorResponse(500, UnexpectedErrorCode, UnexpectedErrorMessage, Message(err))
  }

  lemma AllKindsExclusive(err: Error)
    ensures forall k1, k2 :: Is(err, k1) && Is(err, k2) ==> k1 == k2
  {
    forall k1, k2 | Is(err, k1) && Is(err, k2)
      ensures k1 == k2
    {
      AtMostOneKind(err, k1, k2);
    }
  }

  /** The status an error of kind `k` is answered with. */
  function KindStatus(k: Kind): int {
    match k
    case ResourceNotFound => 404
    case AuthFailed => 401
    case AccessDenied => 403
    case Validation => 400
    case Conflict => 409
    case DBOperation => 409
  }

  /** Every AppError is answered with its own kind's status, and the detail carries the
      whole `Error()` text, generic part included. */
  lemma HandleAppError(g: Option<Error>, k: Kind)
    ensures Handle(NewError(g, k)).status == KindStatus(k)
    ensures Handle(NewError(g, k)).detail == Message(NewError(g, k))
  {
    IsAppError(g, k, k);
  }

  /** Errors that are neither AppErrors nor sentinels (a raw driver error, say) become 500s. */
  lemma HandlePlainError(msg: string)
    ensures Handle(Plain(msg)) == ErrorResponse(500, "99", "Unexpected Error", msg)
  {
    forall k
      ensures !Is(Plain(msg), k)
    {
      PlainHasNoKind(msg, k);
    }
  }

  /** A client sees the same status, code and message for a conflict and for a failed
      database operation; only the detail text can tell them apart. */
  lemma ConflictLooksLikeDBOperation(g: Option<Error>)
    ensures Handle(NewError(g, Conflict)).status == Handle(NewError(g, DBOperation)).status
    ensures Handle(NewError(g, Conflict)).code == Handle(NewError(g, DBOperation)).code
    ensures Handle(NewError(g, Conflict)).message == Handle(NewError(g, DBOperation)).message
    ensures Handle(NewError(g, Conflict)).detail != Handle(NewError(g, DBOperation)).detail
  {
    IsAppError(g, Conflict, Conflict);
    IsAppError(g, DBOperation, DBOperation);
    KindOfAppErrorMessage(g, Conflict);
    KindOfAppErrorMessage(g, DBOperation);
  }

  /** Apart from Conflict and DBOperation, the response code tells the kinds apart. */
  lemma CodeIdentifiesKind(g1: Option<Error>, k1: Kind, g2: Option<Error>, k2: Kind)
    requires Handle(NewError(g1, k1)).code == Handle(NewError(g2, k2)).code
    ensures k1 == k2 || {k1, k2} == {Conflict, DBOperation}
  {
    IsAppError(g1, k1, k1);
    IsAppError(g2, k2, k2);
  }
}
