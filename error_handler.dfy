/**
 * The Express error handler of backend/src/middleware/errorHandler.js: the HTTP status and
 * message sent for an error a controller passed on, with PostgreSQL's error codes translated.
 */
module ErrorHandler {
  import opened Basics

  /** The fields of the error object the handler reads; None stands for an absent property. */
  datatype ErrorInfo = ErrorInfo(status: Option<int>, message: Option<string>, code: Option<string>)

  /** The JSON body `{ success: false, message }` with its status. */
  datatype Response = Response(status: int, success: bool, message: string)

  /** A property value JavaScript treats as true: present, and not 0 or "". */
  predicate TruthyStatus(s: Option<int>) { s.Some? && s.value != 0 }
  predicate TruthyText(s: Option<string>) { s.Some? && s.value != "" }

  /** The PostgreSQL codes the handler translates, with the status and message it sends. */
  function Translate(code: string): Option<(int, string)>
  {
    if code == "23505" then Some((409, "Resource already exists"))
    else if code == "23503" then Some((400, "Referenced resource does not exist"))
    else if code == "23502" then Some((400, "Required field is missing"))
    else if code == "22P02" then Some((400, "Invalid data format"))
    else None
  }

  function HandleError(err: ErrorInfo): (r: Response)
    ensures !r.success
  {
    var status := if TruthyStatus(err.status) then err.status.value else 500;
    var message := if TruthyText(err.message) then err.message.value else "Internal server error";
    if TruthyText(err.code) && Translate(err.code.value).Some? then
      var t := Translate(err.code.value).value;
      Response(t.0, false, t.1)
    else Response(status, false, message)
  }

  /**
   * A unique violation is a 409 and the other three translated codes a 400, whatever status
   * and message the error carried; every other error keeps its own status and message, or
   * 500 and "Internal server error" when it has none.
   */
  lemma ErrorResponses(err: ErrorInfo)
    ensures err.code == Some("23505") ==> HandleError(err) == Response(409, false, "Resource already exists")
    ensures err.code == Some("23503") ==> HandleError(err) == Response(400, false, "Referenced resource does not exist")
    ensures err.code == Some("23502") ==> HandleError(err) == Response(400, false, "Required field is missing")
    ensures err.code == Some("22P02") ==> HandleError(err) == Response(400, false, "Invalid data format")
    ensures (err.code.None? || Translate(err.code.value).None?) ==>
      && HandleError(err).status == (if TruthyStatus(err.status) then err.status.value else 500)
      && HandleError(err).message == (if TruthyText(err.message) then err.message.value else "Internal server error")
  {
  }

  /** The translated statuses are client errors, and only a unique violation is a conflict. */
  lemma TranslatedStatuses(code: string)
    requires Translate(code).Some?
    ensures 400 <= Translate(code).value.0 < 500
    ensures Translate(code).value.0 == 409 <==> code == "23505"
  {
  }

  /** An error with no status, message or code answers 500 "Internal server error". */
  lemma BareErrorIs500()
    ensures HandleError(ErrorInfo(None, None, None)) == Response(500, false, "Internal server error")
    ensures HandleError(ErrorInfo(Some(0), Some(""), Some(""))) == Response(500, false, "Internal server error")
  {
  }
}
