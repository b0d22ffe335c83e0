/**
 * What a controller action ends in: a rendered JSON body with an HTTP
 * status, or an exception no `rescue_from` handles.
 */
module Responses {
  import opened Wrappers
  import opened Json
  import opened Store
  import opened ErrorSerializer

  datatype Response = Rendered(status: nat, body: Json) | Raised(error: Exception)

  /**
   * `not_found_response`: the exception's message under status 404, built
   * with the error serializer (the merchants and items controllers define
   * the same handler).
   */
  function NotFoundResponse(message: string): (r: Response)
    ensures r.Rendered? && r.status == 404
  {
    Rendered(404, SerializeJson(ErrorMessage(Some(message), 404)))
  }

  /**
   * A response that is the not-found response for `message` carries one
   * error entry, with status "404" and the message as title.
   */
  lemma NotFoundBody(r: Response, message: string)
    requires r == NotFoundResponse(message)
    ensures r.Rendered? && r.status == 404
    ensures var entries := Errors(r.body);
      && entries.Some? && |entries.value| == 1
      && Get(entries.value[0], "status") == Some(JStr("404"))
      && Get(entries.value[0], "title") == Some(JStr(message))
  {
    SerializeJsonShape(ErrorMessage(Some(message), 404));
    assert Text.IntToString(404) == "404";
  }

  /** `render json:` after an action that may raise; `rescue_from ActiveRecord::RecordNotFound` applied. */
  function RescueNotFound(outcome: Result<Json, Exception>): (r: Response)
    ensures outcome.Success? ==> r == Rendered(200, outcome.value)
    ensures outcome.Failure? && outcome.error.RecordNotFound? ==> r == NotFoundResponse(outcome.error.message)
    ensures outcome.Failure? && !outcome.error.RecordNotFound? ==> r == Raised(outcome.error)
  {
    match outcome
    case Success(body) => Rendered(200, body)
    case Failure(RecordNotFound(message)) => NotFoundResponse(message)
    case Failure(e) => Raised(e)
  }

  /** `render json:` in a controller without a rescue handler: any exception escapes. */
  function Render(outcome: Result<Json, Exception>): (r: Response)
    ensures outcome.Success? ==> r == Rendered(200, outcome.value)
    ensures outcome.Failure? ==> r == Raised(outcome.error)
  {
    match outcome
    case Success(body) => Rendered(200, body)
    case Failure(e) => Raised(e)
  }
}
