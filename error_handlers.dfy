/**
 * The four Express middlewares that turn an unmatched request or a
 * forwarded error into a response. Each one, when Express invokes it,
 * may send a response and may call `next`; the model records both, so
 * that "never both" is something to prove rather than something assumed.
 */
module ErrorHandlers {
  import opened Wrappers
  import opened Domain

  /** What travels along the middleware stack: no error (`next()`), or an error (`next(err)`). */
  datatype Signal = Clear | Raised(err: ErrorObject)

  /** One middleware invocation: the response it sent, if any, and how it called `next`, if it did. */
  datatype Step = Step(sent: Option<Response>, next: Option<Signal>)

  /** The request line, which the route-not-found handler receives and ignores. */
  datatype Route = Route(verb: string, path: string)

  const InvalidIdMessage := "Invalid ID"
  const RouteNotFoundMessage := "The requested route does not exist"
  const InternalServerErrorText := "Internal Server Error"

  /** `handlePSQL400s`: PostgreSQL's invalid-text-representation error becomes a 400. */
  function HandlePsql400s(err: ErrorObject): (r: Step)
    ensures r.sent.Some? <==> err.code == Some("22P02")
    ensures r.sent.Some? ==> r.sent.value == Response(400, MessageBody(InvalidIdMessage))
    ensures r.sent.None? ==> r.next == Some(Raised(err))
    ensures !(r.sent.Some? && r.next.Some?)
  {
    if err.code == Some("22P02") then Step(Some(Response(400, MessageBody(InvalidIdMessage))), None)
    else Step(None, Some(Raised(err)))
  }

  /** The 22P02 response does not depend on the error's own status or message. */
  lemma Psql400sIgnoresStatusAndMessage(e1: ErrorObject, e2: ErrorObject)
    requires e1.code == e2.code == Some("22P02")
    ensures HandlePsql400s(e1) == HandlePsql400s(e2)
  {
  }

  /** `handleCustomError`: an error with a truthy status and message is answered with them. */
  function HandleCustomError(err: ErrorObject): (r: Step)
    ensures r.sent.Some? <==> StatusTruthy(err) && MessageTruthy(err)
    ensures r.sent.Some? ==> r.sent.value == Response(err.status.value, MessageBody(err.message.value))
    ensures r.sent.None? ==> r.next == Some(Raised(err))
    ensures !(r.sent.Some? && r.next.Some?)
  {
    if StatusTruthy(err) && MessageTruthy(err) then
      Step(Some(Response(err.status.value, MessageBody(err.message.value))), None)
    else Step(None, Some(Raised(err)))
  }

  /** `handleServerError`: a status of 500 or more is answered with a fixed text; otherwise nothing happens. */
  function HandleServerError(err: ErrorObject): (r: Step)
    ensures r.next.None?
    ensures r.sent.Some? <==> err.status.Some? && err.status.value >= 500
    ensures r.sent.Some? ==> r.sent.value == Response(err.status.value, TextBody(InternalServerErrorText))
  {
    if err.status.Some? && err.status.value >= 500 then
      Step(Some(Response(err.status.value, TextBody(InternalServerErrorText))), None)
    else Step(None, None)
  }

  /** The server-error text never reveals the error's message. */
  lemma ServerErrorHidesMessage(e1: ErrorObject, e2: ErrorObject)
    requires e1.status == e2.status
    ensures HandleServerError(e1) == HandleServerError(e2)
  {
  }

  /** `handleNotFound`: a fixed 404 whose body repeats the status. */
  function HandleNotFound(route: Route): (r: Step)
    ensures r.next.None? && r.sent.Some?
    ensures r.sent.value.status == 404
    ensures r.sent.value.body == StatusMessageBody(r.sent.value.status, RouteNotFoundMessage)
  {
    Step(Some(Response(404, StatusMessageBody(404, RouteNotFoundMessage))), None)
  }

  /** The not-found response is the same for every method and path. */
  lemma NotFoundIgnoresRoute(r1: Route, r2: Route)
    ensures HandleNotFound(r1) == HandleNotFound(r2)
  {
  }
}
