/**
 * The end of the application's middleware stack: the route-not-found
 * handler and the three error handlers, in the order they are mounted,
 * and how Express runs a request or an error through them.
 */
module App {
  import opened Wrappers
  import opened Domain
  import opened ErrorHandlers
  import ReviewsModel
  import ReviewsController

  datatype Middleware = RouteNotFound | Psql400s | CustomError | ServerError

  /** Express tells error middleware from ordinary middleware by its number of parameters. */
  function Arity(m: Middleware): nat
  {
    if m == RouteNotFound then 3 else 4
  }

  /** Express invokes four-parameter middleware only for an error, the others only without one. */
  predicate Accepts(m: Middleware, s: Signal)
  {
    (Arity(m) == 4) == s.Raised?
  }

  /** One middleware of the stack, called with the signal Express hands it; any signal it passes on is the one it was given. */
  function Invoke(m: Middleware, s: Signal, route: Route): (step: Step)
    requires Accepts(m, s)
    ensures step.next.Some? ==> step.next.value == s
  {
    match m
    case RouteNotFound => HandleNotFound(route)
    case Psql400s => HandlePsql400s(s.err)
    case CustomError => HandleCustomError(s.err)
    case ServerError => HandleServerError(s.err)
  }

  /** Every middleware of this stack either sends or calls `next`, never both. */
  lemma InvokeNeverSendsAndForwards(m: Middleware, s: Signal, route: Route)
    requires Accepts(m, s)
    ensures var step := Invoke(m, s, route); !(step.sent.Some? && step.next.Some?)
  {
  }

  /**
   * Running the stack: the responses sent, in order, and the signal that
   * fell off the end of the stack (handed to Express's own final handler),
   * if any did.
   */
  datatype Trace = Trace(responses: seq<Response>, leftover: Option<Signal>)

  function Dispatch(stack: seq<Middleware>, s: Signal, route: Route): (t: Trace)
    ensures |t.responses| <= 1
    ensures t.leftover.Some? ==> |t.responses| == 0
    decreases |stack|
  {
    if |stack| == 0 then Trace([], Some(s))
    else if !Accepts(stack[0], s) then Dispatch(stack[1..], s, route)
    else
      var step := Invoke(stack[0], s, route);
      var sent := if step.sent.Some? then [step.sent.value] else [];
      match step.next
      case None => Trace(sent, None)
      case Some(next) =>
        var t := Dispatch(stack[1..], next, route);
        InvokeNeverSendsAndForwards(stack[0], s, route);
        Trace(sent + t.responses, t.leftover)
  }

  /** app.use('*', handleRouteNotFound); app.use(handlePSQL400s); app.use(handleCustomError); app.use(handleServerError) */
  const AppStack: seq<Middleware> := [RouteNotFound, Psql400s, CustomError, ServerError]

  /** The response an error gets from the stack, decided handler by handler in mounting order. */
  function ErrorResponse(err: ErrorObject): Option<Response>
  {
    if err.code == Some("22P02") then Some(Response(400, MessageBody(InvalidIdMessage)))
    else if StatusTruthy(err) && MessageTruthy(err) then Some(Response(err.status.value, MessageBody(err.message.value)))
    else if err.status.Some? && err.status.value >= 500 then Some(Response(err.status.value, TextBody(InternalServerErrorText)))
    else None
  }

  /** A request that matched no route gets the fixed 404 and nothing else. */
  lemma UnmatchedRequestGetsNotFound(route: Route)
    ensures Dispatch(AppStack, Clear, route)
      == Trace([Response(404, StatusMessageBody(404, RouteNotFoundMessage))], None)
  {
  }

  /** An error passes the handlers in mounting order, gets at most the one response ErrorResponse names, and never reaches Express's final handler. */
  lemma {:induction false} ErrorsFollowMountingOrder(err: ErrorObject, route: Route)
    ensures Dispatch(AppStack, Raised(err), route)
      == Trace(if ErrorResponse(err).Some? then [ErrorResponse(err).value] else [], None)
  {
    var s := Raised(err);
    assert AppStack[1..] == [Psql400s, CustomError, ServerError];
    assert AppStack[1..][1..] == [CustomError, ServerError];
    assert AppStack[1..][1..][1..] == [ServerError];
    assert AppStack[1..][1..][1..][1..] == [];
    assert Dispatch(AppStack, s, route) == Dispatch(AppStack[1..], s, route);
  }

  /** A 22P02 error gets 400 'Invalid ID' even with a truthy status and message: the PostgreSQL handler comes first. */
  lemma PsqlCodeBeatsCustomError(err: ErrorObject, route: Route)
    requires err.code == Some("22P02") && StatusTruthy(err) && MessageTruthy(err)
    ensures Dispatch(AppStack, Raised(err), route).responses == [Response(400, MessageBody("Invalid ID"))]
  {
    ErrorsFollowMountingOrder(err, route);
  }

  /** A 5xx error with a message is answered with its own message: the custom handler comes before the server one. */
  lemma CustomErrorBeatsServerError(err: ErrorObject, route: Route)
    requires err.code != Some("22P02") && MessageTruthy(err)
    requires err.status.Some? && err.status.value >= 500
    ensures Dispatch(AppStack, Raised(err), route).responses == [Response(err.status.value, MessageBody(err.message.value))]
  {
    ErrorsFollowMountingOrder(err, route);
  }

  /** An error no handler claims gets no response at all: the request is left hanging. */
  lemma UnclaimedErrorGetsNoResponse(err: ErrorObject, route: Route)
    requires err.code != Some("22P02")
    requires !(StatusTruthy(err) && MessageTruthy(err))
    requires err.status.None? || err.status.value < 500
    ensures Dispatch(AppStack, Raised(err), route) == Trace([], None)
  {
    ErrorsFollowMountingOrder(err, route);
  }

  /** What the client finally receives. */
  datatype Final = Responded(response: Response) | NoResponse

  /** A controller's outcome, completed by the middleware stack when it forwarded an error. */
  function Serve(outcome: ReviewsController.Outcome, route: Route): (f: Final)
    ensures outcome.Sent? ==> f == Responded(outcome.response)
    ensures outcome.Forwarded? ==>
      f == (if ErrorResponse(outcome.err).Some? then Responded(ErrorResponse(outcome.err).value) else NoResponse)
  {
    match outcome
    case Sent(response) => Responded(response)
    case Forwarded(err) =>
      ErrorsFollowMountingOrder(err, route);
      var t := Dispatch(AppStack, Raised(err), route);
      if |t.responses| == 0 then NoResponse else Responded(t.responses[0])
  }

  /**
   * GET /api/reviews/:review_id from request to response: a non-integer id
   * gets the model's own 400 message, an id the database refuses with
   * 22P02 gets 400 'Invalid ID', an unknown id 404, a known one the first
   * matching row.
   */
  lemma ReviewByIdEndToEnd(req: ReviewsController.Request, db: ReviewsModel.Database, route: Route)
    requires "review_id" in req.params
    ensures var id := req.params["review_id"];
      var f := Serve(ReviewsController.GetReviewById(req, db).outcome, route);
      && (!ReviewsModel.IsValidReviewId(id) ==> f == Responded(Response(400, MessageBody("Received invalid review ID"))))
      && (ReviewsModel.IsValidReviewId(id) && db.bindReviewId(id).Err? && db.bindReviewId(id).error.code == Some("22P02")
          ==> f == Responded(Response(400, MessageBody("Invalid ID"))))
      && (ReviewsModel.IsValidReviewId(id) && db.bindReviewId(id).Ok? &&
          (forall i :: 0 <= i < |db.reviews| ==> db.reviews[i].reviewId != db.bindReviewId(id).value)
          ==> f == Responded(Response(404, MessageBody("The requested review does not exist"))))
      && (forall i ::
            ReviewsModel.IsValidReviewId(id) && db.bindReviewId(id).Ok? &&
            ReviewsModel.IsFirstMatch(db.reviews, db.bindReviewId(id).value, i)
            ==> f == Responded(Response(200, ReviewBody(db.reviews[i]))))
  {
  }

  /** `/api/reviews/not-a-number` is answered 400 'Received invalid review ID', not 'Invalid ID'. */
  lemma NotANumberEndToEnd(req: ReviewsController.Request, db: ReviewsModel.Database, route: Route)
    requires "review_id" in req.params && req.params["review_id"] == "not-a-number"
    ensures Serve(ReviewsController.GetReviewById(req, db).outcome, route)
      == Responded(Response(400, MessageBody("Received invalid review ID")))
  {
    ReviewsModel.NotANumberRejected();
    ReviewByIdEndToEnd(req, db, route);
  }
}
