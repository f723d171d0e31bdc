/**
 * The review controllers. Each handler settles a chain of promises from the
 * model and ends either by sending one response or by passing one error to
 * `next`. A handler is modelled as a function of the request and of what
 * the model's accessors settle with; it returns the accessor calls it made,
 * in order, and how it ended.
 */
module ReviewsController {
  import opened Wrappers
  import opened Domain
  import ReviewsModel

  /** The parts of an Express request the handlers read. */
  datatype Request = Request(params: map<string, string>, query: map<string, string>, body: RequestBody)

  /** A call into the model, with its arguments. */
  datatype Call =
    | SelectReviewById(reviewId: string)
    | SelectReviews
    | SelectCommentsByReviewId(reviewId: string)
    | CheckReviewExists(reviewId: string)
    | InsertCommentByReviewId(newComment: Json, reviewId: string)
    | UpdateVotesByReviewId(incVotes: Option<Json>, reviewId: string)

  /** How a handler ends: `res.status(..).send(..)` or `next(err)`. */
  datatype Outcome = Sent(response: Response) | Forwarded(err: ErrorObject)

  /** The model calls a handler made, in order, and how it ended. */
  datatype Run = Run(calls: seq<Call>, outcome: Outcome)

  /**
   * What the accessors whose code is not part of this model settle with.
   * `selectReviews` takes no argument, so it is one settled value.
   */
  datatype Accessors = Accessors(
    selectReviews: Result<seq<ReviewRow>, ErrorObject>,
    selectCommentsByReviewId: string -> Result<seq<CommentRow>, ErrorObject>,
    checkReviewExists: string -> Result<(), ErrorObject>,
    insertCommentByReviewId: (Json, string) -> Result<CommentRow, ErrorObject>,
    updateVotesByReviewId: (Option<Json>, string) -> Result<ReviewRow, ErrorObject>)

  /** `.then((v) => res.status(status).send(wrap(v))).catch((err) => next(err))`. */
  function Settle<T>(p: Result<T, ErrorObject>, status: int, wrap: T -> Body): Outcome
  {
    match p
    case Ok(v) => Sent(Response(status, wrap(v)))
    case Err(e) => Forwarded(e)
  }

  /** GET /api/reviews/:review_id */
  function GetReviewById(req: Request, db: ReviewsModel.Database): (r: Run)
    requires "review_id" in req.params
    ensures var id := req.params["review_id"];
      var p := ReviewsModel.SelectReviewById(id, db);
      && r.calls == [SelectReviewById(id)]
      && (p.Ok? ==> r.outcome == Sent(Response(200, ReviewBody(p.value))))
      && (p.Err? ==> r.outcome == Forwarded(p.error))
  {
    var id := req.params["review_id"];
    Run([SelectReviewById(id)], Settle(ReviewsModel.SelectReviewById(id, db), 200, (v: ReviewRow) => ReviewBody(v)))
  }

  /** GET /api/reviews */
  function GetReviews(req: Request, acc: Accessors): (r: Run)
    ensures r.calls == [SelectReviews]
    ensures acc.selectReviews.Ok? ==> r.outcome == Sent(Response(200, ReviewsBody(acc.selectReviews.value)))
    ensures acc.selectReviews.Err? ==> r.outcome == Forwarded(acc.selectReviews.error)
  {
    Run([SelectReviews], Settle(acc.selectReviews, 200, (v: seq<ReviewRow>) => ReviewsBody(v)))
  }

  /** GET /api/reviews/:review_id/comments */
  function GetCommentsByReviewId(req: Request, acc: Accessors): (r: Run)
    requires "review_id" in req.params
    ensures var id := req.params["review_id"];
      var p := acc.selectCommentsByReviewId(id);
      var check := acc.checkReviewExists(id);
      // the existence check runs exactly when the comment list is empty, and after it
      && (CheckReviewExists(id) in r.calls <==> p.Ok? && |p.value| == 0)
      && r.calls == [SelectCommentsByReviewId(id)] + (if p.Ok? && |p.value| == 0 then [CheckReviewExists(id)] else [])
      // a non-empty list is sent as it is
      && (p.Ok? && |p.value| > 0 ==> r.outcome == Sent(Response(200, CommentsBody(p.value))))
      // an empty list is sent only if the review exists; otherwise the check's error is forwarded
      && (p.Ok? && |p.value| == 0 && check.Ok? ==> r.outcome == Sent(Response(200, CommentsBody([]))))
      && (p.Ok? && |p.value| == 0 && check.Err? ==> r.outcome == Forwarded(check.error))
      && (p.Err? ==> r.outcome == Forwarded(p.error))
  {
    var id := req.params["review_id"];
    match acc.selectCommentsByReviewId(id)
    case Err(e) => Run([SelectCommentsByReviewId(id)], Forwarded(e))
    case Ok(comments) =>
      if |comments| == 0 then
        var checked := match acc.checkReviewExists(id)
          case Ok(_) => Ok(comments)
          case Err(e) => Err(e);
        Run([SelectCommentsByReviewId(id), CheckReviewExists(id)],
          Settle(checked, 200, (v: seq<CommentRow>) => CommentsBody(v)))
      else
        Run([SelectCommentsByReviewId(id)], Sent(Response(200, CommentsBody(comments))))
  }

  /** POST /api/reviews/:review_id/comments */
  function PostCommentByReviewId(req: Request, acc: Accessors): (r: Run)
    requires "review_id" in req.params
    ensures var id := req.params["review_id"];
      var p := acc.insertCommentByReviewId(req.body, id);
      && r.calls == [InsertCommentByReviewId(req.body, id)]
      && (p.Ok? ==> r.outcome == Sent(Response(201, CreatedCommentBody(p.value))))
      && (p.Err? ==> r.outcome == Forwarded(p.error))
  {
    var id := req.params["review_id"];
    Run([InsertCommentByReviewId(req.body, id)],
      Settle(acc.insertCommentByReviewId(req.body, id), 201, (v: CommentRow) => CreatedCommentBody(v)))
  }

  /** PATCH /api/reviews/:review_id */
  function PatchVotesByReviewId(req: Request, acc: Accessors): (r: Run)
    requires "review_id" in req.params
    ensures var id := req.params["review_id"];
      var incVotes := Field(req.body, "inc_votes");
      var check := acc.checkReviewExists(id);
      var update := acc.updateVotesByReviewId(incVotes, id);
      // the update runs only after the existence check resolved
      && (UpdateVotesByReviewId(incVotes, id) in r.calls <==> check.Ok?)
      && r.calls == [CheckReviewExists(id)] + (if check.Ok? then [UpdateVotesByReviewId(incVotes, id)] else [])
      && (check.Err? ==> r.outcome == Forwarded(check.error))
      && (check.Ok? && update.Ok? ==> r.outcome == Sent(Response(200, UpdatedReviewBody(update.value))))
      && (check.Ok? && update.Err? ==> r.outcome == Forwarded(update.error))
  {
    var id := req.params["review_id"];
    var incVotes := Field(req.body, "inc_votes");
    match acc.checkReviewExists(id)
    case Err(e) => Run([CheckReviewExists(id)], Forwarded(e))
    case Ok(_) =>
      Run([CheckReviewExists(id), UpdateVotesByReviewId(incVotes, id)],
        Settle(acc.updateVotesByReviewId(incVotes, id), 200, (v: ReviewRow) => UpdatedReviewBody(v)))
  }

  /** `getReviews` passes nothing from the request on: its query parameters never change the result. */
  lemma GetReviewsIgnoresRequest(req1: Request, req2: Request, acc: Accessors)
    ensures GetReviews(req1, acc) == GetReviews(req2, acc)
  {
  }
}
