/**
 * The values that flow between the review API's model, controllers and
 * error handlers: request bodies, rows of the `reviews` and `comments`
 * tables, error objects and the responses that are sent.
 */
module Domain {
  import opened Wrappers

  /** A parsed JSON request body. */
  datatype Json =
    | JNull
    | JBool(b: bool)
    | JNumber(n: real)
    | JString(s: string)
    | JArray(items: seq<Json>)
    | JObject(fields: map<string, Json>)

  /**
   * A request body as `express.json()` in its default strict mode leaves it:
   * an object or an array (a request without a JSON body gets `{}`).
   */
  type RequestBody = j: Json | j.JObject? || j.JArray? witness JObject(map[])

  /** Property access `body.key`: `undefined` unless `body` is an object holding `key`. */
  function Field(body: Json, key: string): Option<Json>
  {
    if body.JObject? && key in body.fields then Some(body.fields[key]) else None
  }

  /**
   * A rejection value as the error handlers see it. Application errors carry
   * `status` and `message`; PostgreSQL errors carry a `code` (and a message).
   * Fields the object does not have are `None`.
   */
  datatype ErrorObject = ErrorObject(code: Option<string>, status: Option<int>, message: Option<string>)

  /** JavaScript truthiness of `err.status`: present and non-zero. */
  predicate StatusTruthy(err: ErrorObject)
  {
    err.status.Some? && err.status.value != 0
  }

  /** JavaScript truthiness of `err.message`: present and not the empty string. */
  predicate MessageTruthy(err: ErrorObject)
  {
    err.message.Some? && err.message.value != ""
  }

  /** A row of the `reviews` table. */
  datatype ReviewRow = ReviewRow(
    reviewId: int, title: string, reviewBody: string, designer: string,
    reviewImgUrl: string, votes: int, category: string, owner: string, createdAt: string)

  /** A row of the `comments` table. */
  datatype CommentRow = CommentRow(
    commentId: int, reviewId: int, body: string, votes: int, author: string, createdAt: string)

  /** The body handed to `res.send`: one of the JSON objects the API sends, or plain text. */
  datatype Body =
    | ReviewBody(review: ReviewRow)
    | ReviewsBody(reviews: seq<ReviewRow>)
    | CommentsBody(comments: seq<CommentRow>)
    | CreatedCommentBody(createdComment: CommentRow)
    | UpdatedReviewBody(updatedReview: ReviewRow)
    | MessageBody(message: string)
    | StatusMessageBody(status: int, message: string)
    | TextBody(text: string)

  /** `res.status(status).send(body)`. */
  datatype Response = Response(status: int, body: Body)
}
