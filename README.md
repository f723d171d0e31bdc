# Board-game review API: review lookup, controllers and error chain

This project models in Dafny the part of an Express/PostgreSQL review API that makes decisions:

- **Review lookup** (`selectReviewById`). It validates the id string with
  `Number.isInteger(parseFloat(id))`. A bad id is rejected with 400
  `'Received invalid review ID'` before any query runs. Otherwise it runs
  `SELECT * FROM reviews WHERE review_id = $1`. No row gives a 404
  `'The requested review does not exist'`; otherwise the first row is the result.
- **Review controllers.** Five Express handlers chain promises from the model and
  end either in one `res.status(..).send(..)` or in one `next(err)`.
  `getCommentsByReviewId` checks that the review exists only when the comment list
  is empty. `patchVotesByReviewId` runs the update only after that check succeeds.
- **Error chain.** `app.js` mounts four handlers in this order: route-not-found,
  the PostgreSQL `22P02` handler, the custom-error handler and the server-error handler.
  Express runs an unmatched request or a forwarded error through them.

Everything is pure: datatypes, functions and lemmas. The source has no
mutable state and no loops in these parts.

- `JsNumber` (js_number.dfy) models `parseFloat` (ECMA-262, section 19.2.4) and
  `Number.isInteger` (ECMA-262, section 21.1.2.3):
  - leading white space is skipped (the StrWhiteSpaceChar set);
  - then come an optional sign, `Infinity` or digits, an optional fraction and an optional exponent;
  - the longest such prefix is read, and NaN results when there is none.
  - The parsed decimal is kept exactly, and integrality is decided on the exact value.
- `ReviewsModel` (reviews_model.dfy) holds the database as the rows of `reviews`
  plus a function `bindReviewId`. That function stands for what PostgreSQL does with
  the text bound to `$1`: it yields the integer key, or a storage error such as code
  `22P02` for `'7abc'` or a lost connection. The query is an equality filter on the
  key, in table order.
- `ReviewsController` (reviews_controller.dfy) gets the accessors whose code is not
  part of this model (`selectReviews`, `selectCommentsByReviewId`, `checkReviewExists`,
  `insertCommentByReviewId`, `updateVotesByReviewId`) as given settled results.
  - Each handler returns the accessor calls it made, in order, and an `Outcome`: `Sent(response)` or `Forwarded(err)`.
  - Because `Outcome` has exactly these two cases, each handler ends in exactly one response or exactly one `next(err)`.
- `ErrorHandlers` (error_handlers.dfy) records, for each middleware, the response it
  sent and the `next` call it made. "Never both" is therefore proved, not built in.
- `App` (app.js model, app.dfy):
  - `Dispatch` runs a signal through a middleware stack the way Express does: arity-4
    middleware only for errors, the others only without one.
  - `AppStack` is the mounted order.
  - `Serve` completes a controller's outcome with the stack.

The id-validation test in `__tests__/app.test.js:54-60` expects `'Invalid ID'` for
`/api/reviews/not-a-number`. The code answers differently: `models/reviews.model.js:8-13`
rejects that id first with `{status: 400, message: 'Received invalid review ID'}`, and
the custom-error handler sends that message. The model follows the code.
`App.NotANumberEndToEnd` proves the response is 400 `'Received invalid review ID'`.

The error chain has no catch-all 500 and no handler for foreign-key errors. An error
with no `22P02` code, without both a truthy status and a truthy message, and with a
status below 500 or none gets no response at all (`App.UnclaimedErrorGetsNoResponse`).
Typical cases are a PostgreSQL error other than `22P02`, or an error with status 404
and no message.

## Model

| member | source | states |
|---|---|---|
| JsNumber.FractionDecidesInteger | models/reviews.model.js:8 | A parsed decimal with no exponent is an integer exactly when every fractional digit is `0`. |
| JsNumber.WhiteSpaceIgnored | models/reviews.model.js:8 | Leading white space never changes what `parseFloat` reads. |
| JsNumber.ParseFloat | models/reviews.model.js:8 | Whatever `parseFloat` reads as a decimal has at least one digit. What it reads is described by `JsNumber.WhiteSpaceIgnored`, `JsNumber.IntegralPrefixAccepted`, `JsNumber.FractionalPrefixRejected` and `JsNumber.NoDigitRejected`. |
| JsNumber.IsInteger | models/reviews.model.js:8 | NaN and the infinities are never integers. For a decimal, `JsNumber.FractionDecidesInteger` and `JsNumber.ZeroFractionInteger` say when it is whole. |
| JsNumber.ZeroFractionInteger | models/reviews.model.js:8 | A decimal whose fractional digits are all `0` and whose exponent is zero or more is whole. |
| JsNumber.IntegralPrefixAccepted | models/reviews.model.js:8 | An integral leading numeral passes validation. It may have white space, a sign, digits, and a bare `.` or a `.` with zeros. It may be followed by anything except a digit or a point, as long as any exponent there is zero or more: `'7abc'`, `'7east'`, `'7e'`, `'7e5'` and `'7.0e2'` all pass. |
| JsNumber.FractionalPrefixRejected | models/reviews.model.js:8-13 | A leading numeral with a non-zero fractional digit fails validation. It may be followed by anything except a digit or a point, as long as any exponent there is zero, as in `'1.5abc'` or `'1.5e'`. |
| JsNumber.IntegerHasDigit | models/reviews.model.js:8 | Whatever `parseFloat` reads as an integer contains a decimal digit. |
| JsNumber.NoDigitRejected | models/reviews.model.js:8-13 | A string with no decimal digit never parses to an integer. The cases are NaN or `Infinity`. |
| ReviewsModel.IsValidReviewId | models/reviews.model.js:8 | Only an id that contains a decimal digit can pass. The example lemmas below (`ReviewsModel.NotANumberRejected` and the others) settle individual ids. |
| ReviewsModel.Query | models/reviews.model.js:15-20 | The query fails exactly when the bind fails, with the same error. Otherwise its rows are exactly the table rows whose key is the bound id. |
| ReviewsModel.RowsWithId | models/reviews.model.js:15-20 | The query returns exactly the table rows with the key. It is empty iff no row has the key. Its first element is the first matching row of the table. |
| ReviewsModel.SelectReviewById | models/reviews.model.js:3-33 | An invalid id is rejected with 400 `'Received invalid review ID'`. Otherwise a storage error propagates unchanged, no matching row gives 404 `'The requested review does not exist'`, and otherwise the result is the first matching row, unchanged. |
| ReviewsModel.ResolvedRowMatches | models/reviews.model.js:20-31 | A resolved lookup had a valid id and a successful bind. The row it returns is in the table and carries the bound key. |
| ReviewsModel.InvalidIdNeverQueries | models/reviews.model.js:8-13 | For an invalid id the result does not depend on the database at all, so no query is issued. |
| ReviewsModel.NotANumberRejected | models/reviews.model.js:8-13 | `'not-a-number'` fails validation. |
| ReviewsModel.EmptyIdRejected | models/reviews.model.js:8-13 | The empty id fails validation. |
| ReviewsModel.FractionalIdRejected | models/reviews.model.js:8-13 | `'1.5'` fails validation. |
| ReviewsModel.TrailingLettersAccepted | models/reviews.model.js:8-20 | `'7abc'` passes validation. When the database refuses that text, its error is the result unchanged. |
| ReviewsModel.ExponentLetterAccepted | models/reviews.model.js:8 | `'7east'` passes validation: an `e` with no digits after it starts no exponent. |
| ReviewsModel.LeadingSpaceAccepted | models/reviews.model.js:8 | `' 7'` passes validation. |
| ReviewsModel.PointZeroAccepted | models/reviews.model.js:8 | `'7.0'` passes validation. |
| ReviewsController.GetReviewById | controllers/reviews.controller.js:10-20 | It calls `selectReviewById` once, with the route's id. Success sends 200 `{review}`; a rejection is forwarded unchanged and nothing is sent. |
| ReviewsController.GetReviews | controllers/reviews.controller.js:22-30 | It calls `selectReviews` with no arguments. Success sends 200 `{reviews}`; failure is forwarded unchanged. |
| ReviewsController.GetReviewsIgnoresRequest | controllers/reviews.controller.js:22-23 | Two requests, whatever their query parameters, give the same calls and outcome. |
| ReviewsController.GetCommentsByReviewId | controllers/reviews.controller.js:32-54 | `checkReviewExists` is called iff the list is empty, and only after the select. A non-empty list is sent with 200. An empty list is sent with 200 only if the check resolves; otherwise the check's error is forwarded. |
| ReviewsController.PostCommentByReviewId | controllers/reviews.controller.js:56-67 | The body and the id are passed unchanged to `insertCommentByReviewId`. Success sends 201 `{createdComment}`; failure is forwarded. |
| ReviewsController.PatchVotesByReviewId | controllers/reviews.controller.js:69-81 | `updateVotesByReviewId` runs iff `checkReviewExists` resolved, and after it. A failed check forwards its error. Otherwise the update's result is sent with 200 or its error forwarded. |
| ErrorHandlers.HandlePsql400s | error-handlers/handle-psql-400s.js:1-8 | It sends iff the code is exactly `'22P02'`, and then sends 400 `{message: 'Invalid ID'}`. Otherwise it forwards the same error. It never does both. |
| ErrorHandlers.Psql400sIgnoresStatusAndMessage | error-handlers/handle-psql-400s.js:3-4 | Two `22P02` errors get the same response, whatever their status and message. |
| ErrorHandlers.HandleCustomError | error-handlers/handle-custom-error.js:1-8 | It sends iff status is present and non-zero and message is present and non-empty. It sends HTTP status `err.status` with a body holding only the message. Otherwise it forwards the same error, and it never does both. |
| ErrorHandlers.HandleServerError | error-handlers/handle-server-error.js:1-6 | It never calls `next`. It sends iff status is at least 500, keeping that status (not normalised) with the fixed text `'Internal Server Error'`. |
| ErrorHandlers.ServerErrorHidesMessage | error-handlers/handle-server-error.js:3-4 | Errors with the same status get the same response, whatever their message. |
| ErrorHandlers.HandleNotFound | error-handlers/handle-not-found.js:1-5 | It never calls `next`. It always sends 404 with body `{status, message: 'The requested route does not exist'}`, and the body's status equals the HTTP status. |
| ErrorHandlers.NotFoundIgnoresRoute | error-handlers/handle-not-found.js:1-5 | Every method and path gets the same response. |
| App.Invoke | app.js:42-45 | A middleware that calls `next` passes on the same signal it was given. |
| App.InvokeNeverSendsAndForwards | app.js:42-45 | No middleware of the stack both sends and calls `next`. |
| App.Dispatch | app.js:42-45 | Every response a middleware sends is kept, in order. Because no middleware both sends and calls `next`, at most one response is sent across any stack of them. A signal that falls off the end of the stack comes with no response. |
| App.UnmatchedRequestGetsNotFound | app.js:42 | An unmatched request reaches route-not-found first and gets exactly the fixed 404. |
| App.ErrorsFollowMountingOrder | app.js:43-45 | An error passes the PostgreSQL, custom and server handlers in that order. It gets at most the one response the first claiming handler sends, and it never reaches Express's final handler. |
| App.PsqlCodeBeatsCustomError | app.js:43-44 | A `22P02` error gets 400 `'Invalid ID'` even when it has a truthy status and message. |
| App.CustomErrorBeatsServerError | app.js:44-45 | An error with a truthy message and status at least 500 gets its own message, not `'Internal Server Error'`. |
| App.UnclaimedErrorGetsNoResponse | app.js:43-45 | An error no handler claims gets no response at all: no `22P02`, not both status and message truthy, status below 500 or absent. |
| App.Serve | app.js:42-45 | A sent outcome reaches the client as it is. A forwarded error gets the response the chain decides, or none. |
| App.ReviewByIdEndToEnd | controllers/reviews.controller.js:10-20 | For GET `/api/reviews/:review_id`: a non-integer id gets 400 `'Received invalid review ID'` and a `22P02` bind failure gets 400 `'Invalid ID'`. A missing review gets 404, and a present one gets 200 with its first row. |
| App.NotANumberEndToEnd | models/reviews.model.js:9-12 | `/api/reviews/not-a-number` is answered 400 `'Received invalid review ID'`. |

## Left out

- Rounding to IEEE-754 doubles in `parseFloat`. Integrality is decided on the exact
  decimal value. So the model differs from JavaScript for fractions that round to a
  whole number (`'1.0000000000000001'`), magnitudes of 2^53 and more, and exponents
  that overflow to `Infinity` (`'1e400'`).
- PostgreSQL itself: the SQL text, the conversion of the bound text to the integer
  column, and the connection pool (`db/connection.js`). All of these are the
  `bindReviewId` function of the database value.
- The accessors other than `selectReviewById`. Their code is not part of this model,
  so they are given results with no rules of their own.
- `deleteCommentByCommentId`, `getCategories` and `getUsers`. `app.js` mounts them,
  but their controllers are not part of this model.
- Express routing, `express.json()`, URL decoding of route parameters, and the `req`
  and `res` objects. Responses are returned values. Route parameters are the decoded
  strings, and a handler with a `:review_id` route requires that parameter, which the
  route always supplies. A request body is an object or an array. Strict
  `express.json()` refuses any other JSON before a handler runs.
- Building the stack with `app.use` step by step. Only the resulting order and the
  dispatch over it are modelled. Express's own final handler is not modelled, and
  `App.ErrorsFollowMountingOrder` shows that the stack never reaches it.
- Node's refusal of an out-of-range status such as `res.status(42)`. An error object
  is modelled with only `code`, `status` (an integer) and `message` (a string); other
  JavaScript types for these fields are not modelled.
- `console.log` calls, the asynchronous timing of promises, and `temp.js` (an
  unfinished prototype that returns nothing).
