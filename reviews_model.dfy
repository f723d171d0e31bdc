/**
 * `selectReviewById`: validate the id as JavaScript does, look the review
 * up in the `reviews` table, reject with 404 when no row has that id, and
 * otherwise resolve with the first row returned.
 */
module ReviewsModel {
  import opened Wrappers
  import opened Domain
  import JsNumber

  /** The rejection for an id that does not parse as an integer. */
  const InvalidReviewId := ErrorObject(None, Some(400), Some("Received invalid review ID"))

  /** The rejection when no review has the id. */
  const ReviewNotFound := ErrorObject(None, Some(404), Some("The requested review does not exist"))

  /**
   * The database as `selectReviewById` sees it: the rows of the `reviews`
   * table, in the order a scan returns them, and what the database does with
   * the text bound to `$1` before comparing it with the integer column: it
   * yields the integer key, or the query fails with a storage error (for
   * example code `22P02` for text that is not an integer, or a lost
   * connection).
   */
  datatype Database = Database(reviews: seq<ReviewRow>, bindReviewId: string -> Result<int, ErrorObject>)

  /** `Number.isInteger(parseFloat(reviewId))`. */
  predicate IsValidReviewId(reviewId: string): (b: bool)
    ensures b ==> exists i :: 0 <= i < |reviewId| && JsNumber.IsDigit(reviewId[i])
  {
    JsNumber.IntegerHasDigit(reviewId);
    JsNumber.IsInteger(JsNumber.ParseFloat(reviewId))
  }

  /** Row `i` is the first row whose `review_id` is `key`. */
  ghost predicate IsFirstMatch(rows: seq<ReviewRow>, key: int, i: int)
  {
    0 <= i < |rows| && rows[i].reviewId == key && forall j :: 0 <= j < i ==> rows[j].reviewId != key
  }

  /** `WHERE review_id = key`: the rows with that id, in table order. */
  function RowsWithId(rows: seq<ReviewRow>, key: int): (r: seq<ReviewRow>)
    ensures forall x :: x in r <==> x in rows && x.reviewId == key
    ensures |r| == 0 <==> forall i :: 0 <= i < |rows| ==> rows[i].reviewId != key
    ensures forall i :: IsFirstMatch(rows, key, i) ==> |r| > 0 && r[0] == rows[i]
  {
    if |rows| == 0 then []
    else
      var rest := RowsWithId(rows[1..], key);
      assert forall i :: 1 <= i < |rows| ==> rows[i] == rows[1..][i - 1];
      assert forall i :: IsFirstMatch(rows, key, i) && i > 0 ==> IsFirstMatch(rows[1..], key, i - 1);
      if rows[0].reviewId == key then [rows[0]] + rest else rest
  }

  /** `db.query('SELECT * FROM reviews WHERE review_id = $1', [reviewId])`. */
  function Query(db: Database, reviewId: string): (r: Result<seq<ReviewRow>, ErrorObject>)
    ensures r.Err? <==> db.bindReviewId(reviewId).Err?
    ensures r.Err? ==> r.error == db.bindReviewId(reviewId).error
    ensures r.Ok? ==> forall x :: x in r.value <==> x in db.reviews && x.reviewId == db.bindReviewId(reviewId).value
  {
    match db.bindReviewId(reviewId)
    case Err(e) => Err(e)
    case Ok(key) => Ok(RowsWithId(db.reviews, key))
  }

  /** `selectReviewById(reviewId)`, its settled promise. */
  function SelectReviewById(reviewId: string, db: Database): (r: Result<ReviewRow, ErrorObject>)
    ensures !IsValidReviewId(reviewId) ==> r == Err(InvalidReviewId)
    ensures IsValidReviewId(reviewId) && db.bindReviewId(reviewId).Err? ==> r == Err(db.bindReviewId(reviewId).error)
    ensures IsValidReviewId(reviewId) && db.bindReviewId(reviewId).Ok? ==>
      var key := db.bindReviewId(reviewId).value;
      && ((forall i :: 0 <= i < |db.reviews| ==> db.reviews[i].reviewId != key) ==> r == Err(ReviewNotFound))
      && (forall i :: IsFirstMatch(db.reviews, key, i) ==> r == Ok(db.reviews[i]))
  {
    if !IsValidReviewId(reviewId) then Err(InvalidReviewId)
    else
      match Query(db, reviewId)
      case Err(e) => Err(e)
      case Ok(rows) => if |rows| == 0 then Err(ReviewNotFound) else Ok(rows[0])
  }

  /** A resolved lookup is a row of the table carrying the id the database bound. */
  lemma ResolvedRowMatches(reviewId: string, db: Database)
    ensures var r := SelectReviewById(reviewId, db);
      r.Ok? ==>
        && IsValidReviewId(reviewId) && db.bindReviewId(reviewId).Ok?
        && r.value in db.reviews
        && r.value.reviewId == db.bindReviewId(reviewId).value
  {
    if SelectReviewById(reviewId, db).Ok? {
      var rows := RowsWithId(db.reviews, db.bindReviewId(reviewId).value);
      assert rows[0] in rows;
    }
  }

  /** An id that fails validation is rejected before any query: the database plays no part. */
  lemma InvalidIdNeverQueries(reviewId: string, db1: Database, db2: Database)
    requires !IsValidReviewId(reviewId)
    ensures SelectReviewById(reviewId, db1) == SelectReviewById(reviewId, db2) == Err(InvalidReviewId)
  {
  }

  /** An id with no digits at all fails validation. */
  lemma NotANumberRejected()
    ensures !IsValidReviewId("not-a-number")
  {
    JsNumber.NoDigitRejected("not-a-number");
  }

  /** The empty id fails validation. */
  lemma EmptyIdRejected()
    ensures !IsValidReviewId("")
  {
    JsNumber.NoDigitRejected("");
  }

  /** A fractional id fails validation. */
  lemma FractionalIdRejected()
    ensures !IsValidReviewId("1.5")
  {
    assert "5"[0] != '0';
    JsNumber.FractionalPrefixRejected("", "", "1", "5", "");
    assert "" + "" + "1" + "." + "5" + "" == "1.5";
  }

  /**
   * Validation reads a prefix: an id followed by letters passes and reaches
   * the query unchanged, so it is the database that refuses it (22P02).
   */
  lemma TrailingLettersAccepted(db: Database)
    ensures IsValidReviewId("7abc")
    ensures db.bindReviewId("7abc").Err? ==> SelectReviewById("7abc", db) == Err(db.bindReviewId("7abc").error)
  {
    JsNumber.IntegralPrefixAccepted("", "", "7", "", false, "abc");
    assert "" + "" + "7" + "abc" == "7abc";
  }

  /** An `e` that starts no exponent ends the numeral like any other letter. */
  lemma ExponentLetterAccepted()
    ensures IsValidReviewId("7east")
  {
    assert "" + "" + "7" + "east" == "7east";
    assert JsNumber.StopsDigits("east") && JsNumber.ExponentOf("east") == 0;
    JsNumber.IntegralPrefixAccepted("", "", "7", "", false, "east");
  }

  /** Leading white space does not stop an id from passing. */
  lemma LeadingSpaceAccepted()
    ensures IsValidReviewId(" 7")
  {
    assert JsNumber.AllWhiteSpace(" ");
    JsNumber.IntegralPrefixAccepted(" ", "", "7", "", false, "");
    assert " " + "" + "7" + "" == " 7";
  }

  /** A fraction of zeros does not stop an id from passing. */
  lemma PointZeroAccepted()
    ensures IsValidReviewId("7.0")
  {
    assert JsNumber.AllZeros("0") && JsNumber.ExponentOf("") == 0;
    JsNumber.IntegralPrefixAccepted("", "", "7", "0", true, "");
    assert "" + "" + ("7" + "." + "0") + "" == "7.0";
  }
}
