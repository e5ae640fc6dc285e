/** The entry endpoint: method check, body validation, timestamp choice
    and the answer to the database write. Whether a database handle is
    available, whether the write succeeds, and how a posted timestamp
    parses are parameters. */
module AccomplishmentsApi {
  import opened Wrappers
  import opened Types
  import opened Strings
  import opened Http

  /** The destructured body fields; a missing field reads as `Undefined`. */
  datatype EntryBody = EntryBody(text: Value, rating: Value, timestamp: Value)

  /** `req.body` is None when it is undefined or null: destructuring it
      throws, and the outer catch answers. */
  datatype EntryRequest = EntryRequest(httpMethod: string, body: Option<EntryBody>)

  predicate TextOk(text: Value) {
    Truthy(text) && text.Str? && Trim(text.s) != []
  }

  predicate RatingOk(rating: Value) {
    rating.Num? && 1.0 <= rating.n <= 10.0
  }

  /** The early returns, in the handler's order: method, unreadable body,
      text, rating. None means the entry goes on to be saved. */
  function Rejection(req: EntryRequest): (r: Option<Response>)
    ensures r.None? <==>
      (req.httpMethod == "POST" && req.body.Some? && TextOk(req.body.value.text) && RatingOk(req.body.value.rating))
    ensures req.httpMethod != "POST" ==> r == Some(Response(405, ErrorBody("Method not allowed")))
    ensures r.Some? ==> r.value.status in {400, 405, 500}
  {
    if req.httpMethod != "POST" then Some(Response(405, ErrorBody("Method not allowed")))
    else if req.body.None? then Some(Response(500, ErrorBody("Internal server error")))
    else if !TextOk(req.body.value.text) then Some(Response(400, ErrorBody("Text is required")))
    else if !RatingOk(req.body.value.rating) then
      Some(Response(400, ErrorBody("Rating must be a number between 1 and 10")))
    else None
  }

  /** The text check comes before the rating check: a bad text is reported
      whatever the rating, and a bad rating only with a good text. */
  lemma ValidationOrder(req: EntryRequest)
    requires req.httpMethod == "POST" && req.body.Some?
    ensures !TextOk(req.body.value.text) ==> Rejection(req) == Some(Response(400, ErrorBody("Text is required")))
    ensures TextOk(req.body.value.text) && !RatingOk(req.body.value.rating) ==>
      Rejection(req) == Some(Response(400, ErrorBody("Rating must be a number between 1 and 10")))
  {
  }

  /** `timestamp ? new Date(timestamp) : new Date()`. None is an invalid
      date. */
  function EntryTimestamp(timestamp: Value, parseDate: Value -> Option<Date>, now: Date): (d: Option<Date>)
    ensures !Truthy(timestamp) ==> d == Some(now)
    ensures Truthy(timestamp) ==> d == parseDate(timestamp)
  {
    if Truthy(timestamp) then parseDate(timestamp) else Some(now)
  }

  /** The answer for a validated entry: 503 without a database; 500 when
      the write throws, which converting an invalid date also does;
      otherwise 201 with the new document id and the trimmed text. */
  function SaveOutcome(body: EntryBody, available: bool, parseDate: Value -> Option<Date>,
                       now: Date, written: Option<string>): Response
    requires TextOk(body.text) && RatingOk(body.rating)
  {
    var ts := EntryTimestamp(body.timestamp, parseDate, now);
    if !available then
      Response(503, ErrorWithMessage("Firebase not configured",
        "Please configure Firebase environment variables in Vercel"))
    else if ts.None? || written.None? then
      Response(500, ErrorBody("Failed to save to database"))
    else
      Response(201, CreatedBody(written.value, Trim(body.text.s), body.rating.n, ts.value))
  }

  /** The whole answer for one request, given whether a database handle
      is available once validation has passed. */
  function Respond(req: EntryRequest, available: bool, parseDate: Value -> Option<Date>,
                   now: Date, written: Option<string>): Response
  {
    match Rejection(req)
    case Some(r) => r
    case None => SaveOutcome(req.body.value, available, parseDate, now, written)
  }

  /** What each status code means, in both directions. */
  lemma RespondStatus(req: EntryRequest, available: bool, parseDate: Value -> Option<Date>,
                      now: Date, written: Option<string>)
    ensures var r := Respond(req, available, parseDate, now, written);
      && (r.status == 201 <==>
            (Rejection(req).None? && available &&
             EntryTimestamp(req.body.value.timestamp, parseDate, now).Some? && written.Some?))
      && (r.status == 503 <==> Rejection(req).None? && !available)
      && (r.status == 405 <==> req.httpMethod != "POST")
      && (r.status == 400 <==>
            (req.httpMethod == "POST" && req.body.Some? &&
             !(TextOk(req.body.value.text) && RatingOk(req.body.value.rating))))
      && r.status in {201, 400, 405, 500, 503}
  {
  }

  /** A created entry holds the posted text trimmed, which is non-blank
      without surrounding white space, the posted rating unchanged, which
      lies between 1 and 10, the chosen timestamp, and the id the database
      assigned. */
  lemma CreatedEntryShape(req: EntryRequest, available: bool, parseDate: Value -> Option<Date>,
                          now: Date, written: Option<string>)
    requires Respond(req, available, parseDate, now, written).status == 201
    ensures var b := Respond(req, available, parseDate, now, written).body;
      && b.CreatedBody?
      && b.text != [] && !IsTrimSpace(b.text[0]) && !IsTrimSpace(b.text[|b.text| - 1])
      && 1.0 <= b.rating <= 10.0
      && written == Some(b.id)
      && b.text == Trim(req.body.value.text.s)
      && b.rating == req.body.value.rating.n
      && Some(b.timestamp) == EntryTimestamp(req.body.value.timestamp, parseDate, now)
  {
    TrimSpec(req.body.value.text.s);
  }
}
