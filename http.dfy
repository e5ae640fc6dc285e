/** The request and response shapes of the two serverless handlers. */
module Http {
  import opened Types

  /** An accomplishment as the client posts it for insight generation. */
  datatype PostedEntry = PostedEntry(id: string, text: string, rating: int)

  function PostedRating(e: PostedEntry): int {
    e.rating
  }

  /** A value read from a parsed JSON request body. JSON has no NaN, so a
      number is an exact real; an array is the array of posted entries the
      handler may sort in place. */
  datatype Value =
    | Undefined
    | Null
    | Bool(b: bool)
    | Num(n: real)
    | Str(s: string)
    | Entries(items: array<PostedEntry>)
    | Object

  /** JavaScript truthiness. */
  predicate Truthy(v: Value) {
    match v
    case Undefined => false
    case Null => false
    case Bool(b) => b
    case Num(n) => n != 0.0
    case Str(s) => s != ""
    case Entries(_) => true
    case Object => true
  }

  datatype ResponseBody =
    | NoBody
    | ErrorBody(error: string)
    | ErrorWithMessage(error: string, message: string)
    | InsightBody(insight: string, accomplishmentCount: nat, accomplishmentIds: seq<string>)
    | CreatedBody(id: string, text: string, rating: real, timestamp: Date)

  /** `res.status(status).json(body)`, or `.end()` for `NoBody`. */
  datatype Response = Response(status: int, body: ResponseBody)
}
