/** The insight endpoint: method and configuration gating, request
    validation, truncation to 100 entries, the prompt, and the mapping of
    generation failures to status codes. The text generator is a parameter. */
module InsightsApi {
  import opened Wrappers
  import opened Decimal
  import opened Strings
  import opened DateKeys
  import opened StableSort
  import opened Http

  const MaxAccomplishments: nat := 100

  /** The destructured body fields; a missing field reads as `Undefined`. */
  datatype InsightFields = InsightFields(accomplishments: Value, timeframeType: Value, timeframeKey: Value)

  /** `body` is None when `req.body` is undefined or null, or reading it
      fails: destructuring it then throws inside the `try`. */
  datatype InsightRequest = InsightRequest(httpMethod: string, body: Option<InsightFields>)

  /** What the generator call produced: the insight text, or a thrown
      error whose `message` may be missing. */
  datatype Generation = Generated(text: string) | Failed(message: Option<string>)

  /** The request body the handler goes on to use, with every check stated
      on its own, independent of the order the handler checks them in. */
  predicate WellFormed(body: InsightFields) {
    && body.accomplishments.Entries?
    && body.accomplishments.items.Length > 0
    && (body.timeframeType == Str("month") || body.timeframeType == Str("year"))
    && body.timeframeKey.Str? && body.timeframeKey.s != ""
  }

  /** The early returns, in the order the handler takes them: preflight,
      method, configuration, a body that cannot be destructured (the error
      `thrown` goes to the catch block), then the four body checks. None
      means the request goes on to generation. The errors that reach the
      catch block on the unreadable-body path, a TypeError from destructuring
      a missing body or a body-parse error, mention neither "API key" nor
      "quota", so only its 500 branch is reachable there (UnreadableBody). */
  function Rejection(req: InsightRequest, aiConfigured: bool, thrown: string): (r: Option<Response>)
    ensures r.None? <==>
      (req.httpMethod == "POST" && aiConfigured && req.body.Some? && WellFormed(req.body.value))
    ensures req.httpMethod == "OPTIONS" ==> r == Some(Response(200, NoBody))
    ensures req.httpMethod != "OPTIONS" && req.httpMethod != "POST" ==>
      r == Some(Response(405, ErrorBody("Method not allowed")))
    ensures req.httpMethod == "POST" && !aiConfigured ==> r.Some? && r.value.status == 503
    ensures req.httpMethod == "POST" && aiConfigured && req.body.None? ==>
      r == Some(ErrorResponse(Some(thrown)))
    ensures req.httpMethod == "POST" && aiConfigured && req.body.Some? && !WellFormed(req.body.value) ==>
      r.Some? && r.value.status == 400
  {
    if req.httpMethod == "OPTIONS" then Some(Response(200, NoBody))
    else if req.httpMethod != "POST" then Some(Response(405, ErrorBody("Method not allowed")))
    else if !aiConfigured then
      Some(Response(503, ErrorWithMessage("AI service not configured",
        "Please configure GOOGLE_AI_API_KEY environment variable in Vercel")))
    else if req.body.None? then Some(ErrorResponse(Some(thrown)))
    else BodyRejection(req.body.value)
  }

  /** A body that cannot be read, with an error that mentions neither an API
      key nor a quota, is answered with 500 carrying the error's message. */
  lemma UnreadableBody(req: InsightRequest, thrown: string)
    requires req.httpMethod == "POST" && req.body.None?
    requires !Contains(thrown, "API key") && !Contains(thrown, "quota")
    ensures var r := Rejection(req, true, thrown);
      && r.Some? && r.value.status == 500
      && r.value.body == ErrorWithMessage("Failed to generate insight",
        if thrown != "" then thrown else "Unknown error occurred")
  {
  }

  /** The four body checks, in the handler's order. */
  function BodyRejection(body: InsightFields): (r: Option<Response>)
    ensures r.None? <==> WellFormed(body)
    ensures r.Some? ==> r.value.status == 400
  {
    if !Truthy(body.accomplishments) || !body.accomplishments.Entries? then
      Some(Response(400, ErrorBody("Accomplishments array required")))
    else if body.accomplishments.items.Length == 0 then
      Some(Response(400, ErrorBody("Cannot generate insight for empty accomplishments")))
    else if !Truthy(body.timeframeType) || !(body.timeframeType == Str("month") || body.timeframeType == Str("year")) then
      Some(Response(400, ErrorBody("Invalid timeframe type. Must be \"month\" or \"year\"")))
    else if !Truthy(body.timeframeKey) || !body.timeframeKey.Str? then
      Some(Response(400, ErrorBody("Timeframe key required")))
    else None
  }

  /** Preflight, method and configuration are decided before the body is
      looked at: two requests with the same method get the same answer. */
  lemma GatingIgnoresBody(req1: InsightRequest, req2: InsightRequest, aiConfigured: bool, thrown: string)
    requires req1.httpMethod == req2.httpMethod
    requires req1.httpMethod != "POST" || !aiConfigured
    ensures Rejection(req1, aiConfigured, thrown) == Rejection(req2, aiConfigured, thrown)
  {
  }

  /** The first failing body check decides the 400 message, whatever the
      later fields hold. */
  lemma ValidationOrder(req: InsightRequest, thrown: string)
    requires req.httpMethod == "POST" && req.body.Some?
    ensures var b := req.body.value;
      !b.accomplishments.Entries? ==>
      Rejection(req, true, thrown) == Some(Response(400, ErrorBody("Accomplishments array required")))
    ensures var b := req.body.value;
      b.accomplishments.Entries? && b.accomplishments.items.Length == 0 ==>
      Rejection(req, true, thrown) == Some(Response(400, ErrorBody("Cannot generate insight for empty accomplishments")))
    ensures var b := req.body.value;
      b.accomplishments.Entries? && b.accomplishments.items.Length > 0 &&
      b.timeframeType != Str("month") && b.timeframeType != Str("year") ==>
      Rejection(req, true, thrown) == Some(Response(400, ErrorBody("Invalid timeframe type. Must be \"month\" or \"year\"")))
    ensures var b := req.body.value;
      b.accomplishments.Entries? && b.accomplishments.items.Length > 0 &&
      (b.timeframeType == Str("month") || b.timeframeType == Str("year")) &&
      !(b.timeframeKey.Str? && b.timeframeKey.s != "") ==>
      Rejection(req, true, thrown) == Some(Response(400, ErrorBody("Timeframe key required")))
  {
  }

  /** `accomplishments.length > 100 ? accomplishments.slice(0, 100) :
      accomplishments`: the first min(n, 100) entries, in request order. */
  function Truncate(s: seq<PostedEntry>): (r: seq<PostedEntry>)
    ensures |r| == if |s| > MaxAccomplishments then MaxAccomplishments else |s|
    ensures r == s[..|r|]
  {
    if |s| > MaxAccomplishments then s[..MaxAccomplishments] else s
  }

  /** `${i + 1}. [Impact: ${a.rating}/10] ${a.text}` */
  function Line(n: nat, e: PostedEntry): string {
    NatToString(n) + ". [Impact: " + IntToString(e.rating) + "/10] " + e.text
  }

  /** `.map((a, i) => ...)`, counting from `start`. */
  function NumberedLines(s: seq<PostedEntry>, start: nat): (lines: seq<string>)
    ensures |lines| == |s|
  {
    if s == [] then [] else [Line(start, s[0])] + NumberedLines(s[1..], start + 1)
  }

  /** Line i of the list is entry i under the number start + i. */
  lemma {:induction false} NumberedLinesAt(s: seq<PostedEntry>, start: nat)
    ensures forall i :: 0 <= i < |s| ==> NumberedLines(s, start)[i] == Line(start + i, s[i])
  {
    if s != [] {
      NumberedLinesAt(s[1..], start + 1);
      var lines := NumberedLines(s, start);
      forall i | 0 <= i < |s| ensures lines[i] == Line(start + i, s[i]) {
        if i > 0 {
          assert lines[i] == NumberedLines(s[1..], start + 1)[i - 1];
          assert s[1..][i - 1] == s[i];
        }
      }
    }
  }

  /** `type === 'year' ? key : formatMonthLabel(key)`. */
  function TimeframeLabel(timeframeType: string, key: string, render: (Option<int>, Option<int>) -> string): string {
    if timeframeType == "year" then key else FormatMonthLabel(key, render)
  }

  const PromptOpening: string :=
    "You are an insightful career coach analyzing someone's accomplishments for "

  const PromptInstructions: string :=
    "Please provide a thoughtful, encouraging analysis in 3-4 paragraphs that:\n" +
    "1. Identifies patterns and themes across their accomplishments\n" +
    "2. Highlights their highest-impact work (ratings 8-10)\n" +
    "3. Notes areas of growth or consistent focus\n" +
    "4. Offers one actionable insight or suggestion for the next period\n\n" +
    "Keep the tone warm, professional, and motivating. Use markdown formatting for readability."

  /** The prompt text around the numbered lines of already sorted entries. */
  function PromptText(timeframeLabel: string, sorted: seq<PostedEntry>): string {
    PromptOpening + timeframeLabel + ".\n\n" +
    "Accomplishments (" + NatToString(|sorted|) + " total):\n" +
    Join(NumberedLines(sorted, 1), "\n") + "\n\n" +
    PromptInstructions
  }

  /** The entries as the prompt lists them: all of them, by rating,
      highest first, equal ratings in request order. */
  lemma PromptOrder(entries: seq<PostedEntry>)
    ensures var sorted := SortDesc(entries, PostedRating);
      && |sorted| == |entries|
      && multiset(sorted) == multiset(entries)
      && SortedDesc(sorted, PostedRating)
      && (forall r :: WithKey(sorted, PostedRating, r) == WithKey(entries, PostedRating, r))
  {
    var sorted := SortDesc(entries, PostedRating);
    SortDescLength(entries, PostedRating);
    SortDescPermutes(entries, PostedRating);
    SortDescSorted(entries, PostedRating);
    forall r ensures WithKey(sorted, PostedRating, r) == WithKey(entries, PostedRating, r) {
      SortDescStable(entries, PostedRating, r);
    }
  }

  /** `buildInsightPrompt`: sorts the array it is given in place, then
      builds the prompt from it. */
  method BuildInsightPrompt(a: array<PostedEntry>, timeframeType: string, key: string,
                            render: (Option<int>, Option<int>) -> string) returns (prompt: string)
    modifies a
    ensures a[..] == SortDesc(old(a[..]), PostedRating)
    ensures prompt == PromptText(TimeframeLabel(timeframeType, key, render), a[..])
  {
    var timeframeLabel := TimeframeLabel(timeframeType, key, render);
    SortInPlace(a, PostedRating);
    prompt := PromptText(timeframeLabel, a[..]);
  }

  /** `accomplishments.map((a) => a.id)`. */
  function Ids(s: seq<PostedEntry>): (ids: seq<string>)
    ensures |ids| == |s| && forall i :: 0 <= i < |s| ==> ids[i] == s[i].id
  {
    if s == [] then [] else [s[0].id] + Ids(s[1..])
  }

  lemma IdsConcat(s: seq<PostedEntry>, t: seq<PostedEntry>)
    ensures Ids(s + t) == Ids(s) + Ids(t)
  {
  }

  lemma IdsOfInsert(t: seq<PostedEntry>, x: PostedEntry)
    ensures multiset(Ids(Insert(t, x, PostedRating))) == multiset(Ids(t)) + multiset{x.id}
  {
    var p := InsertPos(t, x, PostedRating);
    assert t == t[..p] + t[p..];
    IdsConcat(t[..p], t[p..]);
    IdsConcat(t[..p] + [x], t[p..]);
    IdsConcat(t[..p], [x]);
  }

  lemma {:induction false} IdsOfSortPermute(s: seq<PostedEntry>)
    ensures multiset(Ids(SortDesc(s, PostedRating))) == multiset(Ids(s))
  {
    if s != [] {
      var init, last := s[..|s| - 1], s[|s| - 1];
      assert s == init + [last];
      IdsOfSortPermute(init);
      IdsOfInsert(SortDesc(init, PostedRating), last);
      IdsConcat(init, [last]);
      calc {
        multiset(Ids(SortDesc(s, PostedRating)));
        multiset(Ids(Insert(SortDesc(init, PostedRating), last, PostedRating)));
        multiset(Ids(SortDesc(init, PostedRating))) + multiset{last.id};
        multiset(Ids(init)) + multiset{last.id};
        multiset(Ids(init) + Ids([last]));
        multiset(Ids(s));
      }
    }
  }

  /** The request array after the prompt was built: sorted in place when it
      was passed on whole, untouched when a copy was sliced off. */
  function AfterPrompt(s: seq<PostedEntry>): seq<PostedEntry> {
    if |s| <= MaxAccomplishments then SortDesc(s, PostedRating) else s
  }

  /** The ids returned are those of every request entry, each as often as
      in the request; up to 100 entries they come back in rating order,
      beyond that in request order. */
  lemma ReturnedIds(s: seq<PostedEntry>)
    ensures multiset(Ids(AfterPrompt(s))) == multiset(Ids(s))
    ensures |Ids(AfterPrompt(s))| == |s|
    ensures |s| > MaxAccomplishments ==> Ids(AfterPrompt(s)) == Ids(s)
    ensures |s| <= MaxAccomplishments ==> Ids(AfterPrompt(s)) == Ids(SortDesc(s, PostedRating))
  {
    IdsOfSortPermute(s);
    SortDescLength(s, PostedRating);
  }

  /** The catch block: "API key" in the message gives 401, otherwise
      "quota" gives 429, otherwise 500 carrying the message (or a default
      when the message is missing or empty). */
  function ErrorResponse(message: Option<string>): (r: Response)
    ensures r.status == 401 <==> message.Some? && Contains(message.value, "API key")
    ensures r.status == 429 <==> message.Some? && !Contains(message.value, "API key") && Contains(message.value, "quota")
    ensures r.status in {401, 429, 500}
    ensures r.status == 500 ==>
      r.body.ErrorWithMessage? && r.body.message == (if message.Some? && message.value != "" then message.value else "Unknown error occurred")
  {
    if message.Some? && Contains(message.value, "API key") then
      Response(401, ErrorBody("Invalid API key"))
    else if message.Some? && Contains(message.value, "quota") then
      Response(429, ErrorBody("API quota exceeded. Please try again later."))
    else
      Response(500, ErrorWithMessage("Failed to generate insight",
        if message.Some? && message.value != "" then message.value else "Unknown error occurred"))
  }

  /** The response once the generator has been called: the insight with
      the count and ids of the whole request, or the mapped error. */
  function Outcome(g: Generation, count: nat, ids: seq<string>): Response {
    match g
    case Generated(text) => Response(200, InsightBody(text, count, ids))
    case Failed(message) => ErrorResponse(message)
  }

  /** `arr.slice(0, 100)`: a fresh array holding the first 100 entries. */
  method Slice(a: array<PostedEntry>) returns (b: array<PostedEntry>)
    requires a.Length > MaxAccomplishments
    ensures fresh(b) && b[..] == Truncate(a[..])
  {
    b := new PostedEntry[MaxAccomplishments](i requires 0 <= i < MaxAccomplishments reads a => a[i]);
  }

  /** The posted array the handler may sort in place, if there is one. */
  function Posted(req: InsightRequest): set<array<PostedEntry>> {
    if req.body.Some? && req.body.value.accomplishments.Entries? then {req.body.value.accomplishments.items} else {}
  }

  /** The handler. The request array is sorted in place when it is not
      truncated, so the ids returned follow the prompt's order then. */
  method Handle(req: InsightRequest, aiConfigured: bool, thrown: string,
                render: (Option<int>, Option<int>) -> string,
                generate: string -> Generation) returns (resp: Response)
    modifies Posted(req)
    ensures Rejection(req, aiConfigured, thrown).Some? ==> resp == Rejection(req, aiConfigured, thrown).value
    ensures Rejection(req, aiConfigured, thrown).Some? ==> unchanged(Posted(req))
    ensures Rejection(req, aiConfigured, thrown).None? ==>
      var b := req.body.value;
      var a := b.accomplishments.items;
      var sent := SortDesc(Truncate(old(a[..])), PostedRating);
      && a[..] == AfterPrompt(old(a[..]))
      && resp == Outcome(
           generate(PromptText(TimeframeLabel(b.timeframeType.s, b.timeframeKey.s, render), sent)),
           a.Length, Ids(AfterPrompt(old(a[..]))))
  {
    var rejected := Rejection(req, aiConfigured, thrown);
    if rejected.Some? {
      return rejected.value;
    }
    var b := req.body.value;
    var a := b.accomplishments.items;
    var target := a;
    if a.Length > MaxAccomplishments {
      target := Slice(a);
    }
    var prompt := BuildInsightPrompt(target, b.timeframeType.s, b.timeframeKey.s, render);
    var g := generate(prompt);
    resp := Outcome(g, a.Length, Ids(a[..]));
  }
}
