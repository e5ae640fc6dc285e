# Accomplishment journal: verified model of the core

The journal records accomplishments. Each has a text, a 1–10 impact rating and a timestamp. Entries are grouped by calendar month, and an AI text generator is asked for an "insight" about a month's entries.

This project models, in Dafny, the deterministic core behind those features.

**Month keys** (`utils/dateUtils.ts`)
- The zero-padded `YYYY-MM` key of a date.
- Splitting a key back into a year and a month.

**The month view** (`components/MonthView.tsx`)
- The distinct keys of the entries, newest first.
- The selected month. It is kept valid by the auto-select effect and stepped with "previous" and "next".
- The selected month's entries, newest first.
- Their average rating.

**The insight endpoint** (`api/insights.ts`)
- Method and configuration gating.
- Request validation in a fixed order.
- Truncation to 100 entries.
- The prompt, with entries sorted by rating and numbered.
- The count and ids it reports.
- The mapping of generator failures to status codes.
- The in-place sort that reorders the caller's array when no copy was sliced off.

**The storage service** (`services/firebase.ts`)
- Insight documents upserted under `{type}_{key}` and looked up by (key, type).
- Entries per user.
- The browser-storage fallback that prepends new entries.
- The no-database and no-user guards.

**The entry endpoint** (`api/accomplishments.ts`)
- Guard order.
- Trimmed text.
- The 1..10 rating range.
- Timestamp choice.
- The 201, 500 and 503 answers.

**The insight card** (`components/InsightCard.tsx`)
- The markdown-to-HTML rewrite: bold, then italic, then paragraph breaks, then wrapping in `<p>…</p>`.
- The relative-time cascade.
- The choice among the four views.
- The footer's "entry"/"entries".

## How the model is built

JavaScript semantics are written out where the core relies on them:
- `String(n)` for integers.
- `Number(s)` for white space and signed decimal digits. Surrounding white space is ignored, a blank string reads as 0, and any other text is NaN (`None`). See "## Left out" for the forms not covered.
- `split`, `includes`, `padStart`, and `trim` with the ECMAScript white-space and line-terminator set.
- The default `sort()` order, defined as code-point lexicographic order (see "## Left out").
- The stable `Array.prototype.sort` with a comparator. It is modelled as an insertion sort that places each element after every element whose key is at least its own, and it is proved sorted, a permutation and stable.
- Truthiness.
- `Math.floor` of a division by a positive constant, which equals Dafny's `/`.

The document database and browser storage are modelled as maps and a sequence held by the class `FirebaseService.Store`. Whether a database call succeeds is a parameter of the method.

"Now", clock readings, new document ids, the generator's result and every `toLocaleDateString` rendering are parameters as well.

Two facts about the code shape the model:
- The code has no staleness check and no year-key function. `isStale` arrives as a prop of the card.
- With no month keys, the auto-select effect leaves the selected key as it was, for example `""`.

## Model

| member | source | states |
|---|---|---|
| Decimal.NatToString | utils/dateUtils.ts:5 | `String(n)` of a natural number is non-empty and all digits. It has exactly one digit iff n < 10, and no leading zero otherwise. |
| Decimal.NatToStringRoundTrip | utils/dateUtils.ts:12 | Reading the decimal text of n back as digits gives n. |
| Decimal.IntToStringInjective | utils/dateUtils.ts:5 | Two years print the same iff they are equal, negative years included. |
| Decimal.IntToString | utils/dateUtils.ts:5 | `String(i)` of an integer. Its properties are stated by IntToStringInjective and NumberOfString. |
| Decimal.ToNumber | utils/dateUtils.ts:12 | `Number(s)`. Its properties are stated by NumberOfString, NumberIgnoresPadding, NumberOfBlank, NumberOfNonNumeric and ReadDigits. |
| Decimal.NumberOfString | utils/dateUtils.ts:12 | `Number(String(i))` is i for every integer, negative ones included. |
| Decimal.NumberIgnoresPadding | utils/dateUtils.ts:12 | White space before and after an integer's text does not change what `Number` reads. |
| Decimal.NumberOfBlank | utils/dateUtils.ts:12 | A string of white space only, the empty string included, reads as 0. |
| Decimal.NumberOfNonNumeric | utils/dateUtils.ts:12 | A string holding a character that is not a digit, sign or white space reads as NaN in the model (see Decimal.ToNumber under "## Left out"). |
| Decimal.ReadDigits | utils/dateUtils.ts:12 | A non-empty run of digits, leading zeros allowed as in "03", reads as its exact value (see Decimal.ReadDigits under "## Left out" for runs above 2^53). |
| StringOrder.Irreflexive | components/MonthView.tsx:16 | No key sorts before itself under the default `sort()` order. |
| StringOrder.Transitive | components/MonthView.tsx:16 | The default string order is transitive. |
| StringOrder.Total | components/MonthView.tsx:16 | Of two different strings, one sorts before the other. |
| StringOrder.Asymmetric | components/MonthView.tsx:16 | Two strings never sort before each other. |
| StringOrder.LessConcat | components/MonthView.tsx:16 | With equal-length first parts, concatenations compare by the first parts, then by the second. |
| StringOrder.DecimalOrder | utils/dateUtils.ts:5 | Decimal texts of equal length compare as the numbers do. |
| Strings.Split | utils/dateUtils.ts:12 | `split` yields at least one part. |
| Strings.SplitFirst | utils/dateUtils.ts:12 | Splitting cuts at the first separator: the part before it, then the split of the rest. |
| Strings.SplitNoSeparator | utils/dateUtils.ts:12 | A string without the separator splits into itself alone. |
| Strings.TrimSpec | api/accomplishments.ts:44 | `trim()` returns a slice of its input with only white space dropped at either end. Both ends of the result are non-space, and it is empty iff the input is all white space. |
| Strings.TrimPadded | api/accomplishments.ts:44 | White space around a string with non-space ends is exactly what `trim()` removes. |
| Strings.ContainsAt | api/insights.ts:110-114 | `includes(sub)` holds iff `sub` occurs at some position of the string. |
| Strings.SplitJoin | api/insights.ts:25 | Splitting a `join` on a separator that no part contains gives back the parts. |
| Strings.PadStartShape | utils/dateUtils.ts:5 | `padStart(width, fill)` is max(length, width) long, ends with the input, and is filled in front only. |
| StableSort.SortDesc | components/MonthView.tsx:30 | The stable comparator sort by descending key. Its properties are stated by SortDescSorted, SortDescPermutes, SortDescStable and SortDescLength. |
| StableSort.SortDescSorted | components/MonthView.tsx:30 | The comparator sort orders by descending key. |
| StableSort.SortDescPermutes | components/MonthView.tsx:30 | The sort is a permutation of its input. |
| StableSort.SortDescStable | components/MonthView.tsx:30 | Elements with equal keys keep their input order. |
| StableSort.SortDescLength | components/MonthView.tsx:30 | The sort keeps the length. |
| StableSort.InsertSorted | components/MonthView.tsx:30 | Inserting into a sorted list keeps it sorted. |
| StableSort.InsertPermutes | components/MonthView.tsx:30 | Insertion adds exactly the inserted element. |
| StableSort.InsertWithKey | components/MonthView.tsx:30 | Insertion puts the element after every element with an equal key. |
| StableSort.InsertAt | api/insights.ts:23 | One in-place insertion step on the array gives the same prefix as the functional insertion. |
| StableSort.SortInPlace | api/insights.ts:23 | Sorting the array in place leaves exactly the stable descending sort of its old contents. |
| DateKeys.MonthKey | utils/dateUtils.ts:4-6 | `getMonthKey`. Its properties are stated by MonthKeyShape, MonthKeyInjective, MonthKeyOrder and the parse lemmas. |
| DateKeys.ParseMonthKey | utils/dateUtils.ts:12 | `key.split('-').map(Number)`, first two parts. Its properties are stated by ParseRoundTrip and ParseNegativeYear. |
| DateKeys.FormatMonthLabel | utils/dateUtils.ts:11-15 | `formatMonthLabel`, which api/insights.ts:9-13 repeats. The parsed numbers go to the locale renderer, a parameter. |
| DateKeys.MonthPartDigits | utils/dateUtils.ts:5 | The month part is two digits whose value is month index + 1. |
| DateKeys.MonthKeyShape | utils/dateUtils.ts:5 | The key is the year's decimal text, "-", then the two-character month "01".."12". |
| DateKeys.MonthKeyInjective | utils/dateUtils.ts:5 | Two dates share a key iff they share year and month. |
| DateKeys.ParseRoundTrip | utils/dateUtils.ts:12-13 | For year ≥ 0, splitting a key and parsing its parts gives back (year, month index + 1). |
| DateKeys.ParseNegativeYear | utils/dateUtils.ts:12-13 | For a negative year the leading "-" makes the parse (0, -year). |
| DateKeys.ParseUndashed | utils/dateUtils.ts:12 | A key "y-m" with no other "-" parses as the numbers of y and m. |
| DateKeys.ParseDashed | utils/dateUtils.ts:12 | A key "-y-m" parses as year 0 and month `Number(y)`. |
| DateKeys.MonthKeyLength | utils/dateUtils.ts:2-5 | A four-digit year gives a seven-character key. |
| DateKeys.MonthKeyOrder | utils/dateUtils.ts:5 | For non-negative years with equal digit counts, key order is (year, month) order, in both directions. |
| DateKeys.MonthPartOrder | utils/dateUtils.ts:5 | Month parts compare, and are equal, exactly as the month indices do. |
| Months.KeysOfMembers | components/MonthView.tsx:14-15 | A key is collected iff some entry's date has it. |
| Months.DistinctKeys | components/MonthView.tsx:14-16 | Collecting into a set gives each entry's key once and nothing else. |
| Months.InsertAscendingSpec | components/MonthView.tsx:16 | Inserting a new key into an ascending list keeps it strictly ascending, with exactly one more member. |
| Months.SortKeys | components/MonthView.tsx:16 | `sort()` of distinct keys is strictly ascending with the same members. |
| Months.Reverse | components/MonthView.tsx:16 | `reverse()` puts element i at position n-1-i. |
| Months.ReverseMembers | components/MonthView.tsx:16 | Reversing keeps the members. |
| Months.DescendingDistinct | components/MonthView.tsx:16 | A strictly descending list has no repeats. |
| Months.BuildMonthKeys | components/MonthView.tsx:13-17 | `monthKeys` is strictly descending and repeat-free, and holds exactly the entries' keys. |
| Months.InMonth | components/MonthView.tsx:28-29 | The month filter. Its property is stated by InMonthMembers. |
| Months.CurrentItems | components/MonthView.tsx:27-31 | `currentItems`. Its properties are stated by CurrentItemsSpec. |
| Months.InMonthMembers | components/MonthView.tsx:28-29 | The filter keeps exactly the entries with the selected key, each as often as in the input. |
| Months.CurrentItemsSpec | components/MonthView.tsx:27-31 | `currentItems` holds exactly the selected month's entries. They are newest first, and equal timestamps keep input order. |
| Months.RatingSumBounds | components/MonthView.tsx:47 | With ratings in 1..10 the sum lies between the count and ten times the count. |
| Months.Mean | components/MonthView.tsx:46-48 | The guarded division. Its properties are stated by MeanBetween. |
| Months.AverageRating | components/MonthView.tsx:46-48 | `averageRating`. Its bounds are stated by AverageRatingBounds. |
| Months.MeanBetween | components/MonthView.tsx:46-48 | The mean is 0 with no entries. Times the count it gives back the sum, and with the sum in range it lies in [1, 10]. |
| Months.AverageRatingBounds | components/MonthView.tsx:46-48 | `averageRating` is 0 for an empty month, and otherwise in [1, 10] for slider ratings. |
| Months.IndexOf | components/MonthView.tsx:34 | `indexOf` is -1 for an absent key, and otherwise the first position holding it. |
| Months.AutoSelect | components/MonthView.tsx:20-24 | With keys present, an invalid selection becomes the newest key and a valid one stays. With no keys, the selection is unchanged. |
| Months.HasPrev | components/MonthView.tsx:35 | `hasPrev`. Its meaning is stated by NavigationMeaning. |
| Months.HasNext | components/MonthView.tsx:36 | `hasNext`. Its meaning is stated by NavigationMeaning. |
| Months.StepPrev | components/MonthView.tsx:38-40 | The key `goToPrev` selects. Its properties are stated by StepStaysInKeys and StepRoundTrip. |
| Months.StepNext | components/MonthView.tsx:41-43 | The key `goToNext` selects. Its properties are stated by StepStaysInKeys and StepRoundTrip. |
| Months.NavigationMeaning | components/MonthView.tsx:34-36 | For a selected key, "previous" is enabled iff an older key exists and "next" iff a newer one does. |
| Months.StepStaysInKeys | components/MonthView.tsx:34-43 | Stepping keeps a valid selection in the list. From an absent key with keys present, "previous" is enabled and selects the newest key, and "next" is disabled. |
| Months.StepRoundTrip | components/MonthView.tsx:38-43 | On distinct keys, from a key in the list, "previous" then "next" returns to the start, and vice versa. |
| Months.MonthView.constructor | components/MonthView.tsx:10-24 | The first render with the selection `""` followed by the effect gives a valid state. |
| Months.MonthView.SyncSelection | components/MonthView.tsx:20-24 | The effect sets the selection to the auto-selected key and restores validity. |
| Months.MonthView.SetItems | components/MonthView.tsx:13-24 | New entries recompute the keys, then the effect runs. |
| Months.MonthView.GoToPrev | components/MonthView.tsx:38-40 | The selection moves one key older when enabled, and stays valid. |
| Months.MonthView.GoToNext | components/MonthView.tsx:41-43 | The selection moves one key newer when enabled, and stays valid. |
| InsightsApi.Rejection | api/insights.ts:50-86 | Preflight gives 200, another non-POST 405, and no AI key 503. A body that cannot be destructured goes to the catch block with the thrown error, and a malformed body gives 400. The request goes on iff it is a POST, the key is configured and the body is present and well formed. |
| InsightsApi.UnreadableBody | api/insights.ts:108-124 | On the unreadable-body path, an error that mentions neither "API key" nor "quota" (a destructuring TypeError or a parse error) gives 500 with the error's message. |
| InsightsApi.BodyRejection | api/insights.ts:72-86 | The four body checks pass iff the body is well formed, and each failure is a 400. |
| InsightsApi.GatingIgnoresBody | api/insights.ts:51-66 | Preflight, method and configuration answers do not depend on the body. |
| InsightsApi.ValidationOrder | api/insights.ts:72-86 | The first failing body check, in the handler's order, decides the exact 400 message. This holds for each of the four checks, including "Timeframe key required". |
| InsightsApi.Truncate | api/insights.ts:89-92 | The entries sent on are the first min(n, 100), a prefix of the request list. |
| InsightsApi.Line | api/insights.ts:24 | One prompt line. Its use is stated by NumberedLinesAt. |
| InsightsApi.NumberedLinesAt | api/insights.ts:24 | Line i is "i+1. [Impact: r/10] text" for entry i. |
| InsightsApi.PromptOrder | api/insights.ts:22-25 | The prompt lists all entries, by rating, highest first, with equal ratings in request order. |
| InsightsApi.TimeframeLabel | api/insights.ts:21 | A year key as is, a month key through `formatMonthLabel`. It is used by BuildInsightPrompt. |
| InsightsApi.PromptText | api/insights.ts:27-38 | The prompt template around the numbered lines. Its list part is stated by NumberedLinesAt and PromptOrder. |
| InsightsApi.BuildInsightPrompt | api/insights.ts:16-39 | The array passed in is left sorted. The prompt is built from it, with the header count equal to its length. |
| InsightsApi.Ids | api/insights.ts:105 | `map(a => a.id)` keeps length and position. |
| InsightsApi.IdsOfSortPermute | api/insights.ts:23 | Sorting does not change the multiset of ids. |
| InsightsApi.ReturnedIds | api/insights.ts:89-105 | The reported ids are those of all n request entries. Up to 100 entries they come back in rating order, because the request array was sorted in place. Beyond 100 they keep request order. |
| InsightsApi.ErrorResponse | api/insights.ts:108-124 | A message containing "API key" gives 401. Otherwise one containing "quota" gives 429. Otherwise 500 carries the message, or "Unknown error occurred". |
| InsightsApi.Outcome | api/insights.ts:96-124 | 200 with the insight, count and ids, or the catch block's mapping. Its error part is stated by ErrorResponse. |
| InsightsApi.Slice | api/insights.ts:90-91 | `slice(0, 100)` is a fresh array holding the prefix. |
| InsightsApi.Handle | api/insights.ts:41-125 | A rejected request gets its early answer with the array untouched. This includes a body that cannot be destructured, answered through the catch block. Otherwise the prompt holds the sorted truncated entries. The answer carries the untruncated count and ids of the array as the prompt builder left it. |
| FirebaseService.InsightId | services/firebase.ts:287-288 | The document id `{type}_{key}`. Its injectivity is stated by InsightIdInjective. |
| FirebaseService.FindInsight | services/firebase.ts:243-264 | The lookup by composite id. Its meaning is stated by FindInsightAnswersQuery and SaveThenFind. |
| FirebaseService.InsightIdInjective | services/firebase.ts:287-289 | Distinct (type, key) pairs get distinct document ids. |
| FirebaseService.ToInsight | services/firebase.ts:255-264 | A read record copies the document's fields, and a missing id list reads as []. |
| FirebaseService.FindInsightAnswersQuery | services/firebase.ts:243-264 | The lookup by composite id finds a record iff the user has a document with that key and type, and the record carries them. |
| FirebaseService.SavedDoc | services/firebase.ts:291-298 | The stored count is the id list's length, and the ids are stored as passed. |
| FirebaseService.SaveThenFind | services/firebase.ts:284-300 | After a write the pair reads back as written, and every other (user, key, type) reads as before. |
| FirebaseService.ResolveUser | services/firebase.ts:145 | A non-empty passed user id wins. Otherwise a non-empty signed-in uid is used, and otherwise there is no user. An empty id counts as none. |
| FirebaseService.Store.constructor | services/firebase.ts:38-53 | The database is available only when configured and initialisation succeeded, and auth goes with it. |
| FirebaseService.Store.SaveAccomplishment | services/firebase.ts:131-183 | With a database: no user is an error, a failed write is an error, and otherwise the entry is added under the new id. Without one: the entry, its id the clock reading, is prepended to the stored list. |
| FirebaseService.Store.GetAccomplishments | services/firebase.ts:185-228 | With a database: [] without a user or on a failed read, otherwise the user's entries newest first. Without one: the stored list, or []. |
| FirebaseService.Store.GetInsight | services/firebase.ts:232-269 | null without a database, a user or a successful read. Otherwise the user's record for that key and type. |
| FirebaseService.Store.SaveInsight | services/firebase.ts:271-311 | null and no write without a database, a user or a successful write. Otherwise the document `{type}_{key}` is overwritten and the record returned. |
| AccomplishmentsApi.Rejection | api/accomplishments.ts:36-57 | Non-POST gives 405, an unreadable body 500, a bad text or rating 400. The entry goes on iff the text trims non-empty and the rating is a number in [1, 10]. |
| AccomplishmentsApi.ValidationOrder | api/accomplishments.ts:44-57 | A bad text is reported whatever the rating, and a bad rating only with a good text. |
| AccomplishmentsApi.EntryTimestamp | api/accomplishments.ts:60 | A truthy timestamp is parsed, otherwise "now" is used. |
| AccomplishmentsApi.SaveOutcome | api/accomplishments.ts:59-91 | The answer for a validated entry. Its meaning is stated by RespondStatus and CreatedEntryShape. |
| AccomplishmentsApi.Respond | api/accomplishments.ts:31-96 | The whole handler. Its meaning is stated by RespondStatus and CreatedEntryShape. |
| AccomplishmentsApi.RespondStatus | api/accomplishments.ts:31-96 | 201 iff valid, a database, a valid date and a write. 503 iff valid without a database. 405 iff not POST. 400 iff a POST body fails validation. |
| AccomplishmentsApi.CreatedEntryShape | api/accomplishments.ts:60-80 | A created entry holds the trimmed posted text, which is non-blank with non-space ends. It also holds the posted rating unchanged, which lies in [1, 10], the supplied timestamp or "now", and the database's id. |
| InsightCard.FormatMarkdown | components/InsightCard.tsx:14-21 | The output starts with "<p>" and ends with "</p>". |
| InsightCard.ReplaceDelimited | components/InsightCard.tsx:16-17 | One global lazy-regex replace. Its properties are stated by DelimitedSpan, ReplaceDelimitedIdentity, BoldText and ItalicText. |
| InsightCard.ReplaceAll | components/InsightCard.tsx:18 | The global literal replace of "\n\n". Its properties are stated by ReplaceAllIdentity, BlankLinesReplaced and TwoParagraphs. |
| InsightCard.CloseAt | components/InsightCard.tsx:16-17 | The lazy `(.*?)` ends where the closing delimiter sits. |
| InsightCard.CloseAtShortest | components/InsightCard.tsx:16-17 | The match is the shortest one and crosses no line terminator. |
| InsightCard.ReplaceDelimitedIdentity | components/InsightCard.tsx:16-17 | Text with no occurrence of the delimiter is left unchanged. |
| InsightCard.ReplaceAllIdentity | components/InsightCard.tsx:18 | Text with no blank line is left unchanged. |
| InsightCard.DelimitedSpan | components/InsightCard.tsx:16-17 | A delimited span becomes its tags, and rewriting resumes after it. |
| InsightCard.PlainText | components/InsightCard.tsx:14-21 | Text with no "*" and no "\n\n" comes back only wrapped in "<p>…</p>". |
| InsightCard.BoldText | components/InsightCard.tsx:16-17 | `**w**` becomes `<strong>w</strong>` and not emphasis, because the bold rule runs first. |
| InsightCard.ItalicText | components/InsightCard.tsx:16-17 | `*w*` becomes `<em>w</em>` for any single-line w without a star, the empty `**` included: it is no bold match and becomes `<em></em>`. |
| InsightCard.TwoParagraphs | components/InsightCard.tsx:18-20 | A blank line between plain paragraphs becomes "</p><p>". |
| InsightCard.BlankLinesReplaced | components/InsightCard.tsx:18 | No "\n\n" is left after the paragraph rewrite. |
| InsightCard.FormatRelativeTime | components/InsightCard.tsx:24-36 | `formatRelativeTime`. Its bands are stated by RelativeTimeBands. |
| InsightCard.RelativeTimeBands | components/InsightCard.tsx:24-36 | Under 1 min: "just now". Then whole minutes 1..59, whole hours 1..23, whole days 1..6, with "day" iff exactly one day. From 7 days: the locale date. |
| InsightCard.EntryWord | components/InsightCard.tsx:168-169 | The noun is "entry" iff the count is 1. The month header uses the same rule. |
| InsightCard.View | components/InsightCard.tsx:48-172 | The rendered view. Its choice is stated by ViewChoice. |
| InsightCard.ViewChoice | components/InsightCard.tsx:48-127 | Loading wins. No insight and no entries shows nothing, and no insight shows the generate prompt. Otherwise the populated card is shown, and it is the only view with the stale note. |

## Left out

- Decimal.ToNumber and Decimal.NumberOfNonNumeric: the model reads only white space, signs and decimal digits. `Number` also reads a decimal fraction ("3.0" is 3), an exponent ("1e1" is 10), "Infinity", and "0x", "0o" and "0b" prefixes. The insight endpoint passes any non-empty posted `timeframeKey` to `formatMonthLabel`, so it can receive these strings. The model reads them as NaN, and only the locale renderer, a parameter, sees the difference.

- Decimal.ReadDigits, Decimal.NumberOfString and Decimal.ToNumber read a digit run as its exact integer. `Number` returns a double, so a run above 2^53 is rounded to the nearest one (`Number("9007199254740993")` is 9007199254740992). Month keys and years within the range of `Date` are far below that bound.
- Firebase and Firestore SDK calls, module initialisation, and sign-in, sign-up and sign-out: success or failure is a parameter. `onAuthStateChange`, and auth state changing between calls, are not modelled.
- The lazily initialised, memoised database handle of the entry endpoint: its availability is a parameter of `AccomplishmentsApi.Respond`.
- The JSON encoding of browser storage and the 600 ms simulated delay. Stored entries are kept as values.
- The generator calls (services/gemini.ts is not part of this model). The generated text or failure message is a parameter.
- Locale and time zone. `toLocaleDateString` renderings are uninterpreted parameters. A date is its local year, month index and milliseconds, and nothing ties the calendar fields to the milliseconds.
- `averageRating.toFixed(1)`, floating-point display rounding. Averages are exact rationals.
- CORS headers, JSX and styling, and the card's expand toggle.
- components/AuthButton.tsx, components/AccomplishmentList.tsx, components/InputForm.tsx and App.tsx are UI glue and are not part of this model.
- Overlapping asynchronous saves and requests (concurrency).
- `new Date(year, month - 1)` with NaN or years 0–99 in `formatMonthLabel`: only the parse that feeds it is modelled.
- Strings.Trim and StringOrder.Less work on code points, while JavaScript compares UTF-16 code units. They differ only for characters outside the Basic Multilingual Plane.
- Decimal.NatToString does not model exponent notation for numbers of 1e21 and above.
- Http.Value numbers are exact reals. JSON cannot carry NaN, and a too-large literal such as 1e400 parses to Infinity, which takes the same path as a large finite value, so neither is modelled. A posted rating of NaN would pass the range check in api/accomplishments.ts:48-53.
- InsightsApi.Handle takes posted entries with integer ratings and an id and text each. Entries of other shapes, and non-integer ratings in the comparator, are not modelled.
- InsightsApi.Handle does not model a response whose `text()` throws after generation. It is answered like any other failure.
- FirebaseService.Store.GetAccomplishments states only that the result is the user's entries, newest first. The database leaves the order among equal timestamps unspecified, so the contract does not fix it.
- FirebaseService.Store.SaveInsight and FirebaseService.Store.GetInsight take the stored and returned `generatedAt` as two separate clock readings in milliseconds. The Firestore `Timestamp` conversion is not modelled.
