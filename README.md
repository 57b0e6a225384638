# netflix_critic — a verified model of its core

netflix_critic enriches the titles a user sees on Netflix with third-party
ratings. A browser extension collects the ids of titles it has no data for
and posts them in batches to a web server. The server fetches each title's
detail page and extracts the page's embedded metadata. Unless that metadata
is empty, it looks the title up on a search upstream for ratings. It streams
one server-sent event per finished title back to the extension and, when the
stream ends, persists what it accumulated. Two small utilities complete the
core:

- the extension's duration formatter;
- a time-window filter used when plotting request logs.

This project models those parts in Dafny and proves what they promise.

| module | file | models |
|---|---|---|
| `Wrappers` | wrappers.dfy | `Option` |
| `TimeFormat` | time_format.dfy | `formatTimeWithoutSeconds` (utils.js), together with a reader for its output |
| `TimeRange` | time_range.dfy | `filter_for_time_range` (scripts/throwaway/viz.py) |
| `Enrichment` | enrichment.dfy | the per-title task of webserver/app.py: status check, degradation to `[]`, the search short-circuit, the result shape, and `find_google_users_rating` |
| `EventStream` | event_stream.dfy | the `data: …\n\n` frame, and the receiving side of section 9.2 of the WHATWG HTML Living Standard ("Server-sent events"), for LF line endings and the `data` field |
| `RatingsStream` | ratings_stream.dfy | the drain loop of `stream_ratings` and its `finally` persistence, plus what a client of the stream reads back |
| `Background` | background.dfy | the extension's service worker (extension-core/background.js) as a class: pending-id set, send timer, stored country, and the `jobId → EventSource` registry |

How the model represents the source:

- The drain of `stream_ratings` is a `while` loop over the task outcomes, in the order the tasks complete. It appends to `titles` and `availability`, and to a `map` of lists standing for the `defaultdict`. A sequence of keys records that map's insertion order.
- The JavaScript `Set` is a sequence without duplicates, in insertion order, because `Array.from` keeps that order.
- The formatter is a method that builds its string by the same conditional appends as the source. It is proved to agree with a specification function `Render`, and `Render`'s output is proved to read back as the hours and minutes.

Where the code does not do what one might expect, the model follows the code:

- **Not every status outside the allow-set fails.** `fetch_and_process_title` calls `raise_for_status()` only when the status is outside {200, 301, 302, 404}. The HTTP client raises only for statuses of 400 and above. So a status such as 204 or 303 is accepted and its page is extracted; it does not raise. `CheckDetailStatus` states exactly this.
- **One failing title stops the stream.** An exception in a task reaches the stream where `await completed_coro` is evaluated. This covers an error status other than 404, a failure of the search call, and any connection error or read/total timeout, that is, anything other than a connect timeout (`aiohttp.ConnectionTimeoutError`, the one exception webserver/app.py:303 catches). Timeouts while reading the headers or the body, and the session's total timeout, are therefore in `ConnectionFailed`. The exception ends the drain, and the `finally` block still persists the rows accumulated so far. Cancellation by a departing client is modelled the same way. `StreamRatings` returns the first such failure and the batch of what it had consumed.
- **Keys of the ratings dictionary.** A key is created only when a result carries at least one rating. The persisted rating rows are the groups chained in key-insertion order.

## Model

| member | source | states |
|---|---|---|
| TimeFormat.Hours | utils.js:2 | the whole hours: 3600·h ≤ seconds < 3600·(h+1) |
| TimeFormat.Minutes | utils.js:3 | the minutes left over after the hours: below 60, and hours and minutes together bracket `seconds` to within a minute |
| TimeFormat.NatToString | utils.js:7 | the decimal text of a count is non-empty, all digits, and has no leading zero |
| TimeFormat.ParseDigitsOfNatToString | utils.js:7 | the decimal text reads back as the count |
| TimeFormat.FormatTimeWithoutSeconds | utils.js:1-15 | the built string equals `Render(hours, minutes)` and reads back as (hours, minutes); it is never empty; it is "0 minutes" exactly when seconds < 60 |
| TimeFormat.FormattedText | utils.js:5-14 | for every natural number of seconds in the model, the rendered text reads back, is non-empty, and is the fallback exactly below a minute |
| TimeFormat.RenderReadsBack | utils.js:6-12 | round trip: the text for any hours and minutes parses back to those same counts |
| TimeFormat.Quantity | utils.js:7 | one part, "<n> <unit>" plus "s" unless n is 1; it has no contract of its own: `ParseQuantityOfQuantity` reads it back, `PluralIffNotOne` and `SpacesOfQuantity` fix its plural and its single space |
| TimeFormat.Render | utils.js:6-14 | the text for given hours and minutes; it has no contract of its own: `RenderReadsBack`, `HoursPartIff`, `SeparatorIffBoth` and `RenderZeroMinutes` state what it shows |
| TimeFormat.HoursPartIff | utils.js:6-8 | the text begins with an hours part exactly when hours > 0 |
| TimeFormat.MinuteIsNotHour | utils.js:9-11 | a minutes part is never read as an hours part |
| TimeFormat.RenderWithoutHours | utils.js:9-14 | without hours the text is the minutes part; "0 minutes" is the plural form for zero |
| TimeFormat.RenderZeroMinutes | utils.js:14 | the text is never empty, and it is "0 minutes" exactly when both counts are zero |
| TimeFormat.PluralIffNotOne | utils.js:7-11 | a part ends in "s" exactly when its count is not 1 |
| TimeFormat.ParseQuantityOfQuantity | utils.js:7-11 | a part "<n> <unit>[s]" reads back as n, whatever follows it after a space |
| TimeFormat.SeparatorIffBoth | utils.js:9-11 | the text holds three spaces when both parts are present, and otherwise one: the separating space appears only between two parts |
| TimeFormat.SecondsBelowAMinute | utils.js:2-3 | both counts are zero exactly when seconds < 60 |
| TimeRange.LatestTimestamp | scripts/throwaway/viz.py:24 | the maximum: some observation has it, and none is later |
| TimeRange.NewerThan | scripts/throwaway/viz.py:27 | the comprehension keeps at most as many items as it is given |
| TimeRange.FilterForTimeRange | scripts/throwaway/viz.py:23-27 | the window keeps at most as many observations as it is given; which ones, in what order and how often is stated by `FilterKeepsExactlyNewItems`, `FilterKeepsOrder` and `FilterKeepsMultiplicity` |
| TimeRange.NewerThanMembers | scripts/throwaway/viz.py:27 | an item is kept exactly when it is in the input and strictly newer than the threshold |
| TimeRange.NewerThanIsSubsequence | scripts/throwaway/viz.py:27 | the kept items are a subsequence of the input |
| TimeRange.NewerThanCount | scripts/throwaway/viz.py:27 | each kept item keeps its multiplicity, and each dropped item has none |
| TimeRange.FilterKeepsOrder | scripts/throwaway/viz.py:23-27 | the result is a subsequence of `data`, so order is preserved |
| TimeRange.FilterKeepsExactlyNewItems | scripts/throwaway/viz.py:24-27 | an observation of `data` is kept if and only if its timestamp exceeds max − seconds |
| TimeRange.FilterKeepsMultiplicity | scripts/throwaway/viz.py:24-27 | the result is exactly the new items of `data` as a multiset |
| TimeRange.LatestSurvives | scripts/throwaway/viz.py:24-27 | below the latest timestamp, the latest observation survives and stays the latest |
| TimeRange.LatestIsKept | scripts/throwaway/viz.py:24-27 | with seconds > 0 the result is non-empty and has the same latest timestamp |
| TimeRange.EmptyWindowKeepsNothing | scripts/throwaway/viz.py:24-27 | with seconds ≤ 0 nothing is kept |
| TimeRange.NewerThanIdempotent | scripts/throwaway/viz.py:27 | filtering by the same threshold twice is filtering once |
| TimeRange.FilterIdempotent | scripts/throwaway/viz.py:24-27 | with seconds > 0, applying the filter twice equals applying it once |
| Enrichment.CheckDetailStatus | webserver/app.py:290-291 | the check raises, with that status, exactly when the status is outside {200, 301, 302, 404} and is 400 or more |
| Enrichment.FetchAndProcessTitle | webserver/app.py:280-305 | it raises exactly on a rejected status, with `HttpError` of that status, or on a non-timeout connection error, with `ConnectionError`; a connection timeout (`aiohttp.ConnectionTimeoutError`) gives `[]`; an extraction error gives `[]`; otherwise the extracted metadata |
| Enrichment.Falsy | webserver/app.py:316 | Python's `not title_data` on a JSON value: null, false, 0, "", [] and {} are falsy; it has no contract of its own, and `ScrapeSerpForRatings` states what it decides |
| Enrichment.ScrapeSerpForRatings | webserver/app.py:308-330 | falsy metadata gives `[]` and makes no search call; otherwise exactly one call, with the id and the title, content type and release year read from the metadata, and its ratings |
| Enrichment.DownloadTitleAndLookupRatings | webserver/app.py:333-350 | a produced unit carries the requested id and the fetched metadata; a fetch failure propagates with no search call; falsy metadata gives an empty unit with no call; otherwise exactly one call, with the id and the title, content type and release year read from the metadata, and the unit carries that call's ratings or the task raises that call's failure |
| Enrichment.TimeoutDegradesToEmptyUnit | webserver/app.py:303-305 | a connection timeout (`aiohttp.ConnectionTimeoutError`) on the detail request still yields a unit for the id, with `[]` metadata, no ratings and no search call |
| Enrichment.ExtractionErrorDegradesToEmptyUnit | webserver/app.py:301-305 | an accepted page whose metadata cannot be extracted yields the same empty unit |
| Enrichment.FindGoogleUsersRating | webserver/app.py:169-173 | None exactly when no entry's vendor is "Google users"; otherwise the rating of the first entry with that vendor |
| EventStream.Frame | webserver/app.py:426-427 | the frame of one message; it has no contract of its own: `FrameShape` states its layout and `FrameReadsBack` that a reader dispatches the message |
| EventStream.FrameShape | webserver/app.py:426-428 | a frame is "data: ", then the message, then "\n\n", and is 8 characters longer than the message |
| EventStream.FrameReadsBack | webserver/app.py:426-428 | reading one frame of a single-line message dispatches exactly that message |
| EventStream.FramesReadBack | webserver/app.py:426-428 | reading the concatenated frames dispatches their messages, one event per frame, in order |
| RatingsStream.Consumed | webserver/app.py:378-379 | the consumed results are the completions before the first exception, and the completion after them (if any) raised |
| RatingsStream.TitleOf | webserver/app.py:384-392 | the Title row carries the result's id and metadata, and its title, content type, release year and runtime are read from that metadata |
| RatingsStream.AvailabilityOf | webserver/app.py:394-401 | the Availability row carries the result's id, country "US", reachable and available |
| RatingsStream.RatingRowOf | webserver/app.py:405-411 | a Rating row carries the result's id and the entry's vendor, url, rating and ratings count |
| RatingsStream.RatingRowsOf | webserver/app.py:403-411 | one Rating row per rating entry of the result |
| RatingsStream.ResponseOf | webserver/app.py:414-419 | the record serialised for a result; it has no contract of its own: `ResponseCarriesGoogleUsersRating` states what it holds |
| RatingsStream.ResponseCarriesGoogleUsersRating | webserver/app.py:414-419 | the record has no database id, carries the result's id and the Title row's title, content type, release year and runtime, and the rating of the first "Google users" entry (None when there is none) |
| RatingsStream.MessageOf | webserver/app.py:420-424 | the message is the encoding of `{netflix_id: record}`, the encoder being a parameter; it has no contract of its own: `StreamReadsBackAsMessages` states that each frame delivers it |
| RatingsStream.FrameOf | webserver/app.py:426-427 | the frame yielded for a result; it has no contract of its own: `StreamRatings` states that the i-th frame is that of the i-th consumed result and `StreamReadsBackAsMessages` that a reader gets its message back |
| RatingsStream.PersistedRatings | webserver/app.py:437 | the rating batch: the groups chained in key-insertion order; it has no contract of its own: `PersistedRatingsArePermutation` and `HeldGroupsPersist` state what it holds |
| RatingsStream.StreamRatings | webserver/app.py:372-438 | one frame, one Title and one Availability per consumed result, the i-th of each built from the i-th result; the persisted rating rows are the groups chained in key order; the failure is the first task exception, if any |
| RatingsStream.AppendRatings | webserver/app.py:403-412 | appending one result's ratings keeps the dictionary equal to the groups of the results so far, with keys in insertion order |
| RatingsStream.GroupKeysMembers | webserver/app.py:403-404 | an id is a key exactly when some consumed result for it carried a rating |
| RatingsStream.GroupKeysDistinct | webserver/app.py:403-404 | no id is a key twice |
| RatingsStream.GroupOfNonKey | webserver/app.py:403-404 | an id that is not a key has no rows |
| RatingsStream.GroupRowsCarryId | webserver/app.py:403-412 | every row grouped under an id carries that id |
| RatingsStream.GroupSize | webserver/app.py:403-412 | the group of an id has as many rows as its results carry ratings |
| RatingsStream.GroupIsRowsOfId | webserver/app.py:403-412 | the group of an id is exactly the rows of all consumed results that belong to it, in consumption order |
| RatingsStream.PersistedRatingsArePermutation | webserver/app.py:436-438 | the persisted rating rows are a permutation of every rating row of every consumed result |
| RatingsStream.HeldGroupsPersist | webserver/app.py:436-438 | chaining the dictionary's values in key order gives the persisted rating batch |
| RatingsStream.ChainMapIsChained | webserver/app.py:437 | chaining a dictionary that holds the groups equals chaining the groups |
| RatingsStream.StreamReadsBackAsMessages | webserver/app.py:414-428 | a client reading the stream dispatches one event per consumed result, in order, carrying that result's serialised record |
| RatingsStream.InCompletionOrder | webserver/app.py:378 | one outcome per completion |
| RatingsStream.JobTasks | webserver/app.py:360-366 | one task per submitted id |
| RatingsStream.JobTasksCarryIds | webserver/app.py:360-366 | there is one task per submitted id, and each task that succeeds carries its own id |
| RatingsStream.ConsumedAll | webserver/app.py:378-379 | when no task raises, every completion is consumed, in order |
| RatingsStream.ConsumedInCompletionOrder | webserver/app.py:360-379 | when no task raises, the i-th consumed unit is the i-th task to complete, and every task's id is consumed |
| RatingsStream.OneUnitPerIdentifier | webserver/app.py:360-379 | whatever the completion order, when no task raises there is exactly one unit per submitted id, and distinct ids give distinct units |
| Background.SetAdd | extension-core/background.js:15-16 | the set gains the id, stays duplicate-free and keeps its earlier order; re-adding a present id changes nothing |
| Background.Worker.constructor | extension-core/background.js:1-3 | a (re)started worker has no pending ids, no timer and no streams, and keeps the country already in storage |
| Background.StreamUrl | extension-core/background.js:74-76 | the stream URL of a job, `${BASE_URL}/api/stream/${jobId}`; it has no contract of its own: `Worker.Valid`, kept by every method, and `OnPostResult` tie each registered stream to it |
| Background.Worker.OnMessage | extension-core/background.js:13-46 | a missing-title message adds its id and replaces any scheduled send by exactly one new one; an activation stores the page's country, or "US"; other messages leave payload and timers untouched; the registry is never touched |
| Background.Worker.FireTimer | extension-core/background.js:22-24 | the firing timer leaves nothing scheduled and performs `sendPayload` |
| Background.Worker.SendPayload | extension-core/background.js:48-62 | with no pending ids nothing is posted and nothing changes; otherwise the pending ids, each once, are posted with the stored country (default "US") and the set is emptied |
| Background.Worker.OnPostResult | extension-core/background.js:63-94 | a created job registers an event stream for that job id at /api/stream/<jobId>; a failed post changes nothing |
| Background.Worker.OnStreamError | extension-core/background.js:88-92 | a stream error removes exactly that job id; every other entry is untouched |
| Background.AtMostOneSendPending | extension-core/background.js:18-24 | at most one send is pending at any time |

## Left out

- The module `common` is not part of this model. `JobStore`, the session handlers and rate limiters, `extract_netflix_react_context`, `get_field` and `get_serp_html` all live there. The extractor, the field accessor and the search call are function parameters; the detail response is a parameter value.
- asyncio concurrency is modelled by its results only. `create_task`, `as_completed`, `async with limiter` and the done-callbacks become an arbitrary completion order of the task outcomes. The model does not capture that the remaining tasks keep running after the drain stops.
- Database and web plumbing are left out: the ORM, `bulk_insert_ignore_conflicts` and the commit, FastAPI routes, CORS, static files, templates, the logging middleware and the logger module. The batch handed to the three inserts is the model's final state. Conflict-ignoring on insert is not modelled.
- The `get_title`, `get_all_available_titles`, `store_title_ids_for_processing` and `read_root` endpoints are query, storage and page-rendering code outside the core. So are content.js and the root background.js.
- The response bodies written to disk with `save_response_body` are I/O and are left out.
- JSON serialisation is an abstract `encode` function. The read-back lemma assumes that the encoder writes one line, as compact JSON does.
- The event-stream reader handles LF line endings and the `data` field only. CR and CRLF line endings and the `event`, `id` and `retry` fields are not used by this stream.
- pydantic coercion of `TitleResponse` fields is not modelled: metadata fields stay untyped `Json` values.
- The `checked_at` column and other database defaults are not modelled.
- TimeRange.LatestTimestamp and TimeRange.FilterForTimeRange require a non-empty list. On an empty list the source's `max` raises `ValueError` (scripts/throwaway/viz.py:24); the model does not represent that exception.
- Python `timedelta` and datetimes are integers in the window's unit. The default window `seconds=60` is not modelled as a default; callers pass it.
- TimeFormat.FormatTimeWithoutSeconds: matches the source only for seconds below 2^53. JavaScript numbers are doubles, so from 2^53 upward the inputs and counts are rounded and `${n}` prints the shortest decimal that reads back as the same double (3600·2^60 seconds gives "1152921504606847000 hours"), and from 10^21 it prints exponent notation ("1e+21"). The model's counts are exact integers and `NatToString` writes all their digits.
- TimeFormat.FormatTimeWithoutSeconds takes a `nat`. Negative or fractional JavaScript inputs are not modelled: `Math.floor` would give a non-positive count, so "0 minutes" for negatives, or hours and minutes of the floored value for fractions.
- Extension timers are modelled as timer ids, without the 1000 ms delay. The model names which timer fires, not when.
- `fetch`, `EventSource` objects and `chrome.scripting`/`chrome.storage` are reduced to the state they leave. The stored country is written at the activation message, though the source writes it when the injected script resolves. The asynchronous read of the country is taken as the value stored when the send fires. The URL encoding of the country parameter is not modelled.
- RatingsStream.StreamRatings: a result is taken to be turned into its rows and frame without raising. In the source, an exception while building the `TitleResponse` or reading a rating's keys (webserver/app.py:403-424) ends the drain after that result's Title and Availability rows, and possibly some of its Rating rows, were appended, with no frame sent for it. The model either consumes a result whole or not at all.
- RatingsStream.StreamRatings: closing the two session handlers (webserver/app.py:431-432) runs before the inserts and is taken never to fail. If `close()` raises, nothing is persisted; the model always hands its batch to the inserts.
- The search rate limiter wraps the empty-metadata short-circuit (webserver/app.py:314-317), so a title without metadata still waits for and takes a search permit. The model has no limiter, so this ordering is not captured; only the absence of a search call is.
- The `onmessage` handler of each stream, which writes the received records to the extension's storage, is left out.
- The `chrome.commands` reload shortcut is left out.
