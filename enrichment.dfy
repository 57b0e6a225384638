/**
 * The per-title task of the ratings stream (webserver/app.py): fetch the
 * title page, pass its status check, extract the embedded metadata, and look
 * the title up on the search upstream unless the metadata is empty. The
 * extractor, the field accessor and the search call live in a module that is
 * not part of this model; they are parameters here.
 */
module Enrichment {
  import opened Wrappers

  /** The untyped metadata tree extracted from a title page. */
  datatype Json =
    | JNull
    | JBool(b: bool)
    | JNumber(n: int)
    | JString(s: string)
    | JArray(items: seq<Json>)
    | JObject(members: seq<(string, Json)>)

  /** Python's truthiness: `not value` holds of None, False, 0, "", [] and {}. */
  predicate Falsy(j: Json) {
    match j
    case JNull => true
    case JBool(b) => !b
    case JNumber(n) => n == 0
    case JString(s) => s == ""
    case JArray(items) => items == []
    case JObject(members) => members == []
  }

  /** `[]`, what the detail fetch returns in place of metadata it could not get. */
  const NoContext: Json := JArray([])

  /** What the page extractor does: metadata, or a `ContextExtractionError`. */
  datatype Extraction = Extracted(context: Json) | ExtractionFailed

  /**
   * What the detail request gives: a response, a connect timeout, or another
   * client error (read and total timeouts included, since only the connect
   * timeout is caught).
   */
  datatype DetailResponse = Received(status: int, body: string) | ConnectionTimeout | ConnectionFailed

  /** Exceptions that leave a task and reach the stream. */
  datatype Failure = HttpError(status: int) | ConnectionError | SerpFailure | Cancelled

  /** A task's result: a value, or an exception it raised. */
  datatype Outcome<T> = Done(value: T) | Raised(failure: Failure)

  /** Statuses the detail fetch accepts without calling `raise_for_status`. */
  const AcceptedStatuses: set<int> := {200, 301, 302, 404}

  /** `raise_for_status` of the HTTP client raises exactly for statuses of 400 and above. */
  predicate IsErrorStatus(status: int) {
    status >= 400
  }

  /** The status check of the detail fetch. */
  function CheckDetailStatus(status: int): (r: Outcome<()>)
    ensures r.Raised? <==> status !in AcceptedStatuses && IsErrorStatus(status)
    ensures r.Raised? ==> r.failure == HttpError(status)
  {
    if status !in AcceptedStatuses && IsErrorStatus(status) then Raised(HttpError(status)) else Done(())
  }

  /**
   * `fetch_and_process_title`: the metadata of one title page. A connection
   * timeout and an extraction error both give `[]`; an error status other than
   * 404 and any other connection error propagate.
   */
  function FetchAndProcessTitle(response: DetailResponse, extract: string -> Extraction): (r: Outcome<Json>)
    ensures r.Raised? <==>
      response.ConnectionFailed? || (response.Received? && CheckDetailStatus(response.status).Raised?)
    ensures response.ConnectionTimeout? ==> r == Done(NoContext)
    ensures response.ConnectionFailed? ==> r == Raised(ConnectionError)
    ensures response.Received? && r.Raised? ==> r.failure == HttpError(response.status)
    ensures response.Received? && extract(response.body).ExtractionFailed? && r.Done? ==> r.value == NoContext
    ensures response.Received? && extract(response.body).Extracted? && r.Done? ==>
      r.value == extract(response.body).context
  {
    match response
    case ConnectionTimeout => Done(NoContext)
    case ConnectionFailed => Raised(ConnectionError)
    case Received(status, body) =>
      match CheckDetailStatus(status)
      case Raised(e) => Raised(e)
      case Done(_) =>
        match extract(body)
        case Extracted(context) => Done(context)
        case ExtractionFailed => Done(NoContext)
  }

  /** One vendor's rating as the search upstream reports it. */
  datatype RatingFields = RatingFields(vendor: string, url: string, rating: int, ratingsCount: int)

  /** The arguments of one call to the search upstream. */
  datatype SerpQuery = SerpQuery(netflixId: int, title: Json, contentType: Json, releaseYear: Json)

  /** A ratings lookup: its result and the search calls it made. */
  datatype Lookup = Lookup(ratings: Outcome<seq<RatingFields>>, serpCalls: seq<SerpQuery>)

  /**
   * `scrape_serp_for_ratings`: empty metadata gives no ratings and makes no
   * search call; otherwise exactly one call, with the title, content type and
   * release year read from the metadata.
   */
  function ScrapeSerpForRatings(
    netflixId: int, titleData: Json,
    getField: (Json, string) -> Json, getSerp: SerpQuery -> Outcome<seq<RatingFields>>): (r: Lookup)
    ensures Falsy(titleData) ==> r == Lookup(Done([]), [])
    ensures !Falsy(titleData) ==> |r.serpCalls| == 1 && r.ratings == getSerp(r.serpCalls[0])
    ensures forall q :: q in r.serpCalls ==>
      q == SerpQuery(netflixId, getField(titleData, "title"), getField(titleData, "content_type"),
                     getField(titleData, "release_year"))
  {
    if Falsy(titleData) then Lookup(Done([]), [])
    else
      var query := SerpQuery(netflixId, getField(titleData, "title"), getField(titleData, "content_type"),
                             getField(titleData, "release_year"));
      Lookup(getSerp(query), [query])
  }

  /** The stream unit of one title: its id, its metadata and its ratings. */
  datatype EnrichedResult = EnrichedResult(netflixId: int, reactContext: Json, ratings: seq<RatingFields>)

  /** A finished task: its outcome and the search calls it made. */
  datatype Task = Task(outcome: Outcome<EnrichedResult>, serpCalls: seq<SerpQuery>)

  /**
   * `download_title_and_lookup_ratings`: the enriched result carries the
   * requested id, the fetched metadata and the ratings of the one search made
   * for that metadata; an exception of either stage ends the task.
   */
  function DownloadTitleAndLookupRatings(
    titleId: int, response: DetailResponse, extract: string -> Extraction,
    getField: (Json, string) -> Json, getSerp: SerpQuery -> Outcome<seq<RatingFields>>): (r: Task)
    ensures var fetched := FetchAndProcessTitle(response, extract);
      && (fetched.Raised? ==> r == Task(Raised(fetched.failure), []))
      && (r.outcome.Done? ==>
            fetched.Done? && r.outcome.value.netflixId == titleId && r.outcome.value.reactContext == fetched.value)
      && (fetched.Done? && Falsy(fetched.value) ==> r == Task(Done(EnrichedResult(titleId, fetched.value, [])), []))
    ensures var fetched := FetchAndProcessTitle(response, extract);
      fetched.Done? && !Falsy(fetched.value) ==>
        var q := SerpQuery(titleId, getField(fetched.value, "title"), getField(fetched.value, "content_type"),
                           getField(fetched.value, "release_year"));
        && r.serpCalls == [q]
        && r.outcome == (if getSerp(q).Done? then Done(EnrichedResult(titleId, fetched.value, getSerp(q).value))
                         else Raised(getSerp(q).failure))
    ensures |r.serpCalls| <= 1
    ensures forall q :: q in r.serpCalls ==> q.netflixId == titleId
  {
    match FetchAndProcessTitle(response, extract)
    case Raised(e) => Task(Raised(e), [])
    case Done(titleData) =>
      var lookup := ScrapeSerpForRatings(titleId, titleData, getField, getSerp);
      match lookup.ratings
      case Raised(e) => Task(Raised(e), lookup.serpCalls)
      case Done(ratings) => Task(Done(EnrichedResult(titleId, titleData, ratings)), lookup.serpCalls)
  }

  /**
   * A timed-out detail request still yields a unit for the title, with empty
   * metadata and no ratings, and costs no search call.
   */
  lemma TimeoutDegradesToEmptyUnit(
    titleId: int, extract: string -> Extraction,
    getField: (Json, string) -> Json, getSerp: SerpQuery -> Outcome<seq<RatingFields>>)
    ensures DownloadTitleAndLookupRatings(titleId, ConnectionTimeout, extract, getField, getSerp)
         == Task(Done(EnrichedResult(titleId, NoContext, [])), [])
  {
  }

  /**
   * A page whose metadata cannot be extracted, under an accepted status, also
   * yields an empty unit and no search call.
   */
  lemma ExtractionErrorDegradesToEmptyUnit(
    titleId: int, status: int, body: string, extract: string -> Extraction,
    getField: (Json, string) -> Json, getSerp: SerpQuery -> Outcome<seq<RatingFields>>)
    requires extract(body).ExtractionFailed?
    requires !(status !in AcceptedStatuses && IsErrorStatus(status))
    ensures DownloadTitleAndLookupRatings(titleId, Received(status, body), extract, getField, getSerp)
         == Task(Done(EnrichedResult(titleId, NoContext, [])), [])
  {
  }

  const GoogleUsers: string := "Google users"

  /**
   * `TitleResponse.find_google_users_rating`: the rating of the first entry
   * whose vendor is exactly "Google users", or None when there is none.
   */
  function FindGoogleUsersRating(ratings: seq<RatingFields>): (r: Option<int>)
    ensures r.None? <==> forall i :: 0 <= i < |ratings| ==> ratings[i].vendor != GoogleUsers
    ensures r.Some? ==> exists i :: 0 <= i < |ratings| && ratings[i].vendor == GoogleUsers && r.value == ratings[i].rating
                                   && forall j :: 0 <= j < i ==> ratings[j].vendor != GoogleUsers
  {
    if ratings == [] then None
    else if ratings[0].vendor == GoogleUsers then Some(ratings[0].rating)
    else
      var rest := FindGoogleUsersRating(ratings[1..]);
      assert forall i :: 1 <= i < |ratings| ==> ratings[i] == ratings[1..][i - 1];
      rest
  }
}
