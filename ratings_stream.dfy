/**
 * The ratings stream of webserver/app.py (`stream_ratings`): task results are
 * drained in completion order; each becomes one Title row, one Availability row,
 * its Rating rows grouped under its id, and one server-sent event frame; when
 * the drain ends, normally or by an exception, the accumulated rows are
 * persisted. The concurrency is abstracted into the order of `completions`.
 */
module RatingsStream {
  import opened Wrappers
  import opened Enrichment
  import EventStream

  datatype TitleRow = TitleRow(
    netflixId: int, title: Json, contentType: Json, releaseYear: Json, runtime: Json, metaData: Json)

  datatype AvailabilityRow = AvailabilityRow(
    netflixId: int, country: string, titlepageReachable: bool, available: bool)

  datatype RatingRow = RatingRow(netflixId: int, vendor: string, url: string, rating: int, ratingsCount: int)

  /** The record each frame serialises, keyed by its id. */
  datatype TitleResponse = TitleResponse(
    id: Option<int>, netflixId: int, title: Json, contentType: Json, releaseYear: Json, runtime: Json,
    googleUsersRating: Option<int>)

  /** The three bulk inserts of the `finally` block. */
  datatype Batch = Batch(titles: seq<TitleRow>, availability: seq<AvailabilityRow>, ratings: seq<RatingRow>)

  const Country: string := "US"

  /** The Title row of a result: its id and metadata, and the fields read from that metadata. */
  function TitleOf(r: EnrichedResult, getField: (Json, string) -> Json): (t: TitleRow)
    ensures t.netflixId == r.netflixId && t.metaData == r.reactContext
    ensures && t.title == getField(r.reactContext, "title") && t.contentType == getField(r.reactContext, "content_type")
            && t.releaseYear == getField(r.reactContext, "release_year") && t.runtime == getField(r.reactContext, "runtime")
  {
    var data := r.reactContext;
    TitleRow(r.netflixId, getField(data, "title"), getField(data, "content_type"),
             getField(data, "release_year"), getField(data, "runtime"), data)
  }

  /** The Availability row of a result: reachable and available in the US. */
  function AvailabilityOf(r: EnrichedResult): (a: AvailabilityRow)
    ensures a.netflixId == r.netflixId && a.country == Country && a.titlepageReachable && a.available
  {
    AvailabilityRow(r.netflixId, Country, true, true)
  }

  /** The Rating row of one rating entry, under the result's id. */
  function RatingRowOf(netflixId: int, f: RatingFields): (row: RatingRow)
    ensures row.netflixId == netflixId && row.vendor == f.vendor && row.url == f.url
    ensures row.rating == f.rating && row.ratingsCount == f.ratingsCount
  {
    RatingRow(netflixId, f.vendor, f.url, f.rating, f.ratingsCount)
  }

  /** The Rating rows of a result, one per rating entry, in order. */
  function RatingRowsOf(r: EnrichedResult): (rows: seq<RatingRow>)
    ensures |rows| == |r.ratings|
  {
    seq(|r.ratings|, i requires 0 <= i < |r.ratings| => RatingRowOf(r.netflixId, r.ratings[i]))
  }

  /** The record serialised for a result: the Title's fields plus its Google users rating. */
  function ResponseOf(r: EnrichedResult, getField: (Json, string) -> Json): TitleResponse {
    var t := TitleOf(r, getField);
    TitleResponse(None, t.netflixId, t.title, t.contentType, t.releaseYear, t.runtime,
                  FindGoogleUsersRating(r.ratings))
  }

  /**
   * The serialised record has no database id, carries the result's id and the
   * Title row's metadata fields, and the rating of the first "Google users" entry.
   */
  lemma ResponseCarriesGoogleUsersRating(r: EnrichedResult, getField: (Json, string) -> Json)
    ensures var resp := ResponseOf(r, getField);
      && resp.id == None && resp.netflixId == r.netflixId
      && resp.googleUsersRating == FindGoogleUsersRating(r.ratings)
      && var t := TitleOf(r, getField);
         resp.title == t.title && resp.contentType == t.contentType
         && resp.releaseYear == t.releaseYear && resp.runtime == t.runtime
  {
  }

  /** `json.dumps({netflix_id: title_response})`, the encoder being a parameter. */
  function MessageOf(r: EnrichedResult, getField: (Json, string) -> Json, encode: (int, TitleResponse) -> string): string {
    encode(r.netflixId, ResponseOf(r, getField))
  }

  /** The event frame yielded for a result. */
  function FrameOf(r: EnrichedResult, getField: (Json, string) -> Json, encode: (int, TitleResponse) -> string): string {
    EventStream.Frame(MessageOf(r, getField, encode))
  }

  /** The results the drain consumes: those that completed before the first exception. */
  function Consumed(completions: seq<Outcome<EnrichedResult>>): (done: seq<EnrichedResult>)
    ensures |done| <= |completions|
    ensures forall i :: 0 <= i < |done| ==> completions[i] == Done(done[i])
    ensures |done| < |completions| ==> completions[|done|].Raised?
  {
    if completions == [] || completions[0].Raised? then []
    else [completions[0].value] + Consumed(completions[1..])
  }

  // ---------------------------------------------------------------------------
  // The `ratings` dictionary: a list of rows per id, keys in insertion order.

  /**
   * The dictionary's keys in insertion order: an id becomes a key when the
   * first rating for it is appended, so ids without ratings never do.
   */
  function GroupKeys(rs: seq<EnrichedResult>): seq<int>
    decreases |rs|
  {
    if rs == [] then []
    else
      var keys := GroupKeys(rs[..|rs| - 1]);
      var last := rs[|rs| - 1];
      if |last.ratings| > 0 && last.netflixId !in keys then keys + [last.netflixId] else keys
  }

  /** The rows appended under `id`, in consumption order. */
  function Group(rs: seq<EnrichedResult>, id: int): seq<RatingRow>
    decreases |rs|
  {
    if rs == [] then []
    else
      var last := rs[|rs| - 1];
      Group(rs[..|rs| - 1], id) + (if last.netflixId == id then RatingRowsOf(last) else [])
  }

  /** `itertools.chain(*ratings.values())` over the groups of `keys`. */
  function Chained(keys: seq<int>, rs: seq<EnrichedResult>): seq<RatingRow> {
    if keys == [] then [] else Group(rs, keys[0]) + Chained(keys[1..], rs)
  }

  /** The rating batch persisted after consuming `rs`. */
  function PersistedRatings(rs: seq<EnrichedResult>): seq<RatingRow> {
    Chained(GroupKeys(rs), rs)
  }

  /** Every rating row of `rs` in consumption order, ungrouped. */
  function AllRatingRows(rs: seq<EnrichedResult>): seq<RatingRow>
    decreases |rs|
  {
    if rs == [] then [] else AllRatingRows(rs[..|rs| - 1]) + RatingRowsOf(rs[|rs| - 1])
  }

  /** The same chaining over the dictionary itself. */
  function ChainMap(keys: seq<int>, groups: map<int, seq<RatingRow>>): seq<RatingRow>
    requires forall i :: 0 <= i < |keys| ==> keys[i] in groups
  {
    if keys == [] then [] else groups[keys[0]] + ChainMap(keys[1..], groups)
  }

  lemma {:induction false} ChainMapIsChained(keys: seq<int>, groups: map<int, seq<RatingRow>>, rs: seq<EnrichedResult>)
    requires forall i :: 0 <= i < |keys| ==> keys[i] in groups && groups[keys[i]] == Group(rs, keys[i])
    ensures ChainMap(keys, groups) == Chained(keys, rs)
  {
    if keys != [] {
      ChainMapIsChained(keys[1..], groups, rs);
    }
  }

  lemma {:induction false} GroupOfNonKey(rs: seq<EnrichedResult>, id: int)
    requires id !in GroupKeys(rs)
    ensures Group(rs, id) == []
    decreases |rs|
  {
    if rs != [] {
      var front := rs[..|rs| - 1];
      assert forall k :: 0 <= k < |front| ==> front[k] == rs[k];
      GroupOfNonKey(front, id);
    }
  }

  /** The number of ratings the results carry for `id`. */
  function RatingCount(rs: seq<EnrichedResult>, id: int): nat
    decreases |rs|
  {
    if rs == [] then 0
    else
      var last := rs[|rs| - 1];
      RatingCount(rs[..|rs| - 1], id) + (if last.netflixId == id then |last.ratings| else 0)
  }

  /** The rows of `rows` that belong to `id`, in order. */
  function RowsOf(rows: seq<RatingRow>, id: int): seq<RatingRow> {
    if rows == [] then []
    else RowsOf(rows[..|rows| - 1], id) + (if rows[|rows| - 1].netflixId == id then [rows[|rows| - 1]] else [])
  }

  lemma {:induction false} GroupKeysDistinct(rs: seq<EnrichedResult>)
    ensures forall i, j :: 0 <= i < j < |GroupKeys(rs)| ==> GroupKeys(rs)[i] != GroupKeys(rs)[j]
    decreases |rs|
  {
    if rs != [] {
      GroupKeysDistinct(rs[..|rs| - 1]);
    }
  }

  /** An id is a key exactly when some consumed result for it carried at least one rating. */
  lemma {:induction false} GroupKeysMembers(rs: seq<EnrichedResult>, id: int)
    ensures id in GroupKeys(rs) <==> exists k :: 0 <= k < |rs| && rs[k].netflixId == id && |rs[k].ratings| > 0
    decreases |rs|
  {
    if rs != [] {
      var front := rs[..|rs| - 1];
      GroupKeysMembers(front, id);
      assert forall k :: 0 <= k < |front| ==> front[k] == rs[k];
      if id in GroupKeys(front) {
        var k :| 0 <= k < |front| && front[k].netflixId == id && |front[k].ratings| > 0;
        assert rs[k] == front[k];
      }
    }
  }

  /** Every row grouped under `id` carries `id`. */
  lemma {:induction false} GroupRowsCarryId(rs: seq<EnrichedResult>, id: int)
    ensures forall row :: row in Group(rs, id) ==> row.netflixId == id
    decreases |rs|
  {
    if rs != [] {
      GroupRowsCarryId(rs[..|rs| - 1], id);
    }
  }

  /** The group of `id` holds as many rows as its results carry ratings. */
  lemma {:induction false} GroupSize(rs: seq<EnrichedResult>, id: int)
    ensures |Group(rs, id)| == RatingCount(rs, id)
    decreases |rs|
  {
    if rs != [] {
      GroupSize(rs[..|rs| - 1], id);
    }
  }

  lemma {:induction false} RowsOfAppend(a: seq<RatingRow>, b: seq<RatingRow>, id: int)
    ensures RowsOf(a + b, id) == RowsOf(a, id) + RowsOf(b, id)
    decreases |b|
  {
    if b == [] {
      assert a + b == a;
    } else {
      var b' := b[..|b| - 1];
      assert (a + b)[..|a + b| - 1] == a + b';
      RowsOfAppend(a, b', id);
    }
  }

  /** Rows that all belong to `nid` are kept whole by the filter for `nid` and dropped by any other. */
  lemma {:induction false} RowsOfSameId(rows: seq<RatingRow>, nid: int, id: int)
    requires forall k :: 0 <= k < |rows| ==> rows[k].netflixId == nid
    ensures RowsOf(rows, id) == if nid == id then rows else []
  {
    if rows != [] {
      var front := rows[..|rows| - 1];
      RowsOfSameId(front, nid, id);
      assert rows == front + [rows[|rows| - 1]];
    }
  }

  /** The group of `id` is exactly the rows of all consumed results that belong to `id`, in order. */
  lemma {:induction false} GroupIsRowsOfId(rs: seq<EnrichedResult>, id: int)
    ensures Group(rs, id) == RowsOf(AllRatingRows(rs), id)
    decreases |rs|
  {
    if rs != [] {
      var front, last := rs[..|rs| - 1], rs[|rs| - 1];
      GroupIsRowsOfId(front, id);
      RowsOfAppend(AllRatingRows(front), RatingRowsOf(last), id);
      RowsOfSameId(RatingRowsOf(last), last.netflixId, id);
    }
  }

  lemma {:induction false} ChainedStep(keys: seq<int>, rs: seq<EnrichedResult>)
    requires rs != []
    requires forall i, j :: 0 <= i < j < |keys| ==> keys[i] != keys[j]
    ensures var last := rs[|rs| - 1];
      multiset(Chained(keys, rs)) ==
      multiset(Chained(keys, rs[..|rs| - 1])) + (if last.netflixId in keys then multiset(RatingRowsOf(last)) else multiset{})
  {
    if keys != [] {
      ChainedStep(keys[1..], rs);
      assert keys[0] !in keys[1..];
      assert forall id :: id in keys <==> id == keys[0] || id in keys[1..];
    }
  }

  lemma {:induction false} ChainedAppendKey(keys: seq<int>, id: int, rs: seq<EnrichedResult>)
    ensures Chained(keys + [id], rs) == Chained(keys, rs) + Group(rs, id)
  {
    if keys == [] {
      assert keys + [id] == [id];
    } else {
      assert (keys + [id])[1..] == keys[1..] + [id];
      ChainedAppendKey(keys[1..], id, rs);
    }
  }

  /**
   * Grouping by id loses and duplicates nothing: the persisted rating batch
   * holds exactly the rating rows of the consumed results.
   */
  lemma {:induction false} PersistedRatingsArePermutation(rs: seq<EnrichedResult>)
    ensures multiset(PersistedRatings(rs)) == multiset(AllRatingRows(rs))
    decreases |rs|
  {
    if rs != [] {
      var front, last := rs[..|rs| - 1], rs[|rs| - 1];
      PersistedRatingsArePermutation(front);
      var keys := GroupKeys(front);
      GroupKeysDistinct(front);
      ChainedStep(keys, rs);
      if |last.ratings| > 0 && last.netflixId !in keys {
        ChainedAppendKey(keys, last.netflixId, rs);
        GroupOfNonKey(front, last.netflixId);
      } else if |last.ratings| == 0 {
        assert RatingRowsOf(last) == [];
      }
    }
  }

  /** Consuming one more result adds its id as the last key when it is new and carries a rating. */
  lemma GroupKeysAfter(before: seq<EnrichedResult>, r: EnrichedResult)
    ensures GroupKeys(before + [r]) ==
      if |r.ratings| > 0 && r.netflixId !in GroupKeys(before) then GroupKeys(before) + [r.netflixId]
      else GroupKeys(before)
  {
    assert (before + [r])[..|before|] == before;
  }

  /** Consuming one more result appends its rows to its own group and leaves the others alone. */
  lemma GroupsAfter(before: seq<EnrichedResult>, r: EnrichedResult)
    ensures forall id :: Group(before + [r], id) ==
                         Group(before, id) + (if r.netflixId == id then RatingRowsOf(r) else [])
  {
    assert (before + [r])[..|before|] == before;
  }

  /** The dictionary holds the groups of `rs`, its keys in insertion order. */
  ghost predicate HoldsGroups(keys: seq<int>, ratings: map<int, seq<RatingRow>>, rs: seq<EnrichedResult>) {
    && keys == GroupKeys(rs)
    && (forall id :: id in ratings <==> id in keys)
    && (forall id :: id in ratings ==> ratings[id] == Group(rs, id))
  }

  /** The dictionary part-way through the rating rows of `result`: the first `j` are in. */
  ghost predicate Appending(
    before: seq<EnrichedResult>, result: EnrichedResult, j: nat, keys: seq<int>, ratings: map<int, seq<RatingRow>>)
    requires j <= |result.ratings|
  {
    && keys == (if j == 0 then GroupKeys(before) else GroupKeys(before + [result]))
    && (forall id :: id in ratings <==> id in keys)
    && (forall id :: id in ratings ==>
          ratings[id] == Group(before, id) + (if id == result.netflixId then RatingRowsOf(result)[..j] else []))
  }

  lemma AppendingStarts(
    before: seq<EnrichedResult>, result: EnrichedResult, keys: seq<int>, ratings: map<int, seq<RatingRow>>)
    requires HoldsGroups(keys, ratings, before)
    ensures Appending(before, result, 0, keys, ratings)
  {
  }

  lemma AppendingStep(
    before: seq<EnrichedResult>, result: EnrichedResult, j: nat, keys: seq<int>, ratings: map<int, seq<RatingRow>>)
    requires j < |result.ratings| && Appending(before, result, j, keys, ratings)
    ensures var id := result.netflixId;
      var group := if id in ratings then ratings[id] else [];
      Appending(before, result, j + 1, if id in ratings then keys else keys + [id],
                ratings[id := group + [RatingRowOf(id, result.ratings[j])]])
  {
    var id := result.netflixId;
    var group := if id in ratings then ratings[id] else [];
    var keys' := if id in ratings then keys else keys + [id];
    var ratings' := ratings[id := group + [RatingRowOf(id, result.ratings[j])]];
    AppendingKeysStep(before, result, j, keys, ratings);
    AppendingGroupStep(before, result, j, ratings);
    assert forall x :: x in ratings' <==> x in keys';
    AppendingFold(before, result, j + 1, keys', ratings');
  }

  /** The three facts that make up `Appending` once at least one row of `result` is in. */
  lemma AppendingFold(
    before: seq<EnrichedResult>, result: EnrichedResult, j: nat, keys: seq<int>, ratings: map<int, seq<RatingRow>>)
    requires 0 < j <= |result.ratings|
    requires keys == GroupKeys(before + [result])
    requires forall x :: x in ratings <==> x in keys
    requires forall x :: x in ratings ==>
      ratings[x] == Group(before, x) + (if x == result.netflixId then RatingRowsOf(result)[..j] else [])
    ensures Appending(before, result, j, keys, ratings)
  {
  }

  /** The group of `result`'s id after one more of its rating rows; other groups are untouched. */
  lemma AppendingGroupStep(
    before: seq<EnrichedResult>, result: EnrichedResult, j: nat, ratings: map<int, seq<RatingRow>>)
    requires j < |result.ratings|
    requires forall x :: x in ratings ==>
      ratings[x] == Group(before, x) + (if x == result.netflixId then RatingRowsOf(result)[..j] else [])
    requires result.netflixId !in ratings ==> j == 0 && result.netflixId !in GroupKeys(before)
    ensures var id := result.netflixId;
      var ratings' := ratings[id := (if id in ratings then ratings[id] else []) + [RatingRowOf(id, result.ratings[j])]];
      forall x :: x in ratings' ==>
        ratings'[x] == Group(before, x) + (if x == id then RatingRowsOf(result)[..j + 1] else [])
  {
    var id := result.netflixId;
    var group := if id in ratings then ratings[id] else [];
    if id !in ratings {
      GroupOfNonKey(before, id);
    }
    assert group == Group(before, id) + RatingRowsOf(result)[..j];
    assert RatingRowsOf(result)[..j + 1] == RatingRowsOf(result)[..j] + [RatingRowOf(id, result.ratings[j])];
  }

  /** The key sequence after one more rating row of `result`. */
  lemma AppendingKeysStep(
    before: seq<EnrichedResult>, result: EnrichedResult, j: nat, keys: seq<int>, ratings: map<int, seq<RatingRow>>)
    requires j < |result.ratings| && Appending(before, result, j, keys, ratings)
    ensures (if result.netflixId in ratings then keys else keys + [result.netflixId]) == GroupKeys(before + [result])
    ensures result.netflixId !in ratings ==> j == 0 && result.netflixId !in GroupKeys(before)
  {
    GroupKeysAfter(before, result);
    if j > 0 {
      assert result.netflixId in GroupKeys(before + [result]);
    }
  }

  lemma AppendedAll(
    before: seq<EnrichedResult>, result: EnrichedResult, keys: seq<int>, ratings: map<int, seq<RatingRow>>)
    requires Appending(before, result, |result.ratings|, keys, ratings)
    ensures HoldsGroups(keys, ratings, before + [result])
  {
    GroupKeysAfter(before, result);
    GroupsAfter(before, result);
    assert RatingRowsOf(result)[..|result.ratings|] == RatingRowsOf(result);
  }

  /**
   * The inner loop of the drain: append the rating rows of `result` under its
   * id, the group starting empty the first time, as with a `defaultdict`.
   */
  method AppendRatings(
    result: EnrichedResult, ghost before: seq<EnrichedResult>, keys0: seq<int>, ratings0: map<int, seq<RatingRow>>)
    returns (keys: seq<int>, ratings: map<int, seq<RatingRow>>)
    requires HoldsGroups(keys0, ratings0, before)
    ensures HoldsGroups(keys, ratings, before + [result])
  {
    keys, ratings := keys0, ratings0;
    var netflixId := result.netflixId;
    AppendingStarts(before, result, keys, ratings);
    var j := 0;
    while j < |result.ratings|
      invariant j <= |result.ratings|
      invariant Appending(before, result, j, keys, ratings)
    {
      var rating := result.ratings[j];
      AppendingStep(before, result, j, keys, ratings);
      var group := if netflixId in ratings then ratings[netflixId] else [];
      if netflixId !in ratings {
        keys := keys + [netflixId];
      }
      ratings := ratings[netflixId := group + [RatingRowOf(netflixId, rating)]];
      j := j + 1;
    }
    AppendedAll(before, result, keys, ratings);
  }

  // ---------------------------------------------------------------------------
  // The drain.

  /** The first `i` consumed results have been turned into frames, Title rows and Availability rows. */
  ghost predicate Emitted(
    done: seq<EnrichedResult>, i: nat, frames: seq<string>, titles: seq<TitleRow>, availability: seq<AvailabilityRow>,
    getField: (Json, string) -> Json, encode: (int, TitleResponse) -> string)
  {
    && i <= |done|
    && |frames| == i && |titles| == i && |availability| == i
    && (forall k :: 0 <= k < i ==>
          && frames[k] == FrameOf(done[k], getField, encode)
          && titles[k] == TitleOf(done[k], getField)
          && availability[k] == AvailabilityOf(done[k]))
  }

  /** Chaining the dictionary's values gives the persisted rating batch. */
  lemma HeldGroupsPersist(keys: seq<int>, ratings: map<int, seq<RatingRow>>, rs: seq<EnrichedResult>)
    requires HoldsGroups(keys, ratings, rs)
    ensures forall i :: 0 <= i < |keys| ==> keys[i] in ratings
    ensures ChainMap(keys, ratings) == PersistedRatings(rs)
  {
    assert forall i :: 0 <= i < |keys| ==> keys[i] in keys;
    ChainMapIsChained(keys, ratings, rs);
  }

  lemma EmittedStep(
    done: seq<EnrichedResult>, i: nat, frames: seq<string>, titles: seq<TitleRow>, availability: seq<AvailabilityRow>,
    getField: (Json, string) -> Json, encode: (int, TitleResponse) -> string)
    requires i < |done| && Emitted(done, i, frames, titles, availability, getField, encode)
    ensures Emitted(done, i + 1, frames + [FrameOf(done[i], getField, encode)], titles + [TitleOf(done[i], getField)],
                    availability + [AvailabilityOf(done[i])], getField, encode)
  {
  }

  /**
   * `stream_ratings` over the task results in the order they complete. It
   * yields one frame per consumed result, in that order, and the rows it
   * persists are exactly those accumulated: one Title and one Availability per
   * consumed result and the rating rows grouped by id. An exception of a task
   * (or the client going away) ends the drain; it is returned as `failure`, the
   * batch still being persisted.
   */
  method StreamRatings(
    completions: seq<Outcome<EnrichedResult>>,
    getField: (Json, string) -> Json, encode: (int, TitleResponse) -> string)
    returns (frames: seq<string>, batch: Batch, failure: Option<Failure>)
    ensures var done := Consumed(completions);
      && |frames| == |done| && |batch.titles| == |done| && |batch.availability| == |done|
      && (forall i :: 0 <= i < |done| ==>
            && frames[i] == FrameOf(done[i], getField, encode)
            && batch.titles[i] == TitleOf(done[i], getField)
            && batch.availability[i] == AvailabilityOf(done[i]))
      && batch.ratings == PersistedRatings(done)
      && failure == (if |done| < |completions| then Some(completions[|done|].failure) else None)
  {
    ghost var done := Consumed(completions);
    var titles: seq<TitleRow> := [];
    var availability: seq<AvailabilityRow> := [];
    var ratings: map<int, seq<RatingRow>> := map[];
    var keys: seq<int> := [];
    frames := [];

    var i := 0;
    assert done[..0] == [];
    while i < |completions| && completions[i].Done?
      invariant Emitted(done, i, frames, titles, availability, getField, encode)
      invariant HoldsGroups(keys, ratings, done[..i])
    {
      var result := completions[i].value;
      assert result == done[i];
      EmittedStep(done, i, frames, titles, availability, getField, encode);
      var netflixId := result.netflixId;

      var title := TitleRow(netflixId, getField(result.reactContext, "title"),
                            getField(result.reactContext, "content_type"),
                            getField(result.reactContext, "release_year"),
                            getField(result.reactContext, "runtime"), result.reactContext);
      assert title == TitleOf(result, getField);
      titles := titles + [title];
      availability := availability + [AvailabilityRow(netflixId, Country, true, true)];

      assert done[..i + 1] == done[..i] + [result];
      keys, ratings := AppendRatings(result, done[..i], keys, ratings);

      var response := TitleResponse(None, title.netflixId, title.title, title.contentType, title.releaseYear,
                                    title.runtime, FindGoogleUsersRating(result.ratings));
      var msg := encode(title.netflixId, response);
      assert msg == MessageOf(result, getField, encode);
      frames := frames + ["data: " + msg + "\n\n"];
      i := i + 1;
    }

    failure := if i < |completions| then Some(completions[i].failure) else None;
    assert i == |done|;
    assert done[..i] == done;
    HeldGroupsPersist(keys, ratings, done);
    batch := Batch(titles, availability, ChainMap(keys, ratings));
  }

  // ---------------------------------------------------------------------------
  // What a client of the stream sees.

  /** The messages the frames carry, in consumption order. */
  function Messages(done: seq<EnrichedResult>, getField: (Json, string) -> Json, encode: (int, TitleResponse) -> string): seq<string> {
    seq(|done|, i requires 0 <= i < |done| => MessageOf(done[i], getField, encode))
  }

  /**
   * A client reading the stream dispatches one event per consumed result, in
   * consumption order, carrying that result's message, provided the encoder
   * writes one line (compact JSON escapes line breaks inside strings).
   */
  lemma StreamReadsBackAsMessages(
    done: seq<EnrichedResult>, frames: seq<string>,
    getField: (Json, string) -> Json, encode: (int, TitleResponse) -> string)
    requires |frames| == |done|
    requires forall i :: 0 <= i < |done| ==> frames[i] == FrameOf(done[i], getField, encode)
    requires forall i :: 0 <= i < |done| ==> EventStream.SingleLine(MessageOf(done[i], getField, encode))
    ensures EventStream.Parse(EventStream.Join(frames)) == Messages(done, getField, encode)
  {
    EventStream.FramesReadBack(frames, Messages(done, getField, encode));
  }

  /** The tasks of a job, in submission order, each against its own detail response. */
  function JobTasks(
    ids: seq<int>, detail: int -> DetailResponse, extract: string -> Extraction,
    getField: (Json, string) -> Json, getSerp: SerpQuery -> Outcome<seq<RatingFields>>): (ts: seq<Task>)
    ensures |ts| == |ids|
  {
    seq(|ids|, i requires 0 <= i < |ids| => DownloadTitleAndLookupRatings(ids[i], detail(ids[i]), extract, getField, getSerp))
  }

  /** `order[i]` is the submission index of the i-th task to complete; every task completes once. */
  predicate IsCompletionOrder(order: seq<nat>, n: nat) {
    && |order| == n
    && (forall i :: 0 <= i < n ==> order[i] < n)
    && (forall i, j :: 0 <= i < j < n ==> order[i] != order[j])
    && (forall j :: 0 <= j < n ==> j in order)
  }

  function InCompletionOrder(tasks: seq<Task>, order: seq<nat>): (cs: seq<Outcome<EnrichedResult>>)
    requires forall i :: 0 <= i < |order| ==> order[i] < |tasks|
    ensures |cs| == |order|
  {
    seq(|order|, i requires 0 <= i < |order| => tasks[order[i]].outcome)
  }

  lemma JobTasksCarryIds(
    ids: seq<int>, detail: int -> DetailResponse, extract: string -> Extraction,
    getField: (Json, string) -> Json, getSerp: SerpQuery -> Outcome<seq<RatingFields>>)
    ensures var tasks := JobTasks(ids, detail, extract, getField, getSerp);
      |tasks| == |ids| &&
      forall k :: 0 <= k < |ids| && tasks[k].outcome.Done? ==> tasks[k].outcome.value.netflixId == ids[k]
  {
    var tasks := JobTasks(ids, detail, extract, getField, getSerp);
    forall k | 0 <= k < |ids| && tasks[k].outcome.Done?
      ensures tasks[k].outcome.value.netflixId == ids[k]
    {
      assert tasks[k] == DownloadTitleAndLookupRatings(ids[k], detail(ids[k]), extract, getField, getSerp);
    }
  }

  /** Without an exception, every completion is consumed. */
  lemma ConsumedAll(cs: seq<Outcome<EnrichedResult>>)
    requires forall i :: 0 <= i < |cs| ==> cs[i].Done?
    ensures |Consumed(cs)| == |cs|
    ensures forall i :: 0 <= i < |cs| ==> Consumed(cs)[i] == cs[i].value
  {
  }

  lemma ConsumedInCompletionOrder(tasks: seq<Task>, ids: seq<int>, order: seq<nat>)
    requires |tasks| == |ids| && IsCompletionOrder(order, |ids|)
    requires forall k :: 0 <= k < |ids| ==> tasks[k].outcome.Done? && tasks[k].outcome.value.netflixId == ids[k]
    ensures var done := Consumed(InCompletionOrder(tasks, order));
      && |done| == |ids|
      && (forall i :: 0 <= i < |ids| ==> done[i].netflixId == ids[order[i]])
      && (forall j :: 0 <= j < |ids| ==> exists i :: 0 <= i < |ids| && done[i].netflixId == ids[j])
  {
    var cs := InCompletionOrder(tasks, order);
    forall i | 0 <= i < |cs|
      ensures cs[i].Done? && cs[i].value.netflixId == ids[order[i]]
    {
      assert cs[i] == tasks[order[i]].outcome;
    }
    ConsumedAll(cs);
    var done := Consumed(cs);
    forall j | 0 <= j < |ids|
      ensures exists i :: 0 <= i < |ids| && done[i].netflixId == ids[j]
    {
      assert j in order;
      var i :| 0 <= i < |order| && order[i] == j;
      assert done[i].netflixId == ids[order[i]];
    }
  }

  /**
   * When no task raises, the drain consumes exactly one result per submitted
   * identifier, whatever the completion order: the i-th carries the id of the
   * i-th task to complete, every submitted id is carried, and distinct
   * submitted ids give distinct units.
   */
  lemma OneUnitPerIdentifier(
    ids: seq<int>, order: seq<nat>, detail: int -> DetailResponse, extract: string -> Extraction,
    getField: (Json, string) -> Json, getSerp: SerpQuery -> Outcome<seq<RatingFields>>)
    requires IsCompletionOrder(order, |ids|)
    requires forall i :: 0 <= i < |ids| ==> JobTasks(ids, detail, extract, getField, getSerp)[i].outcome.Done?
    ensures var done := Consumed(InCompletionOrder(JobTasks(ids, detail, extract, getField, getSerp), order));
      && |done| == |ids|
      && (forall i :: 0 <= i < |ids| ==> done[i].netflixId == ids[order[i]])
      && (forall j :: 0 <= j < |ids| ==> exists i :: 0 <= i < |ids| && done[i].netflixId == ids[j])
      && ((forall i, j :: 0 <= i < j < |ids| ==> ids[i] != ids[j]) ==>
            forall i, j :: 0 <= i < j < |ids| ==> done[i].netflixId != done[j].netflixId)
  {
    JobTasksCarryIds(ids, detail, extract, getField, getSerp);
    ConsumedInCompletionOrder(JobTasks(ids, detail, extract, getField, getSerp), ids, order);
  }
}
