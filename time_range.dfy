/**
 * The time-window filter of the request visualiser (scripts/throwaway/viz.py):
 * keep the observations strictly newer than the latest one minus a window.
 * Timestamps are integers, in the same unit as the window.
 */
module TimeRange {

  /** One logged request: when it arrived and from which user agent. */
  datatype Observation = Observation(timestamp: int, userAgent: string)

  /** The latest timestamp, as `max(data, key=lambda x: x[0])` reads it. */
  function LatestTimestamp(data: seq<Observation>): (t: int)
    requires |data| > 0
    ensures exists i :: 0 <= i < |data| && data[i].timestamp == t
    ensures forall i :: 0 <= i < |data| ==> data[i].timestamp <= t
  {
    if |data| == 1 then data[0].timestamp
    else
      var rest := LatestTimestamp(data[1..]);
      if data[0].timestamp >= rest then data[0].timestamp else rest
  }

  /** The list comprehension `[item for item in data if item[0] > threshold]`. */
  function NewerThan(data: seq<Observation>, threshold: int): (r: seq<Observation>)
    ensures |r| <= |data|
  {
    if data == [] then []
    else if data[0].timestamp > threshold then [data[0]] + NewerThan(data[1..], threshold)
    else NewerThan(data[1..], threshold)
  }

  /** `filter_for_time_range(data, seconds)`; `max` of an empty list raises, hence the precondition. */
  function FilterForTimeRange(data: seq<Observation>, seconds: int): (r: seq<Observation>)
    requires |data| > 0
    ensures |r| <= |data|
  {
    NewerThan(data, LatestTimestamp(data) - seconds)
  }

  /** `xs` is `ys` with some elements left out and the order kept. */
  predicate IsSubsequence(xs: seq<Observation>, ys: seq<Observation>)
    decreases |ys|
  {
    if xs == [] then true
    else if ys == [] then false
    else if xs[0] == ys[0] then IsSubsequence(xs[1..], ys[1..])
    else IsSubsequence(xs, ys[1..])
  }

  lemma {:induction false} NewerThanMembers(data: seq<Observation>, threshold: int, x: Observation)
    ensures x in NewerThan(data, threshold) <==> x in data && x.timestamp > threshold
  {
    if data != [] {
      NewerThanMembers(data[1..], threshold, x);
      assert x in data <==> x == data[0] || x in data[1..];
    }
  }

  lemma {:induction false} NewerThanIsSubsequence(data: seq<Observation>, threshold: int)
    ensures IsSubsequence(NewerThan(data, threshold), data)
  {
    if data != [] {
      NewerThanIsSubsequence(data[1..], threshold);
      var rest := NewerThan(data[1..], threshold);
      if data[0].timestamp <= threshold {
        SubsequenceOfTail(rest, data);
      }
    }
  }

  lemma {:induction false} SubsequenceOfTail(xs: seq<Observation>, ys: seq<Observation>)
    requires ys != [] && IsSubsequence(xs, ys[1..])
    ensures IsSubsequence(xs, ys)
    decreases |ys|, 0
  {
    if xs != [] && xs[0] == ys[0] {
      // `xs[1..]` is a subsequence of `xs`, and so of `ys[1..]`
      SubsequenceDropFirst(xs, ys[1..]);
    }
  }

  lemma {:induction false} SubsequenceDropFirst(xs: seq<Observation>, ys: seq<Observation>)
    requires xs != [] && IsSubsequence(xs, ys)
    ensures IsSubsequence(xs[1..], ys)
    decreases |ys|, 1
  {
    assert ys != [];
    if xs[0] == ys[0] {
      SubsequenceOfTail(xs[1..], ys);
    } else {
      SubsequenceDropFirst(xs, ys[1..]);
      SubsequenceOfTail(xs[1..], ys);
    }
  }

  /** The filter keeps each newer observation as often as it occurs, and no older one. */
  lemma {:induction false} NewerThanCount(data: seq<Observation>, threshold: int, x: Observation)
    ensures multiset(NewerThan(data, threshold))[x] == if x.timestamp > threshold then multiset(data)[x] else 0
  {
    if data != [] {
      NewerThanCount(data[1..], threshold, x);
      assert data == [data[0]] + data[1..];
    }
  }

  /** The result of the filter is the input with the old items removed and the order kept. */
  lemma {:induction false} FilterKeepsOrder(data: seq<Observation>, seconds: int)
    requires |data| > 0
    ensures IsSubsequence(FilterForTimeRange(data, seconds), data)
  {
    NewerThanIsSubsequence(data, LatestTimestamp(data) - seconds);
  }

  /** Kept items are strictly newer than the latest timestamp minus the window; dropped ones are not. */
  lemma {:induction false} FilterKeepsExactlyNewItems(data: seq<Observation>, seconds: int)
    requires |data| > 0
    ensures forall x :: x in data ==>
      (x in FilterForTimeRange(data, seconds) <==> x.timestamp > LatestTimestamp(data) - seconds)
  {
    forall x | x in data
      ensures x in FilterForTimeRange(data, seconds) <==> x.timestamp > LatestTimestamp(data) - seconds
    {
      NewerThanMembers(data, LatestTimestamp(data) - seconds, x);
    }
  }

  /** Each kept item is kept as often as it occurs in the input. */
  lemma {:induction false} FilterKeepsMultiplicity(data: seq<Observation>, seconds: int, x: Observation)
    requires |data| > 0
    ensures multiset(FilterForTimeRange(data, seconds))[x] ==
            if x.timestamp > LatestTimestamp(data) - seconds then multiset(data)[x] else 0
  {
    NewerThanCount(data, LatestTimestamp(data) - seconds, x);
  }

  /** Below the latest timestamp, the latest observation survives and stays the latest. */
  lemma {:induction false} LatestSurvives(data: seq<Observation>, threshold: int)
    requires |data| > 0 && threshold < LatestTimestamp(data)
    ensures |NewerThan(data, threshold)| > 0
    ensures LatestTimestamp(NewerThan(data, threshold)) == LatestTimestamp(data)
  {
    var t := LatestTimestamp(data);
    var i :| 0 <= i < |data| && data[i].timestamp == t;
    var r := NewerThan(data, threshold);
    NewerThanMembers(data, threshold, data[i]);
    assert data[i] in r;
    var j :| 0 <= j < |r| && r[j].timestamp == LatestTimestamp(r);
    NewerThanMembers(data, threshold, r[j]);
    assert r[j] in data;
  }

  /** With a positive window the latest observation survives, so the result is never empty. */
  lemma {:induction false} LatestIsKept(data: seq<Observation>, seconds: int)
    requires |data| > 0 && seconds > 0
    ensures |FilterForTimeRange(data, seconds)| > 0
    ensures LatestTimestamp(FilterForTimeRange(data, seconds)) == LatestTimestamp(data)
  {
    LatestSurvives(data, LatestTimestamp(data) - seconds);
  }

  lemma {:induction false} NothingNewer(data: seq<Observation>, threshold: int)
    requires forall i :: 0 <= i < |data| ==> data[i].timestamp <= threshold
    ensures NewerThan(data, threshold) == []
  {
    if data != [] {
      NothingNewer(data[1..], threshold);
    }
  }

  /** With a window of zero or less nothing is strictly newer than the threshold. */
  lemma {:induction false} EmptyWindowKeepsNothing(data: seq<Observation>, seconds: int)
    requires |data| > 0 && seconds <= 0
    ensures FilterForTimeRange(data, seconds) == []
  {
    NothingNewer(data, LatestTimestamp(data) - seconds);
  }

  lemma {:induction false} NewerThanIdempotent(data: seq<Observation>, threshold: int)
    ensures NewerThan(NewerThan(data, threshold), threshold) == NewerThan(data, threshold)
  {
    if data != [] {
      NewerThanIdempotent(data[1..], threshold);
    }
  }

  /** The filter, once the window's threshold is known. */
  lemma FilterAt(data: seq<Observation>, seconds: int, threshold: int)
    requires |data| > 0 && threshold == LatestTimestamp(data) - seconds
    ensures FilterForTimeRange(data, seconds) == NewerThan(data, threshold)
  {
  }

  /** With a positive window, filtering twice is filtering once. */
  lemma {:induction false} FilterIdempotent(data: seq<Observation>, seconds: int)
    requires |data| > 0 && seconds > 0
    ensures |FilterForTimeRange(data, seconds)| > 0
    ensures FilterForTimeRange(FilterForTimeRange(data, seconds), seconds) == FilterForTimeRange(data, seconds)
  {
    var threshold := LatestTimestamp(data) - seconds;
    var r := NewerThan(data, threshold);
    LatestSurvives(data, threshold);
    NewerThanIdempotent(data, threshold);
    FilterAt(r, seconds, threshold);
  }
}
