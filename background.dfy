/**
 * The service worker of the browser extension (extension-core/background.js):
 * ids of titles without data are collected in a set, sent in one POST a while
 * after the last one arrived, and each accepted job is followed on its own
 * event stream until that stream fails. Timers, storage, the network and the
 * stream objects are reduced to the state they leave in the worker.
 */
module Background {
  import opened Wrappers

  const BaseUrl: string := "http://localhost:80"
  const DefaultCountry: string := "US"

  /** Messages from the content scripts. */
  datatype Message =
    | MissingTitleData(netflixId: int)
    /** `pageCountry` is the page's request country, None when reading it threw. */
    | Activated(pageCountry: Option<string>)
    | OtherMessage(kind: string)

  /** The POST of a batch of ids: the country query parameter and the JSON array body. */
  datatype TitlesPost = TitlesPost(country: string, body: seq<int>)

  /** How the POST ended: a created job, or a failed request or a non-ok response. */
  datatype PostResult = JobCreated(jobId: string) | PostFailed

  /** An open event stream, known by the URL it follows. */
  datatype EventSource = EventSource(url: string)

  function StreamUrl(jobId: string): string {
    BaseUrl + "/api/stream/" + jobId
  }

  predicate Distinct(s: seq<int>) {
    forall i, j :: 0 <= i < j < |s| ==> s[i] != s[j]
  }

  /**
   * `Set.prototype.add` on an insertion-ordered set: the set gains `x`, an id
   * already present leaves it as it is, and the earlier ids keep their order.
   */
  function SetAdd(s: seq<int>, x: int): (r: seq<int>)
    requires Distinct(s)
    ensures Distinct(r)
    ensures forall y :: y in r <==> y in s || y == x
    ensures x in s ==> r == s
    ensures |r| >= |s| && r[..|s|] == s
  {
    if x in s then s else s + [x]
  }

  class Worker {
    /** The pending ids, in insertion order (a JavaScript `Set`). */
    var payload: seq<int>
    /** The id of the last send timer set, if any. */
    var sendTimeout: Option<nat>
    /** Timers set and neither fired nor cleared. */
    var scheduled: set<nat>
    var nextTimer: nat
    /** The `COUNTRY` entry of the extension's storage. */
    var storedCountry: Option<string>
    /** The open event streams by job id. */
    var eventSources: map<string, EventSource>

    /** At most one send is scheduled, by the last timer set; each stream follows its job. */
    ghost predicate Valid()
      reads this
    {
      && Distinct(payload)
      && (sendTimeout.None? ==> scheduled == {})
      && (sendTimeout.Some? ==> scheduled <= {sendTimeout.value} && sendTimeout.value < nextTimer)
      && (forall jobId :: jobId in eventSources ==> eventSources[jobId].url == StreamUrl(jobId))
    }

    /** A (re)started worker: its module-level state is fresh, `chrome.storage` keeps `stored`. */
    constructor (stored: Option<string>)
      ensures Valid()
      ensures payload == [] && sendTimeout == None && scheduled == {}
      ensures storedCountry == stored && eventSources == map[]
    {
      payload := [];
      sendTimeout := None;
      scheduled := {};
      nextTimer := 1;
      storedCountry := stored;
      eventSources := map[];
    }

    /**
     * The `onMessage` listener. A missing title adds its id and replaces any
     * scheduled send by a new one; an activation stores the page's country,
     * "US" when it could not be read; other messages change nothing here.
     */
    method OnMessage(m: Message)
      requires Valid()
      modifies this
      ensures Valid()
      ensures m.MissingTitleData? ==>
        && payload == SetAdd(old(payload), m.netflixId)
        && sendTimeout == Some(old(nextTimer)) && scheduled == {old(nextTimer)}
      ensures !m.MissingTitleData? ==>
        payload == old(payload) && sendTimeout == old(sendTimeout) && scheduled == old(scheduled)
      ensures storedCountry == if m.Activated? then Some(m.pageCountry.GetOr(DefaultCountry)) else old(storedCountry)
      ensures eventSources == old(eventSources)
    {
      match m
      case MissingTitleData(netflixId) =>
        payload := SetAdd(payload, netflixId);
        if sendTimeout.Some? {
          scheduled := scheduled - {sendTimeout.value};
        }
        sendTimeout := Some(nextTimer);
        scheduled := scheduled + {nextTimer};
        nextTimer := nextTimer + 1;
      case Activated(pageCountry) =>
        storedCountry := Some(pageCountry.GetOr(DefaultCountry));
      case OtherMessage(_) =>
    }

    /** A scheduled send timer fires and calls `sendPayload`. */
    method FireTimer(timer: nat) returns (post: Option<TitlesPost>)
      requires Valid() && timer in scheduled
      modifies this
      ensures Valid()
      ensures scheduled == {}
      ensures post == if old(payload) == [] then None else Some(TitlesPost(old(storedCountry).GetOr(DefaultCountry), old(payload)))
      ensures payload == []
      ensures sendTimeout == old(sendTimeout)
      ensures storedCountry == old(storedCountry) && eventSources == old(eventSources)
    {
      scheduled := scheduled - {timer};
      post := SendPayload();
    }

    /**
     * `sendPayload`: nothing at all when no id is pending; otherwise the pending
     * ids, each once, are posted with the stored country ("US" by default) and
     * the set is emptied.
     */
    method SendPayload() returns (post: Option<TitlesPost>)
      requires Valid()
      modifies this
      ensures Valid()
      ensures old(payload) == [] ==> post == None && unchanged(this)
      ensures old(payload) != [] ==>
        && post == Some(TitlesPost(old(storedCountry).GetOr(DefaultCountry), old(payload)))
        && payload == []
      ensures post.Some? ==> Distinct(post.value.body) && forall id :: id in post.value.body <==> id in old(payload)
      ensures sendTimeout == old(sendTimeout) && scheduled == old(scheduled)
      ensures storedCountry == old(storedCountry) && eventSources == old(eventSources)
    {
      if |payload| == 0 {
        return None;
      }
      var dataToSend := payload;
      payload := [];
      post := Some(TitlesPost(storedCountry.GetOr(DefaultCountry), dataToSend));
    }

    /** The POST's outcome: a created job gets an event stream registered under its id. */
    method OnPostResult(result: PostResult)
      requires Valid()
      modifies this
      ensures Valid()
      ensures eventSources ==
        if result.JobCreated? then old(eventSources)[result.jobId := EventSource(StreamUrl(result.jobId))]
        else old(eventSources)
      ensures payload == old(payload) && sendTimeout == old(sendTimeout) && scheduled == old(scheduled)
      ensures storedCountry == old(storedCountry)
    {
      match result
      case JobCreated(jobId) =>
        eventSources := eventSources[jobId := EventSource(StreamUrl(jobId))];
      case PostFailed =>
    }

    /** A stream's `onerror`: the stream is closed and only its own entry removed. */
    method OnStreamError(jobId: string)
      requires Valid()
      modifies this
      ensures Valid()
      ensures eventSources == old(eventSources) - {jobId}
      ensures forall other :: other != jobId && other in old(eventSources) ==>
        other in eventSources && eventSources[other] == old(eventSources)[other]
      ensures payload == old(payload) && sendTimeout == old(sendTimeout) && scheduled == old(scheduled)
      ensures storedCountry == old(storedCountry)
    {
      eventSources := eventSources - {jobId};
    }
  }

  /** At most one send is pending at any time. */
  lemma AtMostOneSendPending(w: Worker)
    requires w.Valid()
    ensures |w.scheduled| <= 1
  {
    if w.sendTimeout.Some? {
      var t := w.sendTimeout.value;
      assert w.scheduled <= {t};
      if w.scheduled != {} {
        assert w.scheduled == {t};
      }
    }
  }

  /** Repeated ids of missing titles are sent once, in the order first seen. */
  method BatchingScenario()
  {
    var w := new Worker(None);
    w.OnMessage(MissingTitleData(7));
    w.OnMessage(OtherMessage("other"));
    w.OnMessage(MissingTitleData(9));
    w.OnMessage(MissingTitleData(7));
    AtMostOneSendPending(w);
    assert w.payload == [7, 9];
    var timer := w.sendTimeout.value;
    var post := w.FireTimer(timer);
    assert post == Some(TitlesPost(DefaultCountry, [7, 9]));
    var none := w.SendPayload();
    assert none == None;
    w.OnPostResult(JobCreated("job"));
    assert w.eventSources["job"].url == StreamUrl("job");
    w.OnStreamError("job");
    assert "job" !in w.eventSources;
  }
}
