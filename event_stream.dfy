/**
 * Server-sent event framing, as the ratings stream of webserver/app.py writes
 * it (section 9.2 of the WHATWG HTML Living Standard, "Server-sent events"),
 * together with the receiving side of that standard's event-stream
 * interpretation, restricted to LF line endings and the `data` field, so that
 * the framing can be shown to read back as the messages it carries.
 */
module EventStream {

  /** One event carrying `data` on a single `data:` line, closed by a blank line. */
  function Frame(data: string): string {
    "data: " + data + "\n\n"
  }

  /** A frame is the "data: " field name, then the data, then the blank line that ends the event. */
  lemma FrameShape(data: string)
    ensures var f := Frame(data);
      && |f| == |data| + 8
      && f[..6] == "data: " && f[6..|f| - 2] == data && f[|f| - 2..] == "\n\n"
  {
  }

  /** No line break that would end the `data:` line early. */
  predicate SingleLine(s: string) {
    forall i :: 0 <= i < |s| ==> s[i] != '\n' && s[i] != '\r'
  }

  /** The bytes on the wire: the frames one after the other. */
  function Join(frames: seq<string>): string {
    if frames == [] then "" else frames[0] + Join(frames[1..])
  }

  // ---------------------------------------------------------------------------
  // The receiving side: the event-stream interpretation of the standard.

  /** The line read so far, the data buffer, and the data of the events dispatched so far. */
  datatype Reader = Reader(line: string, data: string, events: seq<string>)

  const Initial: Reader := Reader("", "", [])

  /** Position of the first colon of `s`, or |s| when there is none. */
  function ColonIndex(s: string): (k: nat)
    ensures k <= |s|
    ensures forall i :: 0 <= i < k ==> s[i] != ':'
    ensures k < |s| ==> s[k] == ':'
  {
    if s == [] || s[0] == ':' then 0 else 1 + ColonIndex(s[1..])
  }

  /**
   * A complete line: a blank line dispatches the data buffer (when it is not
   * empty, without its final LF); a line starting with a colon is a comment;
   * otherwise the field name runs to the first colon and the value follows it,
   * minus one leading space; a `data` field appends the value and an LF to the
   * buffer, and other fields are not modelled.
   */
  function EndLine(r: Reader): Reader {
    var line := r.line;
    if line == "" then
      if r.data == "" then Reader("", "", r.events)
      else
        var d := if r.data[|r.data| - 1] == '\n' then r.data[..|r.data| - 1] else r.data;
        Reader("", "", r.events + [d])
    else if line[0] == ':' then Reader("", r.data, r.events)
    else
      var k := ColonIndex(line);
      var field := line[..k];
      var value :=
        if k == |line| then ""
        else if k + 1 < |line| && line[k + 1] == ' ' then line[k + 2..]
        else line[k + 1..];
      if field == "data" then Reader("", r.data + value + "\n", r.events)
      else Reader("", r.data, r.events)
  }

  function Step(r: Reader, c: char): Reader {
    if c == '\n' then EndLine(r) else r.(line := r.line + [c])
  }

  function Run(r: Reader, s: string): Reader
    decreases |s|
  {
    if s == [] then r else Run(Step(r, s[0]), s[1..])
  }

  /** The data of every event a client dispatches while reading `s`. */
  function Parse(s: string): seq<string> {
    Run(Initial, s).events
  }

  lemma {:induction false} RunAppend(r: Reader, a: string, b: string)
    ensures Run(r, a + b) == Run(Run(r, a), b)
    decreases |a|
  {
    if a == [] {
      assert a + b == b;
    } else {
      assert (a + b)[1..] == a[1..] + b;
      RunAppend(Step(r, a[0]), a[1..], b);
    }
  }

  lemma {:induction false} RunWithinLine(r: Reader, s: string)
    requires forall i :: 0 <= i < |s| ==> s[i] != '\n'
    ensures Run(r, s) == r.(line := r.line + s)
    decreases |s|
  {
    if s == [] {
      assert r.line + s == r.line;
    } else {
      RunWithinLine(r.(line := r.line + [s[0]]), s[1..]);
      assert r.line + [s[0]] + s[1..] == r.line + s;
    }
  }

  lemma DataLine(events: seq<string>, data: string)
    ensures EndLine(Reader("data: " + data, "", events)) == Reader("", data + "\n", events)
  {
    var line := "data: " + data;
    assert ColonIndex(line) == 4 by {
      assert line[0] == 'd' && line[1] == 'a' && line[2] == 't' && line[3] == 'a' && line[4] == ':';
      assert line[1..][1..][1..][1..] == line[4..];
    }
    assert line[..4] == "data";
    assert line[6..] == data;
  }

  lemma BlankLine(events: seq<string>, data: string)
    ensures EndLine(Reader("", data + "\n", events)) == Reader("", "", events + [data])
  {
    assert (data + "\n")[..|data|] == data;
  }

  /** A frame read from a clean state dispatches exactly its data and leaves the state clean. */
  lemma FrameReadsBack(events: seq<string>, data: string)
    requires SingleLine(data)
    ensures Run(Reader("", "", events), Frame(data)) == Reader("", "", events + [data])
  {
    var r := Reader("", "", events);
    var line := "data: " + data;
    assert Frame(data) == line + "\n" + "\n";
    RunAppend(r, line + "\n", "\n");
    RunAppend(r, line, "\n");
    RunWithinLine(r, line);
    assert Run(r, line) == Reader(line, "", events);
    DataLine(events, data);
    BlankLine(events, data);
  }

  lemma {:induction false} FramesReadBackFrom(events: seq<string>, frames: seq<string>, datas: seq<string>)
    requires |frames| == |datas|
    requires forall i :: 0 <= i < |datas| ==> SingleLine(datas[i]) && frames[i] == Frame(datas[i])
    ensures Run(Reader("", "", events), Join(frames)) == Reader("", "", events + datas)
    decreases |frames|
  {
    if frames == [] {
      assert events + datas == events;
    } else {
      RunAppend(Reader("", "", events), frames[0], Join(frames[1..]));
      FrameReadsBack(events, datas[0]);
      FramesReadBackFrom(events + [datas[0]], frames[1..], datas[1..]);
      assert events + [datas[0]] + datas[1..] == events + datas;
    }
  }

  /**
   * Round trip: a client reading the concatenated frames dispatches one event
   * per frame, in order, whose data is what the frame carried.
   */
  lemma FramesReadBack(frames: seq<string>, datas: seq<string>)
    requires |frames| == |datas|
    requires forall i :: 0 <= i < |datas| ==> SingleLine(datas[i]) && frames[i] == Frame(datas[i])
    ensures Parse(Join(frames)) == datas
  {
    FramesReadBackFrom([], frames, datas);
  }
}
