/** The browser-side reader of the chat event stream: it posts a request,
    then reads the response body chunk by chunk, cuts the accumulated text
    into frames at blank lines, keeps the unfinished tail for the next
    chunk, and hands each frame's JSON payload to the callback its event
    name selects, stopping at the `[DONE]` sentinel. */
module SseClient {
  import opened Wrappers
  import Json
  import Text

  /** The four optional callbacks of `SSECallbacks`. */
  datatype Callback = OnStart | OnChunk | OnComplete | OnError

  /** Which of the callbacks the caller supplied. */
  datatype Callbacks = Callbacks(onStart: bool, onChunk: bool, onComplete: bool, onError: bool)
  {
    predicate Has(cb: Callback)
    {
      match cb
      case OnStart => onStart
      case OnChunk => onChunk
      case OnComplete => onComplete
      case OnError => onError
    }
  }

  /** What the client observably does: call a callback with an argument,
      or log that a frame's payload did not parse. */
  datatype Effect = Invoked(callback: Callback, data: Json.Value) | LoggedParseFailure

  /** The callback an event name selects; other names select none. */
  function CallbackFor(kind: string): (r: Option<Callback>)
    ensures r == Some(OnStart) <==> kind == "message-start"
    ensures r == Some(OnChunk) <==> kind == "message-chunk"
    ensures r == Some(OnComplete) <==> kind == "message-complete"
    ensures r == Some(OnError) <==> kind == "error"
  {
    if kind == "message-start" then Some(OnStart)
    else if kind == "message-chunk" then Some(OnChunk)
    else if kind == "message-complete" then Some(OnComplete)
    else if kind == "error" then Some(OnError)
    else None
  }

  /** `callbacks.cb?.(data)`: a call only when the callback was supplied. */
  function Invoke(cbs: Callbacks, cb: Callback, data: Json.Value): (r: seq<Effect>)
    ensures cbs.Has(cb) ==> r == [Invoked(cb, data)]
    ensures !cbs.Has(cb) ==> r == []
  {
    if cbs.Has(cb) then [Invoked(cb, data)] else []
  }

  /** What one complete frame asks of the client. */
  datatype FrameAction =
    | Skip                                      // blank, unnamed data, or malformed
    | Finish                                    // the `data: [DONE]` sentinel
    | Dispatch(kind: string, data: Json.Value)  // a named event with a JSON payload
    | Unparsable                                // a named event whose payload is not JSON

  /** The prefix of the event line and the data line. */
  const EventPrefix := "event: "
  const DataPrefix := "data: "

  /** How `sendMessage` reads one frame: the first line is the event line
      and the second (if any) the data line. A frame without a data line
      whose first line is a `data:` line is the sentinel when it carries
      `[DONE]` and is skipped otherwise; a frame needs both prefixes to be
      dispatched, and is unparsable when its payload is not JSON. */
  function ParseFrame(frame: string): (r: FrameAction)
    ensures Text.IsBlank(frame) ==> r == Skip
    ensures var lines := Text.Split(frame, "\n");
      && (r == Finish <==>
            !Text.IsBlank(frame) && lines[0] == DataPrefix + "[DONE]" && (|lines| == 1 || lines[1] == ""))
      && (r.Dispatch? <==>
            !Text.IsBlank(frame) && |lines| > 1 && Text.StartsWith(lines[0], EventPrefix)
            && Text.StartsWith(lines[1], DataPrefix) && Json.Decode(lines[1][|DataPrefix|..]).Some?)
      && (r == Unparsable <==>
            !Text.IsBlank(frame) && |lines| > 1 && Text.StartsWith(lines[0], EventPrefix)
            && Text.StartsWith(lines[1], DataPrefix) && Json.Decode(lines[1][|DataPrefix|..]).None?)
      && (r.Dispatch? ==> Json.Decode(lines[1][|DataPrefix|..]) == Some(r.data))
    ensures r.Dispatch? ==> forall i :: 0 <= i < |r.kind| ==> r.kind[i] != '\n'
    ensures r.Dispatch? ==> exists e, d :: frame == EventPrefix + r.kind + "\n" + DataPrefix + d + e
                                          && Json.Decode(d) == Some(r.data)
  {
    if Text.IsBlank(frame) then Skip
    else
      var lines := Text.Split(frame, "\n");
      var eventLine := lines[0];
      // A missing second line and an empty one are both falsy.
      var dataLine := if |lines| > 1 then lines[1] else "";
      if dataLine == "" && Text.StartsWith(eventLine, DataPrefix) then
        assert eventLine == DataPrefix + eventLine[|DataPrefix|..];
        if eventLine[|DataPrefix|..] == "[DONE]" then Finish else Skip
      else if !Text.StartsWith(eventLine, EventPrefix) || !Text.StartsWith(dataLine, DataPrefix) then
        assert eventLine == DataPrefix + "[DONE]" ==> Text.StartsWith(eventLine, DataPrefix);
        Skip
      else
        match Json.Decode(dataLine[|DataPrefix|..])
        case None => Unparsable
        case Some(d) =>
          FrameShape(frame, lines);
          UnbrokenLine(eventLine, |EventPrefix|);
          Dispatch(eventLine[|EventPrefix|..], d)
  }

  /** A line of a split at line breaks holds no line break, nor does any
      of its tails. */
  lemma UnbrokenLine(line: string, k: nat)
    requires Text.IndexOf(line, "\n") < 0 && k <= |line|
    ensures forall i :: 0 <= i < |line[k..]| ==> line[k..][i] != '\n'
  {
    forall i | 0 <= i < |line[k..]|
      ensures line[k..][i] != '\n'
    {
      Text.CharOccurs(line, '\n', k + i);
      assert !Text.OccursAt(line, "\n", k + i);
    }
  }

  /** A frame whose first two lines carry the two prefixes is the event
      line's name and the data line's payload, laid out as sent, followed by
      whatever else the frame holds. */
  lemma FrameShape(frame: string, lines: seq<string>)
    requires |lines| > 1 && Text.Join(lines, "\n") == frame
    requires Text.StartsWith(lines[0], EventPrefix) && Text.StartsWith(lines[1], DataPrefix)
    ensures exists e :: frame == EventPrefix + lines[0][|EventPrefix|..] + "\n" + DataPrefix + lines[1][|DataPrefix|..] + e
  {
    FrameLayout(frame, lines);
    var rest := if |lines| > 2 then "\n" + Text.Join(lines[2..], "\n") else "";
    PrefixedLines(frame, lines[0], lines[1], rest, EventPrefix, DataPrefix);
  }

  /** Two lines that start with the given prefixes, laid out around a line
      break. */
  lemma PrefixedLines(frame: string, first: string, second: string, rest: string, p1: string, p2: string)
    requires frame == first + "\n" + second + rest
    requires Text.StartsWith(first, p1) && Text.StartsWith(second, p2)
    ensures frame == p1 + first[|p1|..] + "\n" + p2 + second[|p2|..] + rest
    ensures exists e :: frame == p1 + first[|p1|..] + "\n" + p2 + second[|p2|..] + e
  {
    assert first == p1 + first[|p1|..];
    assert second == p2 + second[|p2|..];
  }

  /** A frame is its first line, a line break, its second line and the rest. */
  lemma FrameLayout(frame: string, lines: seq<string>)
    requires |lines| > 1 && Text.Join(lines, "\n") == frame
    ensures frame == lines[0] + "\n" + lines[1] + (if |lines| > 2 then "\n" + Text.Join(lines[2..], "\n") else "")
  {
    assert Text.Join(lines, "\n") == lines[0] + "\n" + Text.Join(lines[1..], "\n");
    assert lines[1..][0] == lines[1];
    if |lines| > 2 {
      assert lines[1..][1..] == lines[2..];
    }
  }

  /** The effects of one frame's action. */
  function ActionEffects(a: FrameAction, cbs: Callbacks): seq<Effect>
  {
    match a
    case Skip => []
    case Finish => []
    case Unparsable => [LoggedParseFailure]
    case Dispatch(kind, data) =>
      match CallbackFor(kind)
      case None => []
      case Some(cb) => Invoke(cbs, cb, data)
  }

  /** The frames in order up to the sentinel: the effects, and whether the
      sentinel was reached. */
  function RunFrames(frames: seq<string>, cbs: Callbacks): (r: (seq<Effect>, bool))
    ensures forall k :: 0 <= k < |r.0| && r.0[k].Invoked? ==> cbs.Has(r.0[k].callback)
  {
    if |frames| == 0 then ([], false)
    else
      var a := ParseFrame(frames[0]);
      if a == Finish then ([], true)
      else
        var rest := RunFrames(frames[1..], cbs);
        (ActionEffects(a, cbs) + rest.0, rest.1)
  }

  /** Frames are processed one after another: running `a + b` runs `a`, and
      then `b` only when `a` did not reach the sentinel. */
  lemma {:induction false} RunFramesAppend(a: seq<string>, b: seq<string>, cbs: Callbacks)
    ensures RunFrames(a + b, cbs)
         == if RunFrames(a, cbs).1 then RunFrames(a, cbs)
            else (RunFrames(a, cbs).0 + RunFrames(b, cbs).0, RunFrames(b, cbs).1)
  {
    if |a| == 0 {
      assert a + b == b;
      assert [] + RunFrames(b, cbs).0 == RunFrames(b, cbs).0;
    } else {
      assert (a + b)[0] == a[0];
      assert (a + b)[1..] == a[1..] + b;
      var act := ParseFrame(a[0]);
      if act != Finish {
        RunFramesAppend(a[1..], b, cbs);
        var ra, rb := RunFrames(a[1..], cbs), RunFrames(b, cbs);
        if !ra.1 {
          assert ActionEffects(act, cbs) + (ra.0 + rb.0) == (ActionEffects(act, cbs) + ra.0) + rb.0;
        }
      }
    }
  }

  /** Nothing after the sentinel is dispatched. */
  lemma SentinelStops(frames: seq<string>, k: int, cbs: Callbacks)
    requires 0 <= k < |frames| && ParseFrame(frames[k]) == Finish
    ensures RunFrames(frames, cbs).1
    ensures RunFrames(frames, cbs).0 == RunFrames(frames[..k], cbs).0
  {
    var before, after := frames[..k], frames[k + 1..];
    assert frames == before + ([frames[k]] + after);
    RunFramesAppend(before, [frames[k]] + after, cbs);
    RunFromSentinel(frames[k], after, cbs);
  }

  /** A run that starts at the sentinel stops there with no effect. */
  lemma RunFromSentinel(f: string, rest: seq<string>, cbs: Callbacks)
    requires ParseFrame(f) == Finish
    ensures RunFrames([f] + rest, cbs) == ([], true)
  {
    assert ([f] + rest)[0] == f;
  }

  /** The frames separated by blank lines in `text`: every part but the last,
      which may still be growing. */
  function CompleteFrames(text: string): seq<string>
  {
    var parts := Text.Split(text, "\n\n");
    parts[..|parts| - 1]
  }

  /** The part after the last blank line: what `sendMessage` keeps buffered. */
  function Pending(text: string): string
  {
    Text.Last(Text.Split(text, "\n\n"))
  }

  /** Cutting frames is resumable: the complete frames of `p + c` are those
      of `p` followed by those of `p`'s buffered tail extended by `c`. */
  lemma CompleteFramesAppend(p: string, c: string)
    ensures CompleteFrames(p + c) == CompleteFrames(p) + CompleteFrames(Pending(p) + c)
    ensures Pending(p + c) == Pending(Pending(p) + c)
  {
    Text.SplitAppendParts(p, c, "\n\n");
  }

  /** The response as the client sees it: whether the status is a success,
      the body text of a failed response, whether a success has a readable
      body, the chunks that body delivers and the error (if any) that a read
      raises after them. */
  datatype HttpResponse = HttpResponse(
    ok: bool,
    errorBody: string,
    hasBody: bool,
    chunks: seq<string>,
    readError: Option<Thrown>)

  /** What `sendMessage` does: its effects, whether it released the reader's
      lock, and whether its promise rejected. */
  datatype ClientRun = ClientRun(effects: seq<Effect>, lockReleased: bool, threw: bool)

  /** JavaScript truthiness of a JSON value. */
  predicate Truthy(v: Json.Value)
  {
    match v
    case Null => false
    case Bool(b) => b
    case Str(s) => s != ""
    case Arr(_) => true
    case Obj(_) => true
  }

  /** `{ message: m }`. */
  function MessageObject(m: Json.Value): Json.Value
  {
    Json.Obj([Json.Member("message", m)])
  }

  /** The `message` reported for a failed status: the body's `error` field
      when it is truthy, `"Request failed"` when it is not, and the
      `"Unknown error"` stand-in when the body is not JSON. `None` when the
      body is `null`, whose `.error` throws. */
  function FailedStatusMessage(body: string): (r: Option<Json.Value>)
    ensures r.None? <==> Json.Decode(body) == Some(Json.Null)
    ensures Json.Decode(body).None? ==> r == Some(Json.Str("Unknown error"))
    ensures r.Some? ==> Truthy(r.value)
  {
    match Json.Decode(body)
    case None => Some(Json.Str("Unknown error"))
    case Some(Null) => None
    case Some(v) =>
      match Json.Field(v, "error")
      case Some(e) => if Truthy(e) then Some(e) else Some(Json.Str("Request failed"))
      case None => Some(Json.Str("Request failed"))
  }

  /** What `sendMessage` does with a fetch that rejected or with a response. */
  function ExpectedRun(fetched: Result<HttpResponse, Thrown>, cbs: Callbacks): (r: ClientRun)
    ensures r.lockReleased <==> fetched.Ok? && fetched.value.ok && fetched.value.hasBody
    ensures r.threw ==> r.effects == []
    ensures forall k :: 0 <= k < |r.effects| && r.effects[k].Invoked? ==> cbs.Has(r.effects[k].callback)
  {
    match fetched
    case Err(_) => ClientRun([], false, true)
    case Ok(resp) =>
      if !resp.ok then
        match FailedStatusMessage(resp.errorBody)
        case None => ClientRun([], false, true)
        case Some(m) => ClientRun(Invoke(cbs, OnError, MessageObject(m)), false, false)
      else if !resp.hasBody then
        ClientRun(Invoke(cbs, OnError, MessageObject(Json.Str("No response body"))), false, false)
      else
        var run := RunFrames(CompleteFrames(Text.Concat(resp.chunks)), cbs);
        if run.1 || resp.readError.None? then ClientRun(run.0, true, false)
        else
          var m := MessageOr(resp.readError.value, "Unknown error");
          ClientRun(run.0 + Invoke(cbs, OnError, MessageObject(Json.Str(m))), true, false)
  }

  /** The chunks up to `i + 1` are those up to `i` and then chunk `i`. */
  lemma ConcatStep(chunks: seq<string>, i: int)
    requires 0 <= i < |chunks|
    ensures Text.Concat(chunks[..i + 1]) == Text.Concat(chunks[..i]) + chunks[i]
  {
    assert chunks[..i + 1] == chunks[..i] + [chunks[i]];
    Text.ConcatAppend(chunks[..i], [chunks[i]]);
    assert Text.Concat([chunks[i]]) == chunks[i] + Text.Concat([]);
  }

  /** The complete frames of a prefix of the chunks begin the complete
      frames of all of them. */
  lemma FramesOfPrefix(chunks: seq<string>, n: int) returns (more: seq<string>)
    requires 0 <= n <= |chunks|
    ensures CompleteFrames(Text.Concat(chunks)) == CompleteFrames(Text.Concat(chunks[..n])) + more
  {
    var p := Text.Concat(chunks[..n]);
    var c := Text.Concat(chunks[n..]);
    assert chunks == chunks[..n] + chunks[n..];
    Text.ConcatAppend(chunks[..n], chunks[n..]);
    CompleteFramesAppend(p, c);
    more := CompleteFrames(Pending(p) + c);
  }

  /** Once the frames of a prefix of the chunks reach the sentinel, the
      whole stream's run is the same, whatever follows. */
  lemma StoppedPrefix(chunks: seq<string>, n: int, cbs: Callbacks)
    requires 0 <= n <= |chunks|
    requires RunFrames(CompleteFrames(Text.Concat(chunks[..n])), cbs).1
    ensures RunFrames(CompleteFrames(Text.Concat(chunks)), cbs) == RunFrames(CompleteFrames(Text.Concat(chunks[..n])), cbs)
  {
    var more := FramesOfPrefix(chunks, n);
    RunFramesAppend(CompleteFrames(Text.Concat(chunks[..n])), more, cbs);
  }

  /** One more chunk: the buffer extended by the chunk splits into the new
      complete frames and the new buffer. */
  lemma ChunkStep(chunks: seq<string>, i: int)
    requires 0 <= i < |chunks|
    ensures var lines := Text.Split(Pending(Text.Concat(chunks[..i])) + chunks[i], "\n\n");
            CompleteFrames(Text.Concat(chunks[..i + 1])) == CompleteFrames(Text.Concat(chunks[..i])) + lines[..|lines| - 1]
            && Pending(Text.Concat(chunks[..i + 1])) == lines[|lines| - 1]
  {
    ConcatStep(chunks, i);
    CompleteFramesAppend(Text.Concat(chunks[..i]), chunks[i]);
  }

  /** One iteration of the read loop: the frames completed by one more chunk
      continue a run that has not reached the sentinel. */
  lemma ReadStep(chunks: seq<string>, i: int, cbs: Callbacks)
    requires 0 <= i < |chunks|
    requires !RunFrames(CompleteFrames(Text.Concat(chunks[..i])), cbs).1
    ensures var lines := Text.Split(Pending(Text.Concat(chunks[..i])) + chunks[i], "\n\n");
            var added := RunFrames(lines[..|lines| - 1], cbs);
            RunFrames(CompleteFrames(Text.Concat(chunks[..i + 1])), cbs)
              == (RunFrames(CompleteFrames(Text.Concat(chunks[..i])), cbs).0 + added.0, added.1)
            && Pending(Text.Concat(chunks[..i + 1])) == lines[|lines| - 1]
  {
    var lines := Text.Split(Pending(Text.Concat(chunks[..i])) + chunks[i], "\n\n");
    ChunkStep(chunks, i);
    RunFramesAppend(CompleteFrames(Text.Concat(chunks[..i])), lines[..|lines| - 1], cbs);
  }

  /** Running one more frame after frames that did not reach the sentinel. */
  lemma RunFramesSnoc(frames: seq<string>, j: int, cbs: Callbacks)
    requires 0 <= j < |frames| && !RunFrames(frames[..j], cbs).1
    ensures ParseFrame(frames[j]) == Finish ==> RunFrames(frames[..j + 1], cbs) == (RunFrames(frames[..j], cbs).0, true)
    ensures ParseFrame(frames[j]) != Finish ==>
      RunFrames(frames[..j + 1], cbs) == (RunFrames(frames[..j], cbs).0 + ActionEffects(ParseFrame(frames[j]), cbs), false)
  {
    assert frames[..j + 1] == frames[..j] + [frames[j]];
    RunFramesAppend(frames[..j], [frames[j]], cbs);
    assert [frames[j]][1..] == [];
    var e := RunFrames(frames[..j], cbs).0;
    assert e + [] == e;
    assert ActionEffects(ParseFrame(frames[j]), cbs) + [] == ActionEffects(ParseFrame(frames[j]), cbs);
  }

  /** Frames that reach the sentinel decide the run of any longer list. */
  lemma RunFramesStopped(frames: seq<string>, n: int, cbs: Callbacks)
    requires 0 <= n <= |frames| && RunFrames(frames[..n], cbs).1
    ensures RunFrames(frames, cbs) == RunFrames(frames[..n], cbs)
  {
    assert frames == frames[..n] + frames[n..];
    RunFramesAppend(frames[..n], frames[n..], cbs);
  }

  /** The `for` loop over the frames cut from the buffer: dispatches each
      in turn and stops at the sentinel. */
  method DispatchFrames(frames: seq<string>, cbs: Callbacks) returns (effects: seq<Effect>, finished: bool)
    ensures RunFrames(frames, cbs) == (effects, finished)
  {
    effects := [];
    var j := 0;
    while j < |frames|
      invariant 0 <= j <= |frames|
      invariant RunFrames(frames[..j], cbs) == (effects, false)
    {
      var action := ParseFrame(frames[j]);
      RunFramesSnoc(frames, j, cbs);
      if action == Finish {
        RunFramesStopped(frames, j + 1, cbs);
        return effects, true;
      }
      effects := effects + ActionEffects(action, cbs);
      j := j + 1;
    }
    assert frames[..j] == frames;
    return effects, false;
  }

  /** The `while (true)` read loop: appends each chunk to the buffer, cuts
      off the complete frames and keeps the rest, until the chunks run out
      or a frame is the sentinel. */
  method ReadChunks(chunks: seq<string>, cbs: Callbacks) returns (effects: seq<Effect>, finished: bool)
    ensures RunFrames(CompleteFrames(Text.Concat(chunks)), cbs) == (effects, finished)
  {
    var buffer := "";
    effects := [];
    var i := 0;
    while i < |chunks|
      invariant 0 <= i <= |chunks|
      invariant buffer == Pending(Text.Concat(chunks[..i]))
      invariant RunFrames(CompleteFrames(Text.Concat(chunks[..i])), cbs) == (effects, false)
    {
      ReadStep(chunks, i, cbs);
      buffer := buffer + chunks[i];
      var lines := Text.Split(buffer, "\n\n");
      var frames := lines[..|lines| - 1];
      buffer := lines[|lines| - 1];
      var more, stop := DispatchFrames(frames, cbs);
      effects := effects + more;
      if stop {
        StoppedPrefix(chunks, i + 1, cbs);
        return effects, true;
      }
      i := i + 1;
    }
    assert chunks[..i] == chunks;
    return effects, false;
  }

  /** The client of one endpoint. */
  class SseChatClient {
    const baseUrl: string

    constructor (baseUrl: string)
      ensures this.baseUrl == baseUrl
    {
      this.baseUrl := baseUrl;
    }

    /** The URL `sendMessage` posts to. */
    function Endpoint(): (url: string)
      reads this
      ensures Text.StartsWith(url, baseUrl) && url[|baseUrl|..] == "/api/stream"
    {
      baseUrl + "/api/stream"
    }

    /** `sendMessage`, given what `fetch` produced: reads the chunks as they
        arrive, keeping the unfinished frame in a buffer. Cutting the stream
        incrementally does exactly what cutting the whole text at once does,
        wherever the chunk boundaries fall. */
    method SendMessage(fetched: Result<HttpResponse, Thrown>, cbs: Callbacks) returns (run: ClientRun)
      ensures run == ExpectedRun(fetched, cbs)
    {
      if fetched.Err? {
        return ClientRun([], false, true);
      }
      var resp := fetched.value;
      if !resp.ok {
        var m := FailedStatusMessage(resp.errorBody);
        if m.None? {
          return ClientRun([], false, true);
        }
        return ClientRun(Invoke(cbs, OnError, MessageObject(m.value)), false, false);
      }
      if !resp.hasBody {
        return ClientRun(Invoke(cbs, OnError, MessageObject(Json.Str("No response body"))), false, false);
      }
      var effects, finished := ReadChunks(resp.chunks, cbs);
      if finished {
        return ClientRun(effects, true, false);
      }
      if resp.readError.Some? {
        var m := MessageOr(resp.readError.value, "Unknown error");
        effects := effects + Invoke(cbs, OnError, MessageObject(Json.Str(m)));
      }
      return ClientRun(effects, true, false);
    }
  }
}
