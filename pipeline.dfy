/** How the two ends of the chat stream fit together: what the endpoint
    writes, the client reads back as exactly the events that were written,
    in order, each handed to its own callback with its own payload; an
    error reply reaches the client's error callback with its message; and a
    request the client serialises reaches the endpoint's validator intact. */
module Pipeline {
  import opened Wrappers
  import Json
  import Text
  import CRR = CustomRequestResponse
  import ChatEvents
  import opened SseClient

  /** No line break. */
  predicate NoNewline(s: string)
  {
    forall i :: 0 <= i < |s| ==> s[i] != '\n'
  }

  /** A frame as `sendSSE` writes it, without its closing blank line. */
  function FrameBody(kind: string, data: Json.Value): string
  {
    EventPrefix + kind + "\n" + DataPrefix + Json.Encode(data)
  }

  lemma EventFrameIsBody(kind: string, data: Json.Value)
    ensures CRR.EventFrame(kind, data) == FrameBody(kind, data) + "\n\n"
  {
  }

  /** `pat` does not start at `j` when the character there differs. */
  lemma NotAt(s: string, pat: string, j: int)
    requires 0 <= j < |s| && |pat| > 0 && s[j] != pat[0]
    ensures !Text.OccursAt(s, pat, j)
  {
    if j + |pat| <= |s| {
      assert s[j..j + |pat|][0] == s[j];
    }
  }

  /** `pat` does not start at `j` when the character after differs from
      its second one. */
  lemma NotAtSecond(s: string, pat: string, j: int)
    requires 0 <= j && j + 1 < |s| && |pat| > 1 && s[j + 1] != pat[1]
    ensures !Text.OccursAt(s, pat, j)
  {
    if j + |pat| <= |s| {
      assert s[j..j + |pat|][1] == s[j + 1];
    }
  }

  /** A JSON encoding is one line. */
  lemma EncodeOneLine(data: Json.Value)
    ensures NoNewline(Json.Encode(data))
  {
    Json.EncodeNoControl(data);
    var e := Json.Encode(data);
    forall i | 0 <= i < |e|
      ensures e[i] != '\n'
    {
      assert e[i] as int >= 0x20;
    }
  }

  /** The two lines of a frame body. */
  lemma LinesOneLine(kind: string, data: Json.Value)
    requires NoNewline(kind)
    ensures NoNewline(EventPrefix + kind)
    ensures NoNewline(DataPrefix + Json.Encode(data))
  {
    var a := EventPrefix + kind;
    forall i | 0 <= i < |a|
      ensures a[i] != '\n'
    {
      if i >= |EventPrefix| {
        assert a[i] == kind[i - |EventPrefix|];
      }
    }
    var b := DataPrefix + Json.Encode(data);
    EncodeOneLine(data);
    forall i | 0 <= i < |b|
      ensures b[i] != '\n'
    {
      if i >= |DataPrefix| {
        assert b[i] == Json.Encode(data)[i - |DataPrefix|];
      }
    }
  }

  /** A line splits into itself alone. */
  lemma SplitLine(line: string)
    requires NoNewline(line)
    ensures Text.Split(line, "\n") == [line]
  {
    forall j | 0 <= j < |line|
      ensures !Text.OccursAt(line, "\n", j)
    {
      NotAt(line, "\n", j);
    }
    Text.SplitNone(line, "\n");
  }

  /** A frame body has two lines: the event line and the data line. */
  lemma BodyLines(kind: string, data: Json.Value)
    requires NoNewline(kind)
    ensures Text.Split(FrameBody(kind, data), "\n") == [EventPrefix + kind, DataPrefix + Json.Encode(data)]
  {
    var a := EventPrefix + kind;
    var b := DataPrefix + Json.Encode(data);
    assert FrameBody(kind, data) == a + "\n" + b;
    LinesOneLine(kind, data);
    forall j | 0 <= j < |a|
      ensures !Text.OccursAt(a + "\n" + b, "\n", j)
    {
      assert (a + "\n" + b)[j] == a[j];
      NotAt(a + "\n" + b, "\n", j);
    }
    Text.SplitCons(a, b, "\n");
    SplitLine(b);
  }

  /** A frame body holds no blank line and does not end in a line break, so
      the blank line after it is the first one. */
  lemma BodyHasNoSeparator(kind: string, data: Json.Value, rest: string)
    requires NoNewline(kind)
    ensures forall j {:trigger Text.OccursAt(FrameBody(kind, data) + "\n\n" + rest, "\n\n", j)} ::
      0 <= j < |FrameBody(kind, data)| ==> !Text.OccursAt(FrameBody(kind, data) + "\n\n" + rest, "\n\n", j)
  {
    var a := EventPrefix + kind;
    var b := DataPrefix + Json.Encode(data);
    var s := FrameBody(kind, data) + "\n\n" + rest;
    assert s == a + "\n" + b + "\n\n" + rest;
    LinesOneLine(kind, data);
    forall j | 0 <= j < |FrameBody(kind, data)|
      ensures !Text.OccursAt(s, "\n\n", j)
    {
      if j < |a| {
        assert s[j] == a[j];
        NotAt(s, "\n\n", j);
      } else if j == |a| {
        assert s[j + 1] == b[0] == 'd';
        NotAtSecond(s, "\n\n", j);
      } else {
        assert s[j] == b[j - |a| - 1];
        NotAt(s, "\n\n", j);
      }
    }
  }

  /** The client reads a frame written for an event name without line breaks
      as a dispatch of that name with the payload that was written. */
  lemma ParseEventFrame(kind: string, data: Json.Value)
    requires NoNewline(kind)
    ensures ParseFrame(FrameBody(kind, data)) == Dispatch(kind, data)
  {
    var body := FrameBody(kind, data);
    assert body[0] == 'e';
    assert !Text.IsJsWhitespace(body[0]);
    BodyLines(kind, data);
    var dataLine := DataPrefix + Json.Encode(data);
    assert dataLine[|DataPrefix|..] == Json.Encode(data);
    assert (EventPrefix + kind)[|EventPrefix|..] == kind;
    assert Text.StartsWith(EventPrefix + kind, EventPrefix);
    assert Text.StartsWith(dataLine, DataPrefix);
    Json.DecodeEncode(data);
  }

  /** The sentinel frame, without its closing blank line. */
  const DoneBody := CRR.DoneLine

  lemma ParseDoneFrame()
    ensures ParseFrame(DoneBody) == Finish
  {
    assert DoneBody[0] == 'd';
    assert !Text.IsBlank(DoneBody);
    assert NoNewline(DoneBody);
    SplitLine(DoneBody);
    assert Text.StartsWith(DoneBody, DataPrefix);
    assert DoneBody[|DataPrefix|..] == "[DONE]";
  }

  /** A line followed by a blank line splits off as the first part. */
  lemma SplitBeforeBlank(line: string, rest: string)
    requires NoNewline(line)
    ensures Text.Split(line + "\n\n" + rest, "\n\n") == [line] + Text.Split(rest, "\n\n")
  {
    var s := line + "\n\n" + rest;
    forall j | 0 <= j < |line|
      ensures !Text.OccursAt(s, "\n\n", j)
    {
      assert s[j] == line[j];
      NotAt(s, "\n\n", j);
    }
    Text.SplitCons(line, rest, "\n\n");
  }

  /** The sentinel is one frame body and a blank line. */
  lemma SplitDoneFrame()
    ensures Text.Split(CRR.DoneFrame, "\n\n") == [DoneBody, ""]
  {
    assert NoNewline(DoneBody);
    SplitBeforeBlank(DoneBody, "");
    Text.SplitNone("", "\n\n");
    assert CRR.DoneFrame + "" == CRR.DoneFrame;
  }

  /** A frame written by `sendSSEData` is never taken for the sentinel or
      dispatched: the client skips it. */
  lemma DataFrameSkipped(data: Json.Value)
    ensures ParseFrame(DataPrefix + Json.Encode(data)) == Skip
  {
    var line := DataPrefix + Json.Encode(data);
    assert line[0] == 'd';
    assert !Text.IsBlank(line);
    LinesOneLine("", data);
    SplitLine(line);
    assert Text.StartsWith(line, DataPrefix);
    assert line[|DataPrefix|..] == Json.Encode(data);
    EncodeIsNotDone(data);
  }

  /** No JSON encoding reads `[DONE]`. */
  lemma EncodeIsNotDone(data: Json.Value)
    ensures Json.Encode(data) != "[DONE]"
  {
    var enc := Json.Encode(data);
    if data.Arr? && |data.items| > 0 {
      var items := data.items;
      Json.EncodeStart(items[0]);
      assert enc == "[" + Json.EncodeItems(items) + "]";
      assert Json.EncodeItems(items)[0] == Json.Encode(items[0])[0];
      assert enc[1] == Json.Encode(items[0])[0];
      assert enc[1] != 'D';
    } else {
      Json.EncodeStart(data);
      assert enc[0] != '[' || |enc| == 2;
    }
  }

  // ---------------------------------------------------------------------
  // A whole stream
  // ---------------------------------------------------------------------

  /** The callback an event of the endpoint is meant for. */
  function CallbackOf(e: ChatEvents.StreamEvent): (cb: Callback)
    ensures CallbackFor(ChatEvents.EventName(e)) == Some(cb)
  {
    match e
    case MessageStart(_) => OnStart
    case MessageChunk(_, _, _) => OnChunk
    case MessageComplete(_, _) => OnComplete
    case StreamError(_) => OnError
  }

  /** The event names contain no line break. */
  lemma EventNameOneLine(e: ChatEvents.StreamEvent)
    ensures NoNewline(ChatEvents.EventName(e))
  {
  }

  /** The calls the client should make for a list of events: each event's
      own callback, if supplied, with the event's payload, in order. */
  function Delivered(es: seq<ChatEvents.StreamEvent>, cbs: Callbacks): seq<Effect>
  {
    if |es| == 0 then []
    else Invoke(cbs, CallbackOf(es[0]), ChatEvents.EventData(es[0])) + Delivered(es[1..], cbs)
  }

  /** With every callback supplied, each event reaches its callback once,
      in order. */
  lemma {:induction false} DeliveredToAll(es: seq<ChatEvents.StreamEvent>)
    ensures var d := Delivered(es, Callbacks(true, true, true, true));
            |d| == |es| && forall i :: 0 <= i < |es| ==> d[i] == Invoked(CallbackOf(es[i]), ChatEvents.EventData(es[i]))
  {
    if |es| > 0 {
      DeliveredToAll(es[1..]);
    }
  }

  /** The frame bodies of a list of events. */
  function Bodies(es: seq<ChatEvents.StreamEvent>): (r: seq<string>)
    ensures |r| == |es|
  {
    if |es| == 0 then []
    else [FrameBody(ChatEvents.EventName(es[0]), ChatEvents.EventData(es[0]))] + Bodies(es[1..])
  }

  /** The frames of events, taken from the front. */
  lemma {:induction false} EncodeEventsCons(e: ChatEvents.StreamEvent, es: seq<ChatEvents.StreamEvent>)
    ensures ChatEvents.EncodeEvents([e] + es)
         == CRR.EventFrame(ChatEvents.EventName(e), ChatEvents.EventData(e)) + ChatEvents.EncodeEvents(es)
    decreases |es|
  {
    var first := CRR.EventFrame(ChatEvents.EventName(e), ChatEvents.EventData(e));
    if |es| == 0 {
      assert ([e] + es)[..0] == [];
    } else {
      var init := es[..|es| - 1];
      var x := es[|es| - 1];
      var last := CRR.EventFrame(ChatEvents.EventName(x), ChatEvents.EventData(x));
      var n := [e] + es;
      calc {
        ChatEvents.EncodeEvents(n);
      == { assert n[..|n| - 1] == [e] + init; assert n[|n| - 1] == x; }
        ChatEvents.EncodeEvents([e] + init) + last;
      == { EncodeEventsCons(e, init); }
        (first + ChatEvents.EncodeEvents(init)) + last;
      == { Associate(first, ChatEvents.EncodeEvents(init), last); }
        first + (ChatEvents.EncodeEvents(init) + last);
      }
    }
  }

  lemma Associate<T>(a: seq<T>, b: seq<T>, c: seq<T>)
    ensures (a + b) + c == a + (b + c)
  {
  }

  /** A frame ending in a blank line splits off as its body. */
  lemma SplitFrame(kind: string, data: Json.Value, tail: string)
    requires NoNewline(kind)
    ensures Text.Split(CRR.EventFrame(kind, data) + tail, "\n\n") == [FrameBody(kind, data)] + Text.Split(tail, "\n\n")
  {
    EventFrameIsBody(kind, data);
    assert CRR.EventFrame(kind, data) + tail == FrameBody(kind, data) + "\n\n" + tail;
    BodyHasNoSeparator(kind, data, tail);
    Text.SplitCons(FrameBody(kind, data), tail, "\n\n");
  }

  /** The encoded events' first frame splits off as its body. */
  lemma SplitFirstEvent(es: seq<ChatEvents.StreamEvent>, rest: string)
    requires |es| > 0
    ensures Text.Split(ChatEvents.EncodeEvents(es) + rest, "\n\n")
         == [FrameBody(ChatEvents.EventName(es[0]), ChatEvents.EventData(es[0]))]
            + Text.Split(ChatEvents.EncodeEvents(es[1..]) + rest, "\n\n")
  {
    var e := es[0];
    var frame := CRR.EventFrame(ChatEvents.EventName(e), ChatEvents.EventData(e));
    assert ChatEvents.EncodeEvents(es) + rest == frame + (ChatEvents.EncodeEvents(es[1..]) + rest) by {
      assert es == [e] + es[1..];
      EncodeEventsCons(e, es[1..]);
      Associate(frame, ChatEvents.EncodeEvents(es[1..]), rest);
    }
    EventNameOneLine(e);
    SplitFrame(ChatEvents.EventName(e), ChatEvents.EventData(e), ChatEvents.EncodeEvents(es[1..]) + rest);
  }

  /** The encoded events split at blank lines into their frame bodies. */
  lemma {:induction false} SplitEncodedEvents(es: seq<ChatEvents.StreamEvent>, rest: string)
    ensures Text.Split(ChatEvents.EncodeEvents(es) + rest, "\n\n") == Bodies(es) + Text.Split(rest, "\n\n")
    decreases |es|
  {
    if |es| > 0 {
      var body := FrameBody(ChatEvents.EventName(es[0]), ChatEvents.EventData(es[0]));
      SplitFirstEvent(es, rest);
      SplitEncodedEvents(es[1..], rest);
      assert Bodies(es) == [body] + Bodies(es[1..]);
      Associate([body], Bodies(es[1..]), Text.Split(rest, "\n\n"));
    } else {
      assert ChatEvents.EncodeEvents(es) + rest == rest;
    }
  }

  /** Running the frame bodies of events and then the sentinel makes the
      calls `Delivered` lists and reaches the sentinel. */
  lemma {:induction false} RunBodies(es: seq<ChatEvents.StreamEvent>, cbs: Callbacks)
    ensures RunFrames(Bodies(es) + [DoneBody], cbs) == (Delivered(es, cbs), true)
    decreases |es|
  {
    var frames := Bodies(es) + [DoneBody];
    if |es| == 0 {
      ParseDoneFrame();
      assert frames == [DoneBody];
    } else {
      var e := es[0];
      assert frames[0] == FrameBody(ChatEvents.EventName(e), ChatEvents.EventData(e));
      assert frames[1..] == Bodies(es[1..]) + [DoneBody];
      RunEventFrame(e, frames, cbs);
      RunBodies(es[1..], cbs);
    }
  }

  /** A run whose first frame is an event's body makes that event's call and
      goes on with the remaining frames. */
  lemma RunEventFrame(e: ChatEvents.StreamEvent, frames: seq<string>, cbs: Callbacks)
    requires |frames| > 0 && frames[0] == FrameBody(ChatEvents.EventName(e), ChatEvents.EventData(e))
    ensures RunFrames(frames, cbs)
         == (Invoke(cbs, CallbackOf(e), ChatEvents.EventData(e)) + RunFrames(frames[1..], cbs).0,
             RunFrames(frames[1..], cbs).1)
  {
    EventNameOneLine(e);
    ParseEventFrame(ChatEvents.EventName(e), ChatEvents.EventData(e));
    assert ActionEffects(ParseFrame(frames[0]), cbs) == Invoke(cbs, CallbackOf(e), ChatEvents.EventData(e));
  }

  /** The complete frames of a stream the endpoint wrote: the events' frame
      bodies, then the sentinel. */
  lemma StreamFrames(es: seq<ChatEvents.StreamEvent>)
    ensures CompleteFrames(ChatEvents.EncodeEvents(es) + CRR.DoneFrame) == Bodies(es) + [DoneBody]
  {
    SplitEncodedEvents(es, CRR.DoneFrame);
    SplitDoneFrame();
    assert Bodies(es) + [DoneBody, ""] == (Bodies(es) + [DoneBody]) + [""];
  }

  /** A successful response whose body is an event stream the endpoint
      wrote, cut into chunks anywhere: the client makes exactly the calls
      for the events that were written, in order, stops at the sentinel
      (so a later read error is never reported) and releases the reader. */
  lemma ClientReadsStream(es: seq<ChatEvents.StreamEvent>, chunks: seq<string>, readError: Option<Thrown>, cbs: Callbacks)
    requires Text.Concat(chunks) == ChatEvents.EncodeEvents(es) + CRR.DoneFrame
    ensures ExpectedRun(Ok(HttpResponse(true, "", true, chunks, readError)), cbs) == ClientRun(Delivered(es, cbs), true, false)
  {
    StreamFrames(es);
    RunBodies(es, cbs);
  }

  /** End to end: for a body the endpoint accepts, the client makes, in
      order, one call per event of the engine's run, and with every callback
      supplied a completed reply ends with `onComplete` carrying all the
      fragments' text. */
  lemma EndToEnd(body: CRR.Settled, run: ChatEvents.EngineRun, id: string, chunks: seq<string>, cbs: Callbacks)
    requires ChatEvents.Respond(body, run, id).EventStream?
    requires Text.Concat(chunks) == ChatEvents.EncodeEvents(ChatEvents.Respond(body, run, id).events) + CRR.DoneFrame
    ensures var run' := ExpectedRun(Ok(HttpResponse(true, "", true, chunks, None)), cbs);
            run'.effects == Delivered(ChatEvents.EngineEvents(run, id), cbs) && run'.lockReleased
    ensures run.Opened? && run.failure.None? && cbs == Callbacks(true, true, true, true) ==>
      var effects := ExpectedRun(Ok(HttpResponse(true, "", true, chunks, None)), cbs).effects;
      |effects| == |run.fragments| + 2
      && effects[0] == Invoked(OnStart, ChatEvents.EventData(ChatEvents.MessageStart(id)))
      && effects[|effects| - 1] == Invoked(OnComplete, ChatEvents.EventData(ChatEvents.MessageComplete(id, ChatEvents.Contents(run.fragments))))
  {
    var es := ChatEvents.EngineEvents(run, id);
    ClientReadsStream(es, chunks, None, cbs);
    DeliveredToAll(es);
  }

  // ---------------------------------------------------------------------
  // Error replies and requests
  // ---------------------------------------------------------------------

  /** A JSON error reply reaches the client's `onError` with its message
      (or `"Request failed"` for an empty one), and no frame is read. */
  lemma ClientReadsErrorReply(message: string, status: int, cbs: Callbacks, chunks: seq<string>)
    ensures ExpectedRun(Ok(HttpResponse(false, Json.Encode(CRR.ErrorBody(message)), true, chunks, None)), cbs)
         == ClientRun(Invoke(cbs, OnError, MessageObject(Json.Str(if message != "" then message else "Request failed"))), false, false)
  {
    CRR.ErrorBodyCarriesMessage(message);
  }

  /** A request the client serialises, however its text is cut into
      chunks, is read and validated by the endpoint as the same request. */
  lemma RequestReachesEndpoint(req: ChatEvents.ChatRequest, chunks: seq<string>)
    requires ChatEvents.WellFormedIds(req)
    requires Text.Concat(chunks) == Json.Encode(ChatEvents.RequestToJson(req))
    ensures CRR.ReadBody(chunks, None) == CRR.Resolved(ChatEvents.RequestToJson(req))
    ensures ChatEvents.ChatRequestSchema(ChatEvents.RequestToJson(req)) == Ok(req)
  {
    CRR.ReadEncodedBody(chunks, ChatEvents.RequestToJson(req));
    ChatEvents.RequestRoundTrip(req);
  }
}
