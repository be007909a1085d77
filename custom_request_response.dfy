/** The server's request and response wrappers: `AppRequest` reads the
    request body once and caches the parsed JSON; `AppResponse` writes JSON
    replies and the server-sent-event stream (`event:`/`data:` frames, each
    ended by a blank line, and a final `data: [DONE]` sentinel). */
module CustomRequestResponse {
  import opened Wrappers
  import Json
  import Text

  type Header = (string, string)

  /** The headers `initSSE` sends with status 200. */
  const SseHeaders: seq<Header> := [
    ("Content-Type", "text/event-stream"),
    ("Cache-Control", "no-cache"),
    ("Connection", "keep-alive"),
    ("Access-Control-Allow-Origin", "*")
  ]

  /** The header `json` sends. */
  const JsonHeaders: seq<Header> := [("Content-Type", "application/json")]

  /** The message `parseBody` rejects with when the body is not JSON. */
  const InvalidJsonMessage := "Invalid JSON in request body"

  /** One named event as `sendSSE` writes it. */
  function EventFrame(event: string, data: Json.Value): string
  {
    "event: " + event + "\n" + "data: " + Json.Encode(data) + "\n\n"
  }

  /** One unnamed event as `sendSSEData` writes it. */
  function DataFrame(data: Json.Value): string
  {
    "data: " + Json.Encode(data) + "\n\n"
  }

  /** The sentinel line `endSSE` writes before ending the response. */
  const DoneLine := "data: [DONE]"

  /** The sentinel line and the blank line that closes its frame. */
  const DoneFrame := DoneLine + "\n\n"

  /** The body `error(message)` sends: `{"error": message}`. */
  function ErrorBody(message: string): Json.Value
  {
    Json.Obj([Json.Member("error", Json.Str(message))])
  }

  /** The body text of an `error` reply decodes back to its message. */
  lemma ErrorBodyCarriesMessage(message: string)
    ensures Json.Decode(Json.Encode(ErrorBody(message))) == Some(ErrorBody(message))
    ensures Json.Field(ErrorBody(message), "error") == Some(Json.Str(message))
  {
    Json.DecodeEncode(ErrorBody(message));
  }

  // ---------------------------------------------------------------------
  // The response
  // ---------------------------------------------------------------------

  /** An HTTP response being written: its status line and headers, whether
      they have gone out, the body text written so far and whether the
      response has been ended. */
  class AppResponse {
    var statusCode: int
    var headers: seq<Header>
    var headersSent: bool
    var written: string
    var finished: bool

    /** A fresh response: status 200, nothing sent. */
    constructor ()
      ensures statusCode == 200 && headers == [] && !headersSent
      ensures written == "" && !finished
    {
      statusCode := 200;
      headers := [];
      headersSent := false;
      written := "";
      finished := false;
    }

    /** `writeHead`: fixes the status and headers; allowed once. */
    method WriteHead(status: int, hs: seq<Header>)
      requires !headersSent
      modifies this
      ensures statusCode == status && headers == hs && headersSent
      ensures written == old(written) && finished == old(finished)
    {
      statusCode := status;
      headers := hs;
      headersSent := true;
    }

    /** `write`: appends to the body, sending the current status and
        headers first if they have not gone out yet. */
    method Write(chunk: string)
      requires !finished
      modifies this
      ensures written == old(written) + chunk && headersSent && !finished
      ensures statusCode == old(statusCode) && headers == old(headers)
    {
      written := written + chunk;
      headersSent := true;
    }

    /** `end`: appends a last chunk and closes the response. */
    method End(chunk: string)
      requires !finished
      modifies this
      ensures written == old(written) + chunk && headersSent && finished
      ensures statusCode == old(statusCode) && headers == old(headers)
    {
      written := written + chunk;
      headersSent := true;
      finished := true;
    }

    /** `json(data, statusCode)`: the whole reply is `data` as JSON. */
    method SendJson(data: Json.Value, status: int)
      requires !headersSent && !finished
      modifies this
      ensures statusCode == status && headers == JsonHeaders
      ensures written == old(written) + Json.Encode(data) && headersSent && finished
    {
      WriteHead(status, JsonHeaders);
      End(Json.Encode(data));
    }

    /** `error(message, statusCode)`: a JSON reply `{"error": message}`. */
    method Error(message: string, status: int)
      requires !headersSent && !finished
      modifies this
      ensures statusCode == status && headers == JsonHeaders
      ensures written == old(written) + Json.Encode(ErrorBody(message)) && headersSent && finished
    {
      SendJson(ErrorBody(message), status);
    }

    /** `sendSSE(event, data)`: one named event frame. */
    method SendSse(event: string, data: Json.Value)
      requires !finished
      modifies this
      ensures written == old(written) + EventFrame(event, data)
      ensures headersSent && !finished
      ensures statusCode == old(statusCode) && headers == old(headers)
    {
      Write("event: " + event + "\n");
      Write("data: " + Json.Encode(data) + "\n\n");
    }

    /** `initSSE`: status 200 with the event-stream headers. */
    method InitSse()
      requires !headersSent
      modifies this
      ensures statusCode == 200 && headers == SseHeaders && headersSent
      ensures written == old(written) && finished == old(finished)
    {
      WriteHead(200, SseHeaders);
    }

    /** `sendSSEData(data)`: one unnamed event frame. */
    method SendSseData(data: Json.Value)
      requires !finished
      modifies this
      ensures written == old(written) + DataFrame(data)
      ensures headersSent && !finished
      ensures statusCode == old(statusCode) && headers == old(headers)
    {
      Write(DataFrame(data));
    }

    /** `endSSE`: the `[DONE]` sentinel, then the end of the response. */
    method EndSse()
      requires !finished
      modifies this
      ensures written == old(written) + DoneFrame && headersSent && finished
      ensures statusCode == old(statusCode) && headers == old(headers)
    {
      Write(DoneFrame);
      End("");
    }
  }

  // ---------------------------------------------------------------------
  // The request
  // ---------------------------------------------------------------------

  /** How the promise `parseBody` returns settles; `Pending` is a promise
      that never settles. */
  datatype Settled = Resolved(value: Json.Value) | Rejected(error: Thrown) | Pending

  /** What reading a request stream to its end yields: the body text parsed
      as JSON (`{}` for an empty body), the stream's own error, or the
      invalid-JSON error. */
  function ReadBody(chunks: seq<string>, streamError: Option<Thrown>): (r: Settled)
    ensures r != Pending
    ensures r.Rejected? <==> streamError.Some? || (Text.Concat(chunks) != "" && Json.Decode(Text.Concat(chunks)).None?)
    ensures streamError.Some? ==> r == Rejected(streamError.value)
    ensures streamError.None? && r.Rejected? ==> r.error == ErrorObject(InvalidJsonMessage)
    ensures streamError.None? && Text.Concat(chunks) == "" ==> r == Resolved(Json.Obj([]))
  {
    match streamError
    case Some(e) => Rejected(e)
    case None =>
      var text := Text.Concat(chunks);
      if text == "" then Resolved(Json.Obj([]))
      else match Json.Decode(text)
        case Some(v) => Resolved(v)
        case None => Rejected(ErrorObject(InvalidJsonMessage))
  }

  /** A body that is the encoding of `v`, however it is cut into chunks,
      is read back as `v`. */
  lemma ReadEncodedBody(chunks: seq<string>, v: Json.Value)
    requires Text.Concat(chunks) == Json.Encode(v)
    ensures ReadBody(chunks, None) == Resolved(v)
  {
    Json.DecodeEncode(v);
    assert Json.Encode(v) != "" by { Json.EncodeStart(v); }
  }

  /** An incoming request whose body arrives as `chunks` and then ends, or
      fails with `streamError`; `body` and `bodyParsed` are the cache
      `parseBody` fills, and `consumed` records that the stream has been read
      through (its `end` or `error` event has fired). */
  class AppRequest {
    const chunks: seq<string>
    const streamError: Option<Thrown>
    var body: Json.Value
    var bodyParsed: bool
    var consumed: bool

    constructor (chunks: seq<string>, streamError: Option<Thrown>)
      ensures this.chunks == chunks && this.streamError == streamError
      ensures body == Json.Null && !bodyParsed && !consumed
    {
      this.chunks := chunks;
      this.streamError := streamError;
      body := Json.Null;
      bodyParsed := false;
      consumed := false;
    }

    /** What a call to `parseBody` settles to from the current state. */
    function Outcome(): Settled
      reads this
    {
      if bodyParsed then Resolved(body)
      else if consumed then Pending
      else ReadBody(chunks, streamError)
    }

    /** `parseBody`: the cached body if an earlier call parsed it; otherwise
        reads the stream, caching the body only when it parses. A stream
        already read through never fires its events again, so a call after a
        failed one never settles. */
    method ParseBody() returns (r: Settled)
      modifies this
      ensures r == old(Outcome())
      ensures bodyParsed <==> r.Resolved?
      ensures r.Resolved? ==> body == r.value
      ensures !r.Resolved? ==> body == old(body)
      ensures old(bodyParsed) ==> consumed == old(consumed)
      ensures !old(bodyParsed) ==> consumed
    {
      if bodyParsed {
        return Resolved(body);
      }
      if consumed {
        return Pending;
      }
      consumed := true;
      r := ReadBody(chunks, streamError);
      if r.Resolved? {
        body := r.value;
        bodyParsed := true;
      }
    }
  }

  /** Once `parseBody` has resolved, a second call resolves to the same
      value without reading the stream again. */
  method ParseBodyTwice(req: AppRequest) returns (first: Settled, second: Settled)
    modifies req
    ensures first.Resolved? ==> second == first
    ensures first.Rejected? ==> second == Pending
  {
    first := req.ParseBody();
    second := req.ParseBody();
  }
}
