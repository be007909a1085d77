/** The simulated ("fake") streaming action: the guards before it reads the
    canned reply, and the generator that cuts a text into small chunks. The
    file read is a parameter; the delays only wait and are left out. */
module FakeStreaming {
  import opened Wrappers
  import Json
  import Text
  import Schema
  import opened FakeStreamingConfig

  /** `getRandomChunkSize`: `Math.floor(Math.random() * 5) + 2`. */
  function GetRandomChunkSize(r: real): (n: int)
    requires IsDraw(r)
    ensures 2 <= n <= 6
  {
    (r * 5.0).Floor + 2
  }

  /** Every size from 2 to 6 is drawn by some draw. */
  lemma GetRandomChunkSizeReaches(n: int)
    requires 2 <= n <= 6
    ensures var r := (n - 2) as real / 5.0;
            IsDraw(r) && GetRandomChunkSize(r) == n
  {
    var r := (n - 2) as real / 5.0;
    assert r * 5.0 == (n - 2) as real;
  }

  /** The module's own `getRandomDelay`: `Math.floor(Math.random() * 80) + 20`,
      so 20 to 99 ms, never 100. */
  function GetRandomDelay(r: real): (d: int)
    requires IsDraw(r)
    ensures 20 <= d <= 99
  {
    (r * 80.0).Floor + 20
  }

  /** The chunk sizes `streamText` may produce: each of them but the last
      has between 2 and 6 characters, the last between 1 and 6. */
  predicate WellSized(chunks: seq<string>)
  {
    forall k :: 0 <= k < |chunks| ==>
      1 <= |chunks[k]| <= 6 && (k < |chunks| - 1 ==> 2 <= |chunks[k]|)
  }

  /** `streamText(text)`: from the start of the text, slices of a randomly
      drawn size between 2 and 6, the last one cut at the end of the text.
      The chunks put back together are the text. */
  method StreamText(text: string) returns (chunks: seq<string>)
    ensures Text.Concat(chunks) == text
    ensures WellSized(chunks)
    ensures text == [] <==> chunks == []
  {
    chunks := [];
    var index := 0;
    while index < |text|
      invariant 0 <= index
      invariant index < |text| ==> Text.Concat(chunks) == text[..index]
      invariant index >= |text| ==> Text.Concat(chunks) == text
      invariant WellSized(chunks)
      invariant |chunks| > 0 ==> index > 0
      invariant index < |text| && |chunks| > 0 ==> 2 <= |chunks[|chunks| - 1]|
      decreases |text| - index
    {
      var r: real :| IsDraw(r);
      var chunkSize := GetRandomChunkSize(r);
      var chunk := Text.Slice(text, index, index + chunkSize);
      var end := if index + chunkSize <= |text| then index + chunkSize else |text|;
      assert chunk == text[index..end];
      Text.ConcatAppend(chunks, [chunk]);
      assert text[..index] + chunk == text[..end];
      chunks := chunks + [chunk];
      index := index + chunkSize;
    }
  }

  /** The reply of `sendQuestionFakeStreaming`: the canned text or an error. */
  datatype Reply = Message(message: string) | Failure(error: string)

  /** `sendQuestionFakeStreaming(messages, modelId)`: invalid arguments are
      refused first, then a disabled mode, and otherwise the reply is the
      response file, or an error when it cannot be read. */
  function SendQuestionFakeStreaming(cfg: Config, messages: Json.Value, modelId: Json.Value, responseFile: Option<string>): (r: Reply)
    ensures r == Failure("Invalid data") <==>
      Schema.ChatMessagesSchema(Some(messages)).None? || !modelId.Str?
    ensures r == Failure("Fake streaming is disabled") <==>
      Schema.ChatMessagesSchema(Some(messages)).Some? && modelId.Str? && !cfg.enabled
    ensures r.Message? <==>
      Schema.ChatMessagesSchema(Some(messages)).Some? && modelId.Str? && cfg.enabled && responseFile.Some?
    ensures r.Message? ==> r.message == responseFile.value
  {
    var messagesValid := Schema.ChatMessagesSchema(Some(messages)).Some?;
    var modelIdValid := Schema.StringSchema(Some(modelId)).Some?;
    if !messagesValid || !modelIdValid then Failure("Invalid data")
    else if !cfg.enabled then Failure("Fake streaming is disabled")
    else match responseFile
      case Some(content) => Message(content)
      case None => Failure("Failed to read response file")
  }

  /** With the shipped settings the mode is never reported disabled: valid
      arguments get the file's text, or the read error. */
  lemma LiveNeverDisabled(messages: Json.Value, modelId: Json.Value, responseFile: Option<string>)
    ensures SendQuestionFakeStreaming(LiveConfig, messages, modelId, responseFile) != Failure("Fake streaming is disabled")
    ensures Schema.ChatMessagesSchema(Some(messages)).Some? && modelId.Str? && responseFile.None? ==>
      SendQuestionFakeStreaming(LiveConfig, messages, modelId, responseFile) == Failure("Failed to read response file")
  {
  }
}
