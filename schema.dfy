/** The request validators: a chat id is a string of exactly 36
    characters, a chat message is an object with five valid fields, a
    message list is an array of valid messages, and a prompt is an object
    with a string `prompt`. Each validator takes the JSON value it is given
    and returns the typed value when it is valid. */
module Schema {
  import opened Wrappers
  import Json

  /** The three roles `z.enum(["user", "assistant", "system"])` admits. */
  datatype Role = User | Assistant | System

  function RoleName(r: Role): string
  {
    match r
    case User => "user"
    case Assistant => "assistant"
    case System => "system"
  }

  /** A validated chat message. The timestamp is kept in the string form a
      date takes once it has been through JSON. */
  datatype ChatMessage = ChatMessage(id: string, content: string, role: Role, timestamp: string, chatId: string)

  /** `z.string()` applied to a field that may be missing. */
  function StringSchema(v: Option<Json.Value>): (r: Option<string>)
    ensures r.Some? <==> v.Some? && v.value.Str?
    ensures r.Some? ==> v.value == Json.Str(r.value)
  {
    match v
    case Some(Str(s)) => Some(s)
    case _ => None
  }

  /** `ChatId`: `z.string().min(36).max(36)`. */
  function ChatIdSchema(v: Option<Json.Value>): (r: Option<string>)
    ensures r.Some? <==> v.Some? && v.value.Str? && |v.value.s| == 36
    ensures r.Some? ==> v.value == Json.Str(r.value)
  {
    match StringSchema(v)
    case Some(s) => if 36 <= |s| && |s| <= 36 then Some(s) else None
    case None => None
  }

  /** `z.enum(["user", "assistant", "system"])`. */
  function RoleSchema(v: Option<Json.Value>): (r: Option<Role>)
    ensures r.Some? <==> v.Some? && v.value.Str? && v.value.s in {"user", "assistant", "system"}
    ensures r.Some? ==> v.value == Json.Str(RoleName(r.value))
  {
    match StringSchema(v)
    case Some(s) =>
      if s == "user" then Some(User)
      else if s == "assistant" then Some(Assistant)
      else if s == "system" then Some(System)
      else None
    case None => None
  }

  /** Each role is read back from its name, and no other string is a role. */
  lemma RoleNames(r: Role, s: string)
    ensures RoleSchema(Some(Json.Str(RoleName(r)))) == Some(r)
    ensures RoleSchema(Some(Json.Str(s))).Some? ==> s == "user" || s == "assistant" || s == "system"
    ensures RoleSchema(Some(Json.Str("model"))).None?
  {
  }

  /** `ChatMessageSchema`: an object whose `id`, `content`, `role`,
      `timestamp` and `chatId` are all present and valid; other members are
      ignored. */
  function ChatMessageSchema(v: Json.Value): (r: Option<ChatMessage>)
    ensures r.Some? <==>
      v.Obj?
      && StringSchema(Json.Field(v, "id")).Some?
      && StringSchema(Json.Field(v, "content")).Some?
      && RoleSchema(Json.Field(v, "role")).Some?
      && StringSchema(Json.Field(v, "timestamp")).Some?
      && ChatIdSchema(Json.Field(v, "chatId")).Some?
    ensures r.Some? ==>
      Json.Field(v, "id") == Some(Json.Str(r.value.id))
      && Json.Field(v, "content") == Some(Json.Str(r.value.content))
      && Json.Field(v, "role") == Some(Json.Str(RoleName(r.value.role)))
      && Json.Field(v, "timestamp") == Some(Json.Str(r.value.timestamp))
      && Json.Field(v, "chatId") == Some(Json.Str(r.value.chatId))
      && |r.value.chatId| == 36
  {
    if !v.Obj? then None
    else
      var id := StringSchema(Json.Field(v, "id"));
      var content := StringSchema(Json.Field(v, "content"));
      var role := RoleSchema(Json.Field(v, "role"));
      var timestamp := StringSchema(Json.Field(v, "timestamp"));
      var chatId := ChatIdSchema(Json.Field(v, "chatId"));
      if id.Some? && content.Some? && role.Some? && timestamp.Some? && chatId.Some? then
        Some(ChatMessage(id.value, content.value, role.value, timestamp.value, chatId.value))
      else None
  }

  /** A message as the client serialises it. */
  function MessageToJson(m: ChatMessage): Json.Value
  {
    Json.Obj([
      Json.Member("id", Json.Str(m.id)),
      Json.Member("content", Json.Str(m.content)),
      Json.Member("role", Json.Str(RoleName(m.role))),
      Json.Member("timestamp", Json.Str(m.timestamp)),
      Json.Member("chatId", Json.Str(m.chatId))
    ])
  }

  /** A serialised message validates back to itself exactly when its chat
      id has 36 characters. */
  lemma MessageRoundTrip(m: ChatMessage)
    ensures ChatMessageSchema(MessageToJson(m)).Some? <==> |m.chatId| == 36
    ensures |m.chatId| == 36 ==> ChatMessageSchema(MessageToJson(m)) == Some(m)
  {
    var v := MessageToJson(m);
    var ms := v.members;
    assert Json.Field(v, "id") == Some(Json.Str(m.id)) by { Json.GetLast(ms, 0); }
    assert Json.Field(v, "content") == Some(Json.Str(m.content)) by { Json.GetLast(ms, 1); }
    assert Json.Field(v, "role") == Some(Json.Str(RoleName(m.role))) by { Json.GetLast(ms, 2); }
    assert Json.Field(v, "timestamp") == Some(Json.Str(m.timestamp)) by { Json.GetLast(ms, 3); }
    assert Json.Field(v, "chatId") == Some(Json.Str(m.chatId)) by { Json.GetLast(ms, 4); }
    RoleNames(m.role, "");
  }

  /** `z.array(ChatMessageSchema)` on the elements of an array: all valid,
      each validated in place. */
  function MessagesSchema(items: seq<Json.Value>): (r: Option<seq<ChatMessage>>)
    ensures r.Some? <==> forall i :: 0 <= i < |items| ==> ChatMessageSchema(items[i]).Some?
    ensures r.Some? ==> |r.value| == |items|
    ensures r.Some? ==> forall i :: 0 <= i < |items| ==> ChatMessageSchema(items[i]) == Some(r.value[i])
  {
    if |items| == 0 then Some([])
    else
      match ChatMessageSchema(items[0])
      case None => None
      case Some(m) =>
        match MessagesSchema(items[1..])
        case None =>
          InvalidTail(items);
          None
        case Some(ms) =>
          ValidCons(items, m, ms);
          Some([m] + ms)
  }

  /** An invalid element after the first makes the whole array invalid. */
  lemma InvalidTail(items: seq<Json.Value>)
    requires |items| > 0
    requires !forall i :: 0 <= i < |items[1..]| ==> ChatMessageSchema(items[1..][i]).Some?
    ensures !forall i :: 0 <= i < |items| ==> ChatMessageSchema(items[i]).Some?
  {
    var i :| 0 <= i < |items[1..]| && ChatMessageSchema(items[1..][i]).None?;
    assert items[1..][i] == items[i + 1];
  }

  /** A valid first element in front of valid others. */
  lemma ValidCons(items: seq<Json.Value>, m: ChatMessage, ms: seq<ChatMessage>)
    requires |items| > 0 && ChatMessageSchema(items[0]) == Some(m)
    requires |ms| == |items| - 1
    requires forall i :: 0 <= i < |items[1..]| ==> ChatMessageSchema(items[1..][i]) == Some(ms[i])
    ensures forall i :: 0 <= i < |items| ==> ChatMessageSchema(items[i]) == Some(([m] + ms)[i])
  {
    forall i | 1 <= i < |items|
      ensures ChatMessageSchema(items[i]) == Some(([m] + ms)[i])
    {
      assert items[i] == items[1..][i - 1];
    }
  }

  /** `ChatMessagesSchema`: an array of valid messages; `[]` is valid. */
  function ChatMessagesSchema(v: Option<Json.Value>): (r: Option<seq<ChatMessage>>)
    ensures r.Some? <==> v.Some? && v.value.Arr? && MessagesSchema(v.value.items).Some?
    ensures v == Some(Json.Arr([])) ==> r == Some([])
  {
    match v
    case Some(Arr(items)) => MessagesSchema(items)
    case _ => None
  }

  /** A list of messages as the client serialises it. */
  function MessagesToJson(ms: seq<ChatMessage>): (r: seq<Json.Value>)
    ensures |r| == |ms| && forall i :: 0 <= i < |ms| ==> r[i] == MessageToJson(ms[i])
  {
    seq(|ms|, i requires 0 <= i < |ms| => MessageToJson(ms[i]))
  }

  /** A list of serialised messages validates back to itself when every
      chat id has 36 characters. */
  lemma MessagesRoundTrip(ms: seq<ChatMessage>)
    requires forall i :: 0 <= i < |ms| ==> |ms[i].chatId| == 36
    ensures MessagesSchema(MessagesToJson(ms)) == Some(ms)
  {
    var items := MessagesToJson(ms);
    forall i | 0 <= i < |ms|
      ensures ChatMessageSchema(items[i]) == Some(ms[i])
    {
      MessageRoundTrip(ms[i]);
    }
    var r := MessagesSchema(items);
    assert r.Some?;
    assert r.value == ms;
  }

  /** `PromptSchema`: an object with a string `prompt`. */
  function PromptSchema(v: Json.Value): (r: Option<string>)
    ensures r.Some? <==> v.Obj? && StringSchema(Json.Field(v, "prompt")).Some?
    ensures r.Some? ==> Json.Field(v, "prompt") == Some(Json.Str(r.value))
  {
    if v.Obj? then StringSchema(Json.Field(v, "prompt")) else None
  }

  /** Every string is a valid prompt, the empty one included. */
  lemma AnyPrompt(p: string)
    ensures PromptSchema(Json.Obj([Json.Member("prompt", Json.Str(p))])) == Some(p)
    ensures PromptSchema(Json.Obj([Json.Member("prompt", Json.Str(""))])) == Some("")
  {
    assert Json.Get([Json.Member("prompt", Json.Str(p))], "prompt") == Some(Json.Str(p));
    assert Json.Get([Json.Member("prompt", Json.Str(""))], "prompt") == Some(Json.Str(""));
  }
}
