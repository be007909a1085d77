/** Pinning a chat: the server action that flips a chat's `pinned` flag in
    the chats table and stamps it with the current time. The table is a map
    from chat id (its primary key) to row; the clock and store failures are
    parameters. */
module PinnedActions {
  import opened Wrappers

  /** A row of the chats table; timestamps are milliseconds. */
  datatype Chat = Chat(id: string, timestamp: int, userId: string, title: string, pinned: bool)

  /** What `toggleChatPinned` resolves to. */
  datatype ToggleResult = Toggled(pinned: bool, newTimestamp: int) | ToggleFailed(error: string)

  /** Where a store call throws, if one does. */
  datatype Fault = NoFault | SelectFails | UpdateFails

  /** The outcome of a toggle on a table: the reply and the table after it.
      An unknown id, or a throwing store, leaves the table as it was; a
      success flips the flag of that one row and stamps it with `now`. */
  function Toggle(rows: map<string, Chat>, chatId: string, now: int, fault: Fault): (out: (ToggleResult, map<string, Chat>))
    ensures out.0.ToggleFailed? <==> fault == SelectFails || chatId !in rows || fault == UpdateFails
    ensures out.0.ToggleFailed? ==> out.1 == rows
    ensures fault == SelectFails || (chatId in rows && fault == UpdateFails) ==> out.0 == ToggleFailed("Failed to update chat")
    ensures fault != SelectFails && chatId !in rows ==> out.0 == ToggleFailed("Chat not found")
    ensures out.0.Toggled? ==>
      out.1.Keys == rows.Keys
      && out.0.pinned == !rows[chatId].pinned && out.1[chatId].pinned == out.0.pinned
      && out.1[chatId].timestamp == out.0.newTimestamp == now
      && out.1[chatId] == rows[chatId].(pinned := out.0.pinned, timestamp := now)
      && forall id :: id in rows && id != chatId ==> out.1[id] == rows[id]
  {
    if fault == SelectFails then (ToggleFailed("Failed to update chat"), rows)
    else if chatId !in rows then (ToggleFailed("Chat not found"), rows)
    else
      var currentPinnedStatus := rows[chatId].pinned;
      var newTimestamp := now;
      if fault == UpdateFails then (ToggleFailed("Failed to update chat"), rows)
      else
        var updated := rows[chatId := rows[chatId].(pinned := !currentPinnedStatus, timestamp := newTimestamp)];
        (Toggled(!currentPinnedStatus, newTimestamp), updated)
  }

  /** Toggling a chat twice restores its flag; only the timestamp moves. */
  lemma ToggleTwice(rows: map<string, Chat>, chatId: string, t1: int, t2: int)
    requires chatId in rows
    ensures var once := Toggle(rows, chatId, t1, NoFault).1;
            var twice := Toggle(once, chatId, t2, NoFault).1;
            twice == rows[chatId := rows[chatId].(timestamp := t2)]
  {
    var once := Toggle(rows, chatId, t1, NoFault).1;
    var twice := Toggle(once, chatId, t2, NoFault).1;
    assert twice[chatId] == rows[chatId].(timestamp := t2);
  }

  /** The chats table. */
  class ChatsTable {
    var rows: map<string, Chat>

    /** Every row is stored under its own id. */
    predicate Valid()
      reads this
    {
      forall id :: id in rows ==> rows[id].id == id
    }

    constructor (rows: map<string, Chat>)
      ensures this.rows == rows
    {
      this.rows := rows;
    }

    /** `toggleChatPinned(chatId)`: reads the chat's flag, then writes its
        negation and the current time to that row. */
    method ToggleChatPinned(chatId: string, now: int, fault: Fault) returns (r: ToggleResult)
      modifies this
      ensures (r, rows) == Toggle(old(rows), chatId, now, fault)
      ensures old(Valid()) ==> Valid()
    {
      if fault == SelectFails {
        return ToggleFailed("Failed to update chat");
      }
      if chatId !in rows {
        return ToggleFailed("Chat not found");
      }
      var currentPinnedStatus := rows[chatId].pinned;
      var newTimestamp := now;
      if fault == UpdateFails {
        return ToggleFailed("Failed to update chat");
      }
      rows := rows[chatId := rows[chatId].(pinned := !currentPinnedStatus, timestamp := newTimestamp)];
      return Toggled(!currentPinnedStatus, newTimestamp);
    }
  }
}
