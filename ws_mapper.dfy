/**
 * Mapping of one gomuks sync batch to the hub's domain events
 * (mapSyncCompleteToDomainEvents and mapKeysSorted in
 * internal/server/ws_events.go).
 *
 * Left rooms become `chat.deleted`. Every other room with a non-blank
 * identifier and a non-nil update yields, in this order, at most one
 * `chat.upserted`, one `message.upserted` and one `message.deleted`.
 * The batch's rooms are a Go map; `rooms` below lists them in the order the
 * runtime happened to iterate them.
 */
module WsMapper {
  import opened Wrappers
  import opened Text
  import opened Sorting

  datatype DomainEventKind = ChatUpserted | ChatDeleted | MessageUpserted | MessageDeleted
  {
    /** The `type` field of the event on the wire. */
    function Wire(): string
    {
      match this
      case ChatUpserted => "chat.upserted"
      case ChatDeleted => "chat.deleted"
      case MessageUpserted => "message.upserted"
      case MessageDeleted => "message.deleted"
    }
  }

  datatype DomainEvent = DomainEvent(kind: DomainEventKind, chatID: string, ids: seq<string>)

  /* Matrix event types and relation type, as mautrix names them. */
  const EventRedaction: string := "m.room.redaction"
  const EventMessage: string := "m.room.message"
  const EventSticker: string := "m.sticker"
  const EventReaction: string := "m.reaction"
  const StateMember: string := "m.room.member"
  const StateRoomName: string := "m.room.name"
  const StateRoomAvatar: string := "m.room.avatar"
  const StateTopic: string := "m.room.topic"
  const RelReplace: string := "m.replace"

  /** The fields of a gomuks database event that the mapping reads. */
  datatype TimelineEvent = TimelineEvent(
    id: string,
    evType: string,
    relatesTo: string,
    relationType: string,
    redactedBy: string)

  /**
   * One room of a sync batch: whether room metadata came with it, how many
   * state, account-data and timeline entries it carries, and its events
   * (None for a nil entry).
   */
  datatype RoomSync = RoomSync(
    hasMeta: bool,
    stateEntries: nat,
    accountDataEntries: nat,
    timelineEntries: nat,
    events: seq<Option<TimelineEvent>>)

  datatype SyncComplete = SyncComplete(
    leftRooms: seq<string>,
    rooms: seq<(string, Option<RoomSync>)>)

  /* ---------- what one event contributes ---------- */

  predicate IsMessageLike(t: string)
  {
    t == EventMessage || t == EventSticker || t == EventReaction
  }

  predicate IsChatState(t: string)
  {
    t == StateMember || t == StateRoomName || t == StateRoomAvatar || t == StateTopic
  }

  /** The message a redaction or a redacted event removes, if any. */
  function DeletedID(e: TimelineEvent): Option<string>
  {
    if e.evType == EventRedaction then (if e.relatesTo != "" then Some(e.relatesTo) else None)
    else if e.redactedBy != "" then (if e.id != "" then Some(e.id) else None)
    else None
  }

  /**
   * The message an event creates or changes: the event itself, the message
   * a reaction points at, or the original of an edit; trimmed, never blank.
   */
  function UpsertTarget(e: TimelineEvent): (r: Option<string>)
    ensures r.Some? ==> r.value != ""
  {
    if e.evType == EventRedaction || e.redactedBy != "" || !IsMessageLike(e.evType) then None
    else
      var own := e.id;
      var reacted := if e.evType == EventReaction && e.relatesTo != "" then e.relatesTo else own;
      var edited := if e.relationType == RelReplace && e.relatesTo != "" then e.relatesTo else reacted;
      var target := TrimSpace(edited);
      if target == "" then None else Some(target)
  }

  /** Messages and chat-level state changes mark the chat itself as changed. */
  predicate TouchesChat(e: TimelineEvent)
  {
    e.evType != EventRedaction && e.redactedBy == "" && (IsMessageLike(e.evType) || IsChatState(e.evType))
  }

  /* ---------- what a room's events contribute ---------- */

  function UpsertSet(evs: seq<Option<TimelineEvent>>): set<string>
  {
    if |evs| == 0 then {}
    else
      var last := evs[|evs| - 1];
      UpsertSet(evs[..|evs| - 1])
      + (if last.Some? && UpsertTarget(last.value).Some? then {UpsertTarget(last.value).value} else {})
  }

  function DeleteSet(evs: seq<Option<TimelineEvent>>): set<string>
  {
    if |evs| == 0 then {}
    else
      var last := evs[|evs| - 1];
      DeleteSet(evs[..|evs| - 1])
      + (if last.Some? && DeletedID(last.value).Some? then {DeletedID(last.value).value} else {})
  }

  predicate AnyTouches(evs: seq<Option<TimelineEvent>>)
  {
    exists j :: 0 <= j < |evs| && evs[j].Some? && TouchesChat(evs[j].value)
  }

  /** The room's entries alone mark the chat as changed. */
  predicate TouchedByEntries(room: RoomSync)
  {
    room.hasMeta || room.stateEntries > 0 || room.accountDataEntries > 0 || room.timelineEntries > 0
  }

  predicate Touched(room: RoomSync)
  {
    TouchedByEntries(room) || AnyTouches(room.events)
  }

  /** mapKeysSorted's result for a set of collected ids: the non-blank ones, sorted. */
  ghost function KeysSorted(keys: set<string>): (r: seq<string>)
    ensures StrictlySorted(r)
    ensures forall x :: x in r <==> x in keys && !IsBlank(x)
  {
    SortedSet(set x | x in keys && !IsBlank(x))
  }

  /** The mapKeysSorted result is the one sorted list of the non-blank keys. */
  lemma KeysSortedIs(ids: seq<string>, keys: set<string>)
    requires StrictlySorted(ids) && forall x :: x in ids <==> x in keys && !IsBlank(x)
    ensures ids == KeysSorted(keys)
  {
    StrictlySortedUnique(ids, KeysSorted(keys));
  }

  /** A message event for a non-empty set of collected ids; nothing for an empty one. */
  ghost function MessagePart(kind: DomainEventKind, chatID: string, keys: set<string>): seq<DomainEvent>
  {
    if keys != {} then [DomainEvent(kind, chatID, KeysSorted(keys))] else []
  }

  /** The domain events of one room. */
  ghost function RoomEvents(chatID: string, room: RoomSync): seq<DomainEvent>
  {
    (if Touched(room) then [DomainEvent(ChatUpserted, chatID, [chatID])] else [])
    + MessagePart(MessageUpserted, chatID, UpsertSet(room.events))
    + MessagePart(MessageDeleted, chatID, DeleteSet(room.events))
  }

  /** The domain events of one entry of the batch's room map. */
  ghost function EntryEvents(entry: (string, Option<RoomSync>)): seq<DomainEvent>
  {
    var chatID := TrimSpace(entry.0);
    if chatID == "" || entry.1.None? then [] else RoomEvents(chatID, entry.1.value)
  }

  ghost function RoomsEvents(rooms: seq<(string, Option<RoomSync>)>): seq<DomainEvent>
  {
    if |rooms| == 0 then [] else RoomsEvents(rooms[..|rooms| - 1]) + EntryEvents(rooms[|rooms| - 1])
  }

  function LeftEvents(left: seq<string>): seq<DomainEvent>
  {
    if |left| == 0 then []
    else
      var chatID := TrimSpace(left[|left| - 1]);
      LeftEvents(left[..|left| - 1]) + (if chatID == "" then [] else [DomainEvent(ChatDeleted, chatID, [chatID])])
  }

  ghost function DomainEventsOf(sync: SyncComplete): seq<DomainEvent>
  {
    LeftEvents(sync.leftRooms) + RoomsEvents(sync.rooms)
  }

  /* ---------- the mapping as the server runs it ---------- */

  /** mapKeysSorted: the keys whose trimmed form is not blank, sorted. */
  method MapKeysSorted(keys: set<string>) returns (ids: seq<string>)
    ensures StrictlySorted(ids)
    ensures forall x :: x in ids <==> x in keys && !IsBlank(x)
  {
    var output: seq<string> := [];
    var rest := keys;
    while rest != {}
      invariant rest <= keys
      invariant NoDuplicates(output)
      invariant forall x :: x in output <==> x in keys - rest && !IsBlank(x)
      decreases |rest|
    {
      var key :| key in rest;
      if TrimSpace(key) != "" {
        assert key !in output;
        output := output + [key];
      }
      rest := rest - {key};
    }
    assert keys - rest == keys;
    ids := SortStrings(output);
    assert forall x :: x in ids <==> x in multiset(output);
  }

  /** One event of a room's timeline: whether it changes the chat, the message it upserts, the message it deletes. */
  method ScanEvent(e: TimelineEvent) returns (touches: bool, upsert: Option<string>, deleted: Option<string>)
    ensures touches == TouchesChat(e)
    ensures upsert == UpsertTarget(e)
    ensures deleted == DeletedID(e)
  {
    touches, upsert, deleted := false, None, None;
    if e.evType == EventRedaction {
      if e.relatesTo != "" {
        deleted := Some(e.relatesTo);
      }
    } else if e.redactedBy != "" {
      if e.id != "" {
        deleted := Some(e.id);
      }
    } else if e.evType == EventMessage || e.evType == EventSticker || e.evType == EventReaction {
      touches := true;
      var targetID := e.id;
      if e.evType == EventReaction && e.relatesTo != "" {
        targetID := e.relatesTo;
      }
      if e.relationType == RelReplace && e.relatesTo != "" {
        targetID := e.relatesTo;
      }
      targetID := TrimSpace(targetID);
      if targetID != "" {
        upsert := Some(targetID);
      }
    } else if e.evType == StateMember || e.evType == StateRoomName || e.evType == StateRoomAvatar || e.evType == StateTopic {
      touches := true;
    }
  }

  /** The ids of one room's updates: the loop over its events. */
  method CollectRoom(room: RoomSync) returns (touched: bool, upserts: set<string>, deletes: set<string>)
    ensures touched == Touched(room)
    ensures upserts == UpsertSet(room.events)
    ensures deletes == DeleteSet(room.events)
  {
    var evs := room.events;
    touched := room.hasMeta || room.stateEntries > 0 || room.accountDataEntries > 0;
    if !touched && room.timelineEntries > 0 {
      touched := true;
    }
    upserts, deletes := {}, {};
    var j := 0;
    while j < |evs|
      invariant 0 <= j <= |evs|
      invariant touched == (TouchedByEntries(room) || AnyTouches(evs[..j]))
      invariant upserts == UpsertSet(evs[..j])
      invariant deletes == DeleteSet(evs[..j])
    {
      assert evs[..j + 1][..j] == evs[..j];
      if evs[j].Some? {
        var touches, upsert, deleted := ScanEvent(evs[j].value);
        touched := touched || touches;
        if upsert.Some? {
          upserts := upserts + {upsert.value};
        }
        if deleted.Some? {
          deletes := deletes + {deleted.value};
        }
      }
      AnyTouchesSnoc(evs, j);
      j := j + 1;
    }
    assert evs[..j] == evs;
  }

  lemma AnyTouchesSnoc(evs: seq<Option<TimelineEvent>>, j: nat)
    requires j < |evs|
    ensures AnyTouches(evs[..j + 1]) <==> AnyTouches(evs[..j]) || (evs[j].Some? && TouchesChat(evs[j].value))
  {
    if AnyTouches(evs[..j + 1]) {
      var k :| 0 <= k < j + 1 && evs[..j + 1][k].Some? && TouchesChat(evs[..j + 1][k].value);
      if k < j {
        assert evs[..j][k] == evs[k];
      }
    }
    if AnyTouches(evs[..j]) {
      var k :| 0 <= k < j && evs[..j][k].Some? && TouchesChat(evs[..j][k].value);
      assert evs[..j + 1][k] == evs[k];
    }
    if evs[j].Some? && TouchesChat(evs[j].value) {
      assert evs[..j + 1][j] == evs[j];
    }
  }

  /** mapSyncCompleteToDomainEvents. */
  method MapSyncComplete(sync: SyncComplete) returns (output: seq<DomainEvent>)
    ensures output == DomainEventsOf(sync)
  {
    output := [];
    var left := sync.leftRooms;
    var i := 0;
    while i < |left|
      invariant 0 <= i <= |left|
      invariant output == LeftEvents(left[..i])
    {
      assert left[..i + 1][..i] == left[..i];
      var chatID := TrimSpace(left[i]);
      if chatID != "" {
        output := output + [DomainEvent(ChatDeleted, chatID, [chatID])];
      }
      i := i + 1;
    }
    assert left[..i] == left;
    var rooms := sync.rooms;
    var fromRooms: seq<DomainEvent> := [];
    var k := 0;
    while k < |rooms|
      invariant 0 <= k <= |rooms|
      invariant fromRooms == RoomsEvents(rooms[..k])
    {
      assert rooms[..k + 1][..k] == rooms[..k];
      var chatID := TrimSpace(rooms[k].0);
      var roomSync := rooms[k].1;
      if chatID != "" && roomSync.Some? {
        var added := MapRoom(chatID, roomSync.value);
        fromRooms := fromRooms + added;
      }
      k := k + 1;
    }
    assert rooms[..k] == rooms;
    output := output + fromRooms;
  }

  /** The events one room of the batch yields: the body of the loop over the batch's rooms. */
  method MapRoom(chatID: string, room: RoomSync) returns (added: seq<DomainEvent>)
    ensures added == RoomEvents(chatID, room)
  {
    var touched, upserts, deletes := CollectRoom(room);
    var chatPart: seq<DomainEvent> := [];
    if touched {
      chatPart := [DomainEvent(ChatUpserted, chatID, [chatID])];
    }
    var upsertPart: seq<DomainEvent> := [];
    if upserts != {} {
      var ids := MapKeysSorted(upserts);
      KeysSortedIs(ids, upserts);
      upsertPart := [DomainEvent(MessageUpserted, chatID, ids)];
    }
    var deletePart: seq<DomainEvent> := [];
    if deletes != {} {
      var ids := MapKeysSorted(deletes);
      KeysSortedIs(ids, deletes);
      deletePart := [DomainEvent(MessageDeleted, chatID, ids)];
    }
    added := chatPart + upsertPart + deletePart;
  }

  /* ---------- properties ---------- */

  /** An id is upserted exactly when some event of the room targets it. */
  lemma {:induction false} UpsertSetMembers(evs: seq<Option<TimelineEvent>>, x: string)
    ensures x in UpsertSet(evs) <==>
      exists j :: 0 <= j < |evs| && evs[j].Some? && UpsertTarget(evs[j].value) == Some(x)
  {
    if |evs| > 0 {
      var init := evs[..|evs| - 1];
      UpsertSetMembers(init, x);
      if x in UpsertSet(init) {
        var j :| 0 <= j < |init| && init[j].Some? && UpsertTarget(init[j].value) == Some(x);
        assert evs[j] == init[j];
      }
      if exists j :: 0 <= j < |evs| && evs[j].Some? && UpsertTarget(evs[j].value) == Some(x) {
        var j :| 0 <= j < |evs| && evs[j].Some? && UpsertTarget(evs[j].value) == Some(x);
        if j < |evs| - 1 {
          assert init[j] == evs[j];
        }
      }
    }
  }

  /** An id is deleted exactly when some redaction or redacted event of the room names it. */
  lemma {:induction false} DeleteSetMembers(evs: seq<Option<TimelineEvent>>, x: string)
    ensures x in DeleteSet(evs) <==>
      exists j :: 0 <= j < |evs| && evs[j].Some? && DeletedID(evs[j].value) == Some(x)
  {
    if |evs| > 0 {
      var init := evs[..|evs| - 1];
      DeleteSetMembers(init, x);
      if x in DeleteSet(init) {
        var j :| 0 <= j < |init| && init[j].Some? && DeletedID(init[j].value) == Some(x);
        assert evs[j] == init[j];
      }
      if exists j :: 0 <= j < |evs| && evs[j].Some? && DeletedID(evs[j].value) == Some(x) {
        var j :| 0 <= j < |evs| && evs[j].Some? && DeletedID(evs[j].value) == Some(x);
        if j < |evs| - 1 {
          assert init[j] == evs[j];
        }
      }
    }
  }

  /** The position of a kind in a room's output: chat first, then message upserts, then deletions. */
  function Rank(k: DomainEventKind): nat
  {
    match k
    case ChatUpserted => 0
    case MessageUpserted => 1
    case MessageDeleted => 2
    case ChatDeleted => 3
  }

  /** The events of a room carry the room's chat id; message events list sorted, distinct, non-blank ids. */
  predicate WellFormedRoomEvent(chatID: string, e: DomainEvent)
  {
    e.chatID == chatID
    && e.kind != ChatDeleted
    && (e.kind == ChatUpserted ==> e.ids == [chatID])
    && (e.kind != ChatUpserted ==> StrictlySorted(e.ids) && forall k :: 0 <= k < |e.ids| ==> !IsBlank(e.ids[k]))
  }

  /** A message part is at most one well-formed event of its kind. */
  lemma MessagePartFacts(kind: DomainEventKind, chatID: string, keys: set<string>)
    requires kind == MessageUpserted || kind == MessageDeleted
    ensures var p := MessagePart(kind, chatID, keys);
      |p| <= 1 && forall i :: 0 <= i < |p| ==> p[i].kind == kind && WellFormedRoomEvent(chatID, p[i])
  {
  }

  /**
   * One room yields at most one event of each kind, in the order chat,
   * message upsert, message delete, each well formed.
   */
  lemma RoomEventsShape(chatID: string, room: RoomSync)
    ensures var evs := RoomEvents(chatID, room);
      |evs| <= 3
      && (forall i :: 0 <= i < |evs| ==> WellFormedRoomEvent(chatID, evs[i]))
      && (forall i, j :: 0 <= i < j < |evs| ==> Rank(evs[i].kind) < Rank(evs[j].kind))
  {
    var ch := if Touched(room) then [DomainEvent(ChatUpserted, chatID, [chatID])] else [];
    MessagePartFacts(MessageUpserted, chatID, UpsertSet(room.events));
    MessagePartFacts(MessageDeleted, chatID, DeleteSet(room.events));
    PartsShape(chatID, ch, MessagePart(MessageUpserted, chatID, UpsertSet(room.events)),
      MessagePart(MessageDeleted, chatID, DeleteSet(room.events)));
  }

  /** A chat part, an upsert part and a delete part, each of at most one event, give a ranked, well-formed list. */
  lemma PartsShape(chatID: string, ch: seq<DomainEvent>, up: seq<DomainEvent>, de: seq<DomainEvent>)
    requires |ch| <= 1 && |up| <= 1 && |de| <= 1
    requires forall i :: 0 <= i < |ch| ==> ch[i].kind == ChatUpserted && WellFormedRoomEvent(chatID, ch[i])
    requires forall i :: 0 <= i < |up| ==> up[i].kind == MessageUpserted && WellFormedRoomEvent(chatID, up[i])
    requires forall i :: 0 <= i < |de| ==> de[i].kind == MessageDeleted && WellFormedRoomEvent(chatID, de[i])
    ensures var evs := ch + up + de;
      |evs| <= 3
      && (forall i :: 0 <= i < |evs| ==> WellFormedRoomEvent(chatID, evs[i]))
      && (forall i, j :: 0 <= i < j < |evs| ==> Rank(evs[i].kind) < Rank(evs[j].kind))
  {
    var evs := ch + up + de;
    forall i | 0 <= i < |evs| ensures WellFormedRoomEvent(chatID, evs[i])
      && Rank(evs[i].kind) == (if i < |ch| then 0 else if i < |ch| + |up| then 1 else 2)
    {
      if i < |ch| {
        assert evs[i] == ch[i];
      } else if i < |ch| + |up| {
        assert evs[i] == up[i - |ch|];
      } else {
        assert evs[i] == de[i - |ch| - |up|];
      }
    }
  }


  /** A message, sticker or reaction that upserts `x` puts `x` into the room's message.upserted ids. */
  lemma UpsertedIdAnnounced(chatID: string, room: RoomSync, j: nat, x: string)
    requires j < |room.events| && room.events[j].Some?
    requires UpsertTarget(room.events[j].value) == Some(x)
    ensures exists i :: (0 <= i < |RoomEvents(chatID, room)|
      && RoomEvents(chatID, room)[i].kind == MessageUpserted
      && x in RoomEvents(chatID, room)[i].ids)
  {
    UpsertSetMembers(room.events, x);
    TrimSpaceIdempotentNonBlank(room.events[j].value, x);
    var evs := RoomEvents(chatID, room);
    var i := if Touched(room) then 1 else 0;
    assert evs[i].kind == MessageUpserted;
  }

  lemma TrimSpaceIdempotentNonBlank(e: TimelineEvent, x: string)
    requires UpsertTarget(e) == Some(x)
    ensures !IsBlank(x)
  {
    var own := e.id;
    var reacted := if e.evType == EventReaction && e.relatesTo != "" then e.relatesTo else own;
    var edited := if e.relationType == RelReplace && e.relatesTo != "" then e.relatesTo else reacted;
    TrimSpaceIdempotent(edited);
  }

  /** A redaction of a non-blank id puts that id into the room's message.deleted ids. */
  lemma RedactionAnnounced(chatID: string, room: RoomSync, j: nat)
    requires j < |room.events| && room.events[j].Some?
    requires room.events[j].value.evType == EventRedaction && !IsBlank(room.events[j].value.relatesTo)
    ensures exists i :: (0 <= i < |RoomEvents(chatID, room)|
      && RoomEvents(chatID, room)[i].kind == MessageDeleted
      && room.events[j].value.relatesTo in RoomEvents(chatID, room)[i].ids)
  {
    var x := room.events[j].value.relatesTo;
    DeleteSetMembers(room.events, x);
    var evs := RoomEvents(chatID, room);
    var i := |evs| - 1;
    assert evs[i].kind == MessageDeleted;
  }

  /** Every non-blank left room is announced as deleted, and nothing else comes from the left rooms. */
  lemma {:induction false} LeftEventsMembers(left: seq<string>, e: DomainEvent)
    ensures e in LeftEvents(left) <==>
      e.kind == ChatDeleted && e.ids == [e.chatID] && e.chatID != ""
      && exists i :: 0 <= i < |left| && TrimSpace(left[i]) == e.chatID
  {
    if |left| > 0 {
      var init := left[..|left| - 1];
      LeftEventsMembers(init, e);
      if exists i :: 0 <= i < |left| && TrimSpace(left[i]) == e.chatID {
        var i :| 0 <= i < |left| && TrimSpace(left[i]) == e.chatID;
        if i < |left| - 1 {
          assert init[i] == left[i];
        }
      }
      if e in LeftEvents(init) {
        var i :| 0 <= i < |init| && TrimSpace(init[i]) == e.chatID;
        assert left[i] == init[i];
      }
    }
  }
}
