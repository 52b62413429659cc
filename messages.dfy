/**
 * The message side of internal/server/messages.go: which timeline events
 * become messages and how, the tables from event content to message and
 * attachment types, the sort key, the reaction lists with their
 * de-duplication, the order and `hasMore` of a timeline page, and the
 * reactions removeReaction redacts.
 */
module Messages {
  import opened Wrappers
  import opened Text
  import opened Sorting
  import opened ApiErrors
  import opened AccountsChats

  const MessagePageSize: int := 20

  const EventMessage: string := "m.room.message"
  const EventSticker: string := "m.sticker"
  const EventReaction: string := "m.reaction"
  const RelReplace: string := "m.replace"

  const MsgNotice: string := "m.notice"
  const MsgImage: string := "m.image"
  const MsgVideo: string := "m.video"
  const MsgAudio: string := "m.audio"
  const MsgFile: string := "m.file"
  const MsgLocation: string := "m.location"
  /** The message type an attachment of a sticker event is given. */
  const MsgSticker: string := "m.sticker"

  /* ---------- event and message shapes ---------- */

  /** The `info` block of media content, without the duration. */
  datatype FileInfo = FileInfo(mimeType: string, size: int, width: int, height: int, thumbnailURL: string)

  /**
   * Message event content as the server reads it. `encryptedFileURL` is the
   * URL of the `file` block of encrypted media, None when there is no such
   * block; `fileName` is what GetFileName reports.
   */
  datatype MessageContent = MessageContent(
    msgType: string,
    body: string,
    url: string,
    encryptedFileURL: Option<string>,
    fileName: string,
    info: Option<FileInfo>)

  /** The `m.relates_to` of a reaction: the target event and the key. */
  datatype RelatesTo = RelatesTo(eventID: string, key: string)

  /**
   * A stored event. `asReaction` and `asMessage` are its content decoded as
   * reaction and as message content, None when that decoding fails;
   * `localHTML` is the sanitised HTML of its local content, when there is
   * local content; `replyTo` is the event it replies to, or "".
   */
  datatype Event = Event(
    id: string,
    roomID: string,
    sender: string,
    evtType: string,
    timestampMs: int,
    rowID: int,
    timelineRowID: int,
    redactedBy: string,
    relationType: string,
    replyTo: string,
    asReaction: Option<RelatesTo>,
    asMessage: Option<MessageContent>,
    localHTML: Option<string>)

  datatype AttachmentSize = AttachmentSize(width: int, height: int)

  /** compat.Attachment without the duration. */
  datatype Attachment = Attachment(
    id: string,
    srcURL: string,
    fileName: string,
    mimeType: string,
    attType: string,
    fileSize: int,
    size: Option<AttachmentSize>,
    posterImg: string,
    isGif: bool,
    isSticker: bool)

  /** compat.Reaction. */
  datatype Reaction = Reaction(id: string, reactionKey: string, participantID: string, emoji: bool)

  /**
   * compat.Message. `timestampMs` is the instant its RFC 3339 timestamp
   * denotes: the event time cut to whole seconds.
   */
  datatype Message = Message(
    id: string,
    chatID: string,
    accountID: string,
    senderID: string,
    senderName: string,
    timestampMs: int,
    sortKey: string,
    isSender: bool,
    reactions: seq<Reaction>,
    linkedMessageID: string,
    msgType: string,
    text: string,
    attachments: seq<Attachment>)

  /* ---------- type tables ---------- */

  /** mapMessageType: the message type shown for an event type and msgtype. */
  function MapMessageType(evtType: string, msgType: string): (t: string)
    ensures evtType == EventSticker ==> t == "STICKER"
    ensures t in {"STICKER", "NOTICE", "IMAGE", "VIDEO", "AUDIO", "FILE", "LOCATION", "TEXT"}
  {
    if evtType == EventSticker then "STICKER"
    else if msgType == MsgNotice then "NOTICE"
    else if msgType == MsgImage then "IMAGE"
    else if msgType == MsgVideo then "VIDEO"
    else if msgType == MsgAudio then "AUDIO"
    else if msgType == MsgFile then "FILE"
    else if msgType == MsgLocation then "LOCATION"
    else "TEXT"
  }

  /**
   * Outside sticker events each known msgtype has its own message type and
   * every other msgtype reads as text.
   */
  lemma MessageTypeTable(msgType: string)
    ensures MapMessageType(EventMessage, msgType) == "IMAGE" <==> msgType == MsgImage
    ensures MapMessageType(EventMessage, msgType) == "VIDEO" <==> msgType == MsgVideo
    ensures MapMessageType(EventMessage, msgType) == "AUDIO" <==> msgType == MsgAudio
    ensures MapMessageType(EventMessage, msgType) == "FILE" <==> msgType == MsgFile
    ensures MapMessageType(EventMessage, msgType) == "NOTICE" <==> msgType == MsgNotice
    ensures MapMessageType(EventMessage, msgType) == "LOCATION" <==> msgType == MsgLocation
    ensures MapMessageType(EventMessage, msgType) == "TEXT"
      <==> msgType !in {MsgNotice, MsgImage, MsgVideo, MsgAudio, MsgFile, MsgLocation}
    ensures MapMessageType(EventMessage, msgType) != "STICKER"
  {
  }

  /** The msgtype an attachment is typed by: sticker events count as stickers. */
  function EffectiveMsgType(content: MessageContent, evtType: string): string
  {
    if evtType == EventSticker then MsgSticker else content.msgType
  }

  predicate IsMedia(msgType: string)
  {
    msgType in {MsgImage, MsgVideo, MsgAudio, MsgFile, MsgSticker}
  }

  /** The media URL: the plain URL, else the encrypted file's URL. */
  function MediaURL(content: MessageContent): string
  {
    if content.url == "" && content.encryptedFileURL.Some? then content.encryptedFileURL.value else content.url
  }

  /** The attachment type per msgtype; file (and anything else) stays "unknown". */
  function AttachmentType(msgType: string): string
  {
    if msgType == MsgImage || msgType == MsgSticker then "img"
    else if msgType == MsgVideo then "video"
    else if msgType == MsgAudio then "audio"
    else "unknown"
  }

  /** messageAttachment without the duration. */
  function MessageAttachment(content: MessageContent, evtType: string): (r: Option<Attachment>)
    ensures r.Some? <==> IsMedia(EffectiveMsgType(content, evtType))
    ensures r.Some? ==> r.value.id == r.value.srcURL == MediaURL(content)
    ensures r.Some? ==> r.value.attType == AttachmentType(EffectiveMsgType(content, evtType))
    ensures r.Some? ==> (r.value.isSticker <==> EffectiveMsgType(content, evtType) == MsgSticker)
    ensures r.Some? && content.info.None? ==> r.value.mimeType == "" && r.value.size.None? && r.value.fileSize == 0
  {
    var msgType := EffectiveMsgType(content, evtType);
    if !IsMedia(msgType) then None
    else
      var uri := MediaURL(content);
      var mime := if content.info.Some? then content.info.value.mimeType else "";
      var size :=
        if content.info.Some? && (content.info.value.width > 0 || content.info.value.height > 0)
        then Some(AttachmentSize(content.info.value.width, content.info.value.height))
        else None;
      Some(Attachment(
        uri, uri, content.fileName, mime, AttachmentType(msgType),
        if content.info.Some? then content.info.value.size else 0,
        size,
        if content.info.Some? then content.info.value.thumbnailURL else "",
        msgType == MsgImage && ToLower(mime) == "image/gif",
        msgType == MsgSticker))
  }

  /** messageTypeFromAttachment: the msgtype an outgoing attachment is sent with. */
  function MessageTypeFromAttachment(mimeType: string, hint: string): (t: string)
    ensures hint == "sticker" ==> t == MsgSticker
    ensures hint == "voiceNote" ==> t == MsgAudio
    ensures hint != "sticker" && hint != "voiceNote" ==>
      (t == MsgImage <==> HasPrefix(mimeType, "image/"))
      && (t == MsgVideo <==> !HasPrefix(mimeType, "image/") && HasPrefix(mimeType, "video/"))
      && (t == MsgAudio <==> !HasPrefix(mimeType, "image/") && !HasPrefix(mimeType, "video/") && HasPrefix(mimeType, "audio/"))
    ensures IsMedia(t)
  {
    if hint == "sticker" then MsgSticker
    else if hint == "voiceNote" then MsgAudio
    else if HasPrefix(mimeType, "image/") then MsgImage
    else if HasPrefix(mimeType, "video/") then MsgVideo
    else if HasPrefix(mimeType, "audio/") then MsgAudio
    else MsgFile
  }

  /**
   * An attachment sent with the msgtype messageTypeFromAttachment picks is
   * read back as an attachment of the matching kind, under the uploaded URL.
   */
  lemma SentAttachmentReadsBack(mimeType: string, hint: string, url: string, fileName: string, info: Option<FileInfo>)
    requires url != ""
    ensures var content := MessageContent(MessageTypeFromAttachment(mimeType, hint), fileName, url, None, fileName, info);
      var att := MessageAttachment(content, EventMessage);
      att.Some? && att.value.srcURL == url
      && (hint == "sticker" ==> att.value.isSticker && att.value.attType == "img")
      && (hint == "voiceNote" ==> att.value.attType == "audio")
      && (hint != "sticker" && hint != "voiceNote" && HasPrefix(mimeType, "image/") ==> att.value.attType == "img" && !att.value.isSticker)
  {
  }

  /* ---------- sort key ---------- */

  /** The number a message is sorted by: timeline row, else event row, else time. */
  function SortValue(e: Event): int
  {
    if e.timelineRowID != 0 then e.timelineRowID
    else if e.rowID != 0 then e.rowID
    else e.timestampMs
  }

  /** messageSortKey: the decimal text of the sort value. */
  function MessageSortKey(e: Event): (k: string)
    ensures k != "" && (k[0] == '-' || IsDigit(k[0]))
  {
    var v := SortValue(e);
    var k := FormatInt(v);
    assert k == (if v < 0 then "-" + NatDigits(-v) else NatDigits(v));
    k
  }

  /**
   * The sort key reads back, as an integer, the timeline row ID when there
   * is one, else the event row ID when there is one, else the time in ms.
   */
  lemma SortKeyReadsBack(e: Event)
    requires MinInt64 <= e.timelineRowID <= MaxInt64 && MinInt64 <= e.rowID <= MaxInt64
    requires MinInt64 <= e.timestampMs <= MaxInt64
    ensures e.timelineRowID != 0 ==> Atoi(MessageSortKey(e)) == Some(e.timelineRowID)
    ensures e.timelineRowID == 0 && e.rowID != 0 ==> Atoi(MessageSortKey(e)) == Some(e.rowID)
    ensures e.timelineRowID == 0 && e.rowID == 0 ==> Atoi(MessageSortKey(e)) == Some(e.timestampMs)
  {
    AtoiFormatInt(SortValue(e));
  }

  /* ---------- events to messages ---------- */

  /** Time formatted as RFC 3339 and read back: the whole second at or before it. */
  function WholeSeconds(ms: int): (r: int)
    ensures r <= ms < r + 1000 && r % 1000 == 0
  {
    ms - ms % 1000
  }

  /** The event types that can become messages. */
  predicate MessageLike(evtType: string)
  {
    evtType == EventMessage || evtType == EventSticker || evtType == EventReaction
  }

  /** An event mapEventToMessage skips (errSkipEvent). */
  predicate Skipped(evt: Option<Event>)
  {
    evt.None?
    || evt.value.redactedBy != ""
    || evt.value.relationType == RelReplace
    || !MessageLike(evt.value.evtType)
    || (evt.value.evtType != EventReaction && evt.value.asMessage.None?)
  }

  /** The fields every message of an event carries, before its type-specific part. */
  function BaseMessage(e: Event, accountID: string, selfID: string, names: map<string, string>, reactions: map<string, seq<Reaction>>): Message
  {
    Message(
      e.id, e.roomID, accountID, e.sender,
      if e.sender in names then names[e.sender] else e.sender,
      WholeSeconds(e.timestampMs), MessageSortKey(e), e.sender == selfID,
      if e.id in reactions then reactions[e.id] else [],
      e.replyTo, "", "", [])
  }

  /**
   * mapEventToMessage: None where it skips the event, else the message.
   * `accountID` is the account inferred for the event's room.
   */
  function MapEventToMessage(
    evt: Option<Event>, accountID: string, selfID: string,
    names: map<string, string>, reactions: map<string, seq<Reaction>>): (r: Option<Message>)
    ensures r.None? <==> Skipped(evt)
  {
    if evt.None? || evt.value.redactedBy != "" || evt.value.relationType == RelReplace || !MessageLike(evt.value.evtType) then None
    else
      var e := evt.value;
      var base := BaseMessage(e, accountID, selfID, names, reactions);
      if e.evtType == EventReaction then
        if e.asReaction.None? then Some(base)
        else
          var rel := e.asReaction.value;
          Some(base.(msgType := "REACTION", text := rel.key,
            linkedMessageID := if e.replyTo == "" then rel.eventID else e.replyTo))
      else if e.asMessage.None? then None
      else
        var c := e.asMessage.value;
        var att := MessageAttachment(c, e.evtType);
        Some(base.(
          msgType := MapMessageType(e.evtType, c.msgType),
          text := if c.body == "" && e.localHTML.Some? then e.localHTML.value else c.body,
          attachments := if att.Some? then [att.value] else []))
  }

  /**
   * What a message says about its event: its IDs, sender and sender name,
   * whether it is the caller's, its reactions, at most one attachment and
   * only for media, and the type and text of reactions and messages.
   */
  lemma MessageOfEvent(e: Event, accountID: string, selfID: string, names: map<string, string>, reactions: map<string, seq<Reaction>>)
    requires !Skipped(Some(e))
    ensures var m := MapEventToMessage(Some(e), accountID, selfID, names, reactions).value;
      m.id == e.id && m.chatID == e.roomID && m.accountID == accountID && m.senderID == e.sender
      && (m.isSender <==> e.sender == selfID)
      && m.senderName == (if e.sender in names then names[e.sender] else e.sender)
      && m.reactions == (if e.id in reactions then reactions[e.id] else [])
      && |m.attachments| <= 1
      && (|m.attachments| == 1 ==> e.evtType != EventReaction && IsMedia(EffectiveMsgType(e.asMessage.value, e.evtType)))
      && (e.evtType == EventSticker ==> m.msgType == "STICKER")
      && (e.evtType == EventReaction && e.asReaction.Some? ==>
            m.msgType == "REACTION" && m.text == e.asReaction.value.key
            && m.linkedMessageID == (if e.replyTo != "" then e.replyTo else e.asReaction.value.eventID))
      && (m.timestampMs <= e.timestampMs < m.timestampMs + 1000)
  {
  }

  /* ---------- member names ---------- */

  /** loadMemberNameMap: each member's trimmed display name, else its user ID. */
  function MemberNames(members: Result<seq<MemberEvent>, string>): (names: map<string, string>)
    decreases if members.Success? then |members.value| else 0
  {
    if members.Failure? || |members.value| == 0 then map[]
    else
      var ms := members.value;
      var before := MemberNames(Success(ms[..|ms| - 1]));
      var m := ms[|ms| - 1];
      if m.stateKey.None? || m.stateKey.value == "" || m.content.None? then before
      else
        var name := TrimSpace(m.content.value.displayname);
        before[m.stateKey.value := if name == "" then m.stateKey.value else name]
  }

  /** Every named user has a non-empty ID and a non-empty name. */
  lemma {:induction false} MemberNamesNonEmpty(members: Result<seq<MemberEvent>, string>)
    ensures forall k :: k in MemberNames(members) ==> k != "" && MemberNames(members)[k] != ""
    decreases if members.Success? then |members.value| else 0
  {
    if members.Success? && |members.value| > 0 {
      MemberNamesNonEmpty(Success(members.value[..|members.value| - 1]));
    }
  }

  /* ---------- reactions ---------- */

  /** A reaction event: its sender, redaction, and key when the content decodes. */
  datatype ReactionEvent = ReactionEvent(sender: string, redactedBy: string, key: Option<string>)

  /** A reaction event that is shown: not redacted, decodable, with a non-blank key. */
  predicate Shows(e: ReactionEvent)
  {
    e.redactedBy == "" && e.key.Some? && TrimSpace(e.key.value) != ""
  }

  /** The identity a reaction is de-duplicated by: sender and trimmed key. */
  function ReactionID(e: ReactionEvent): string
    requires e.key.Some?
  {
    e.sender + ":" + TrimSpace(e.key.value)
  }

  function ReactionOf(e: ReactionEvent): (r: Reaction)
    requires e.key.Some?
    ensures r.id == ReactionID(e) && r.participantID == e.sender
  {
    var key := TrimSpace(e.key.value);
    Reaction(ReactionID(e), key, e.sender, |key| <= 2)
  }

  function ReactionIDs(rs: seq<Reaction>): (ids: set<string>)
    ensures forall k :: 0 <= k < |rs| ==> rs[k].id in ids
    ensures forall id :: id in ids ==> exists k :: 0 <= k < |rs| && rs[k].id == id
  {
    set k | 0 <= k < |rs| :: rs[k].id
  }

  /** The reactions of one event: the shown ones, first of each identity, in order. */
  function Reactions(events: seq<ReactionEvent>): seq<Reaction>
  {
    if |events| == 0 then []
    else
      var before := Reactions(events[..|events| - 1]);
      var e := events[|events| - 1];
      if Shows(e) && ReactionID(e) !in ReactionIDs(before) then before + [ReactionOf(e)] else before
  }

  lemma ReactionIDsSnoc(rs: seq<Reaction>, r: Reaction)
    ensures ReactionIDs(rs + [r]) == ReactionIDs(rs) + {r.id}
  {
    var a := ReactionIDs(rs + [r]);
    forall id | id in a ensures id in ReactionIDs(rs) + {r.id} {
      var k :| 0 <= k < |rs| + 1 && (rs + [r])[k].id == id;
      if k < |rs| {
        assert rs[k].id == id;
      }
    }
    assert (rs + [r])[|rs|] == r;
    forall k | 0 <= k < |rs| ensures rs[k].id in a {
      assert (rs + [r])[k] == rs[k];
    }
  }

  /** No two reactions of an event share an ID. */
  lemma {:induction false} ReactionsDistinct(events: seq<ReactionEvent>)
    ensures forall i, j :: 0 <= i < j < |Reactions(events)| ==> Reactions(events)[i].id != Reactions(events)[j].id
  {
    if |events| > 0 {
      var init := events[..|events| - 1];
      ReactionsDistinct(init);
      var before := Reactions(init);
      var rs := Reactions(events);
      if rs != before {
        var last := ReactionOf(events[|events| - 1]);
        assert rs == before + [last] && last.id !in ReactionIDs(before);
        forall i, j | 0 <= i < j < |rs| ensures rs[i].id != rs[j].id {
          assert rs[i] == before[i];
          if j == |before| {
            assert before[i].id in ReactionIDs(before);
          } else {
            assert rs[j] == before[j];
            assert before[i].id != before[j].id;
          }
        }
      }
    }
  }

  /** `r` is the reaction of one of the shown events. */
  ghost predicate FromShown(r: Reaction, events: seq<ReactionEvent>)
  {
    exists j :: 0 <= j < |events| && Shows(events[j]) && r == ReactionOf(events[j])
  }

  /**
   * Each reaction comes from a shown event, so its key is non-blank, and it
   * is marked as an emoji exactly when its key has at most two code points.
   */
  lemma {:induction false} ReactionsSources(events: seq<ReactionEvent>)
    ensures forall r :: r in Reactions(events) ==>
      r.reactionKey != "" && (r.emoji <==> |r.reactionKey| <= 2) && FromShown(r, events)
  {
    if |events| > 0 {
      var init := events[..|events| - 1];
      ReactionsSources(init);
      forall r | r in Reactions(events) ensures FromShown(r, events) {
        if r in Reactions(init) {
          var j :| 0 <= j < |init| && Shows(init[j]) && r == ReactionOf(init[j]);
          assert events[j] == init[j];
        } else {
          assert r == ReactionOf(events[|events| - 1]);
        }
      }
    }
  }

  /** Every shown reaction event is represented by a reaction with its ID. */
  lemma {:induction false} ReactionsComplete(events: seq<ReactionEvent>)
    ensures forall j :: 0 <= j < |events| && Shows(events[j]) ==> ReactionID(events[j]) in ReactionIDs(Reactions(events))
  {
    if |events| > 0 {
      var init := events[..|events| - 1];
      ReactionsComplete(init);
      var before := Reactions(init);
      var rs := Reactions(events);
      assert ReactionIDs(before) <= ReactionIDs(rs) by {
        if rs != before {
          ReactionIDsSnoc(before, ReactionOf(events[|events| - 1]));
        }
      }
      forall j | 0 <= j < |events| && Shows(events[j]) ensures ReactionID(events[j]) in ReactionIDs(rs) {
        if j < |init| {
          assert events[j] == init[j];
        } else if rs != before {
          ReactionIDsSnoc(before, ReactionOf(events[|events| - 1]));
        }
      }
    }
  }

  /** The de-duplicating loop of loadReactionMap for one event. */
  method CollectReactions(events: seq<ReactionEvent>) returns (reactions: seq<Reaction>)
    ensures reactions == Reactions(events)
  {
    var seen: set<string> := {};
    reactions := [];
    for i := 0 to |events|
      invariant reactions == Reactions(events[..i])
      invariant seen == ReactionIDs(reactions)
    {
      assert events[..i + 1][..i] == events[..i];
      var e := events[i];
      if e.redactedBy != "" || e.key.None? {
        continue;
      }
      var key := TrimSpace(e.key.value);
      if key == "" {
        continue;
      }
      var id := e.sender + ":" + key;
      if id in seen {
        continue;
      }
      ReactionIDsSnoc(reactions, ReactionOf(e));
      seen := seen + {id};
      reactions := reactions + [Reaction(id, key, e.sender, |key| <= 2)];
    }
    assert events[..|events|] == events;
  }

  /** One entry of the reaction query: an event ID and its reaction events, None for a nil entry. */
  datatype ReactionQuery = ReactionQuery(eventID: string, events: Option<seq<ReactionEvent>>)

  /** The reactions of an entry, [] for a nil entry. */
  function EntryReactions(q: ReactionQuery): seq<Reaction>
  {
    if q.events.None? then [] else Reactions(q.events.value)
  }

  /** The reaction map the entries give: events with reactions only. */
  function ReactionMapOf(entries: seq<ReactionQuery>): map<string, seq<Reaction>>
  {
    if |entries| == 0 then map[]
    else
      var before := ReactionMapOf(entries[..|entries| - 1]);
      var q := entries[|entries| - 1];
      var rs := EntryReactions(q);
      if |rs| > 0 then before[q.eventID := rs] else before
  }

  /**
   * Every event in the map has reactions, taken from one of its entries,
   * and every entry with reactions has its event in the map.
   */
  lemma {:induction false} ReactionMapFacts(entries: seq<ReactionQuery>)
    ensures var m := ReactionMapOf(entries);
      (forall id :: id in m ==> |m[id]| > 0 && exists j :: 0 <= j < |entries| && entries[j].eventID == id && m[id] == EntryReactions(entries[j]))
      && (forall j :: 0 <= j < |entries| && |EntryReactions(entries[j])| > 0 ==> entries[j].eventID in m)
  {
    if |entries| > 0 {
      var init := entries[..|entries| - 1];
      ReactionMapFacts(init);
      var m := ReactionMapOf(entries);
      var before := ReactionMapOf(init);
      forall id | id in m
        ensures exists j :: 0 <= j < |entries| && entries[j].eventID == id && m[id] == EntryReactions(entries[j])
      {
        if id == entries[|entries| - 1].eventID && |EntryReactions(entries[|entries| - 1])| > 0 {
        } else {
          var j :| 0 <= j < |init| && init[j].eventID == id && before[id] == EntryReactions(init[j]);
          assert entries[j] == init[j];
        }
      }
      forall j | 0 <= j < |entries| && |EntryReactions(entries[j])| > 0 ensures entries[j].eventID in m {
        if j < |init| {
          assert entries[j] == init[j];
        }
      }
    }
  }

  /** loadReactionMap's result, for `requested` events and what the query gave. */
  function ReactionMap(requested: nat, fetched: Result<seq<ReactionQuery>, GoError>): Result<map<string, seq<Reaction>>, ApiError>
  {
    if requested == 0 then Success(map[])
    else if fetched.Failure? then Failure(Internal(Some(Wrapped("failed to read reactions", fetched.error))))
    else Success(ReactionMapOf(fetched.value))
  }

  /**
   * loadReactionMap after the query: no events give an empty map, a failed
   * query an internal error, otherwise the events with their reactions.
   */
  method LoadReactionMap(requested: nat, fetched: Result<seq<ReactionQuery>, GoError>)
    returns (r: Result<map<string, seq<Reaction>>, ApiError>)
    ensures r == ReactionMap(requested, fetched)
    ensures requested == 0 ==> r == Success(map[])
    ensures requested > 0 && fetched.Failure? ==> r.Failure? && r.error.status == StatusInternalServerError
    ensures r.Success? ==> forall id :: id in r.value ==> |r.value[id]| > 0
  {
    if requested == 0 {
      return Success(map[]);
    }
    if fetched.Failure? {
      return Failure(Internal(Some(Wrapped("failed to read reactions", fetched.error))));
    }
    var entries := fetched.value;
    var output: map<string, seq<Reaction>> := map[];
    for i := 0 to |entries|
      invariant output == ReactionMapOf(entries[..i])
    {
      assert entries[..i + 1][..i] == entries[..i];
      var q := entries[i];
      if q.events.None? || |q.events.value| == 0 {
        continue;
      }
      var reactions := CollectReactions(q.events.value);
      if |reactions| > 0 {
        output := output[q.eventID := reactions];
      }
    }
    assert entries[..|entries|] == entries;
    ReactionMapFacts(entries);
    r := Success(output);
  }

  /* ---------- timeline pages ---------- */

  /** How the timeline query ended: its rows, or the step that failed. */
  datatype TimelineRows =
    | Rows(events: seq<Event>)
    | QueryFailed(err: GoError)
    | ScanFailed(err: GoError)
    | IterationFailed(err: GoError)

  /** The order "after" pages are returned in: descending timeline row ID. */
  function NewerFirst(a: Event, b: Event): bool
  {
    a.timelineRowID >= b.timelineRowID
  }

  lemma NewerFirstIsTotalPreorder()
    ensures Total(NewerFirst) && Transitive(NewerFirst)
  {
  }

  /**
   * loadTimelineEvents: the rows, re-sorted newest first for "after", with
   * `hasMore` exactly when the query filled the limit.
   */
  function LoadTimelineEvents(rows: TimelineRows, direction: string, limit: int): (r: Result<(seq<Event>, bool), ApiError>)
    ensures rows.Rows? <==> r.Success?
    ensures r.Success? ==> (r.value.1 <==> |rows.events| == limit)
    ensures r.Success? ==> multiset(r.value.0) == multiset(rows.events)
    ensures r.Success? && direction == "after" ==> SortedBy(r.value.0, NewerFirst)
    ensures r.Success? && direction != "after" ==> r.value.0 == rows.events
    ensures r.Failure? ==> r.error.status == StatusInternalServerError
  {
    match rows
    case QueryFailed(err) => Failure(Internal(Some(Wrapped("failed to query timeline", err))))
    case ScanFailed(err) => Failure(Internal(Some(Wrapped("failed to scan timeline event", err))))
    case IterationFailed(err) => Failure(Internal(Some(Wrapped("timeline query failed", err))))
    case Rows(events) =>
      NewerFirstIsTotalPreorder();
      Success((if direction == "after" then InsertionSort(events, NewerFirst) else events, |events| == limit))
  }

  /**
   * The rows the timeline query returns when `available` holds, in query
   * order, every event past the cursor: at most `limit` of them.
   */
  function QueryRows(available: seq<Event>, limit: nat): seq<Event>
  {
    if |available| <= limit then available else available[..limit]
  }

  /** listMessages' cut of the loaded events to one page. */
  function PageOfEvents(events: seq<Event>): (page: seq<Event>)
    ensures |page| == (if |events| > MessagePageSize then MessagePageSize else |events|)
    ensures page == events[..|page|]
  {
    if |events| > MessagePageSize then events[..MessagePageSize] else events
  }

  /**
   * listMessages asks for one row more than a page, so it reports more
   * messages exactly when more than a page of events lies past the cursor;
   * it keeps the first page of what it loaded, which for `before` is the
   * first page of the events past the cursor.
   */
  lemma ListMessagesHasMore(available: seq<Event>, direction: string)
    ensures var r := LoadTimelineEvents(Rows(QueryRows(available, MessagePageSize + 1)), direction, MessagePageSize + 1);
      var kept := if |available| > MessagePageSize then MessagePageSize else |available|;
      r.Success? && (r.value.1 <==> |available| > MessagePageSize)
      && |r.value.0| == (if |available| > MessagePageSize then MessagePageSize + 1 else |available|)
      && PageOfEvents(r.value.0) == r.value.0[..kept]
      && (direction != "after" ==> PageOfEvents(r.value.0) == available[..kept])
  {
    var rows := QueryRows(available, MessagePageSize + 1);
    var r := LoadTimelineEvents(Rows(rows), direction, MessagePageSize + 1);
    assert |r.value.0| == |multiset(r.value.0)| == |multiset(rows)| == |rows|;
  }

  /* ---------- removing reactions ---------- */

  /** The reaction key removeReaction acts on: the body's, else the query's, both trimmed. */
  function RemovalKey(bodyKey: string, queryKey: string): (r: Result<string, ApiError>)
    ensures r.Success? <==> !IsBlank(bodyKey) || !IsBlank(queryKey)
    ensures r.Success? ==> r.value == (if !IsBlank(bodyKey) then TrimSpace(bodyKey) else TrimSpace(queryKey))
    ensures r.Failure? ==> r.error == Validation(FieldProblem("reactionKey", "reactionKey is required"))
  {
    var key := TrimSpace(bodyKey);
    var key' := if key == "" then TrimSpace(queryKey) else key;
    if key' == "" then Failure(Validation(FieldProblem("reactionKey", "reactionKey is required"))) else Success(key')
  }

  /** An annotation of the target message: its ID, sender, redaction, and key when it decodes. */
  datatype RelatedEvent = RelatedEvent(id: string, sender: string, redactedBy: string, key: Option<string>)

  /** An annotation removeReaction redacts: the caller's own, live, with exactly this key. */
  predicate Redacts(e: RelatedEvent, selfID: string, key: string)
  {
    e.sender == selfID && e.redactedBy == "" && e.key == Some(key)
  }

  /** The IDs of the annotations to redact, in order. */
  function ToRedact(related: seq<RelatedEvent>, selfID: string, key: string): seq<string>
  {
    if |related| == 0 then []
    else
      var before := ToRedact(related[..|related| - 1], selfID, key);
      var e := related[|related| - 1];
      if Redacts(e, selfID, key) then before + [e.id] else before
  }

  /** Exactly the caller's own live annotations with the key are redacted. */
  lemma {:induction false} ToRedactFacts(related: seq<RelatedEvent>, selfID: string, key: string)
    ensures var ids := ToRedact(related, selfID, key);
      |ids| <= |related|
      && (forall x :: x in ids ==> exists j :: 0 <= j < |related| && related[j].id == x && Redacts(related[j], selfID, key))
      && (forall j :: 0 <= j < |related| && Redacts(related[j], selfID, key) ==> related[j].id in ids)
  {
    if |related| > 0 {
      var init := related[..|related| - 1];
      ToRedactFacts(init, selfID, key);
      var ids := ToRedact(related, selfID, key);
      forall x | x in ids
        ensures exists j :: 0 <= j < |related| && related[j].id == x && Redacts(related[j], selfID, key)
      {
        if x in ToRedact(init, selfID, key) {
          var j :| 0 <= j < |init| && init[j].id == x && Redacts(init[j], selfID, key);
          assert related[j] == init[j];
        } else {
          assert related[|related| - 1].id == x;
        }
      }
      forall j | 0 <= j < |related| && Redacts(related[j], selfID, key) ensures related[j].id in ids {
        if j < |init| {
          assert related[j] == init[j];
        }
      }
    }
  }

  /** The collecting loop of removeReaction. */
  method CollectRedactions(related: seq<RelatedEvent>, selfID: string, key: string) returns (toRedact: seq<string>)
    ensures toRedact == ToRedact(related, selfID, key)
  {
    toRedact := [];
    for i := 0 to |related|
      invariant toRedact == ToRedact(related[..i], selfID, key)
    {
      assert related[..i + 1][..i] == related[..i];
      var e := related[i];
      if e.sender != selfID || e.redactedBy != "" {
        continue;
      }
      if e.key.None? {
        continue;
      }
      if e.key.value == key {
        toRedact := toRedact + [e.id];
      }
    }
    assert related[..|related|] == related;
  }
}
