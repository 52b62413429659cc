/**
 * The command loop of the `/v1/ws` handler (internal/server/ws_events.go:398-507):
 * each frame a client sends is answered either by an error naming a code and a
 * message, or by `subscriptions.updated` with the normalised list, which then
 * becomes the connection's subscription.
 */
module WsCommands {
  import opened Wrappers
  import opened Text
  import opened Sorting
  import opened JsonValues
  import opened WsSubscriptions

  const CommandSetSubscriptions: string := "subscriptions.set"
  const CodeInvalidCommand: string := "INVALID_COMMAND"
  const CodeInvalidPayload: string := "INVALID_PAYLOAD"
  const CodeInternal: string := "INTERNAL_ERROR"

  const MsgNeedsType: string := "Payload must be an object with a type field"
  const MsgInvalidJson: string := "Invalid JSON payload"
  const MsgUnsupportedPrefix: string := "Unsupported command type: "
  const MsgInvalidSubscriptions: string := "Invalid subscriptions payload"
  const MsgRequestIDString: string := "requestID must be a string"
  const MsgChatIDsArray: string := "chatIDs must be an array of strings"
  const MsgWildcardMix: string := "chatIDs cannot combine '*' with specific IDs"

  /** One frame read from the client: binary, or text that did or did not parse as JSON. */
  datatype Frame = BinaryFrame | TextFrame(parsed: Option<Json>)

  /** The answer to one frame. An empty `requestID` is left out on the wire. */
  datatype Reply =
    | ErrorReply(requestID: string, code: string, message: string)
    | Updated(requestID: string, chatIDs: seq<string>)

  /** The keys a `subscriptions.set` command may carry. */
  predicate AllowedKey(k: string)
  {
    k == "type" || k == "requestID" || k == "chatIDs"
  }

  predicate HasUnexpectedKey(m: map<string, Json>)
  {
    exists k :: k in m && !AllowedKey(k)
  }

  /** The request id echoed in replies: the `requestID` member when it is a string, else empty. */
  function RequestIDOf(m: map<string, Json>): (r: string)
    ensures r != "" ==> "requestID" in m && m["requestID"] == JString(r)
  {
    if "requestID" in m && m["requestID"].JString? then m["requestID"].s else ""
  }

  /** The `chatIDs` member; a missing member decodes like `null`. */
  function ChatIDsOf(m: map<string, Json>): Json
  {
    if "chatIDs" in m then m["chatIDs"] else JNull
  }

  /** The reply the handler sends for a frame, check by check. */
  ghost function CommandReply(f: Frame): Reply
  {
    match f
    case BinaryFrame => ErrorReply("", CodeInvalidPayload, MsgNeedsType)
    case TextFrame(None) => ErrorReply("", CodeInvalidPayload, MsgInvalidJson)
    case TextFrame(Some(v)) =>
      if !v.JObject? then ErrorReply("", CodeInvalidPayload, MsgNeedsType)
      else ObjectReply(v.fields)
  }

  /** The checks on a JSON object, in the handler's order. */
  ghost function ObjectReply(m: map<string, Json>): Reply
  {
    var rid := RequestIDOf(m);
    if !("type" in m && m["type"].JString?) then ErrorReply(rid, CodeInvalidPayload, MsgNeedsType)
    else if m["type"].s != CommandSetSubscriptions then
      ErrorReply(rid, CodeInvalidCommand, MsgUnsupportedPrefix + m["type"].s)
    else if HasUnexpectedKey(m) then ErrorReply(rid, CodeInvalidPayload, MsgInvalidSubscriptions)
    else if "requestID" in m && !m["requestID"].JString? then ErrorReply(rid, CodeInvalidPayload, MsgRequestIDString)
    else ListReply(rid, ChatIDsOf(m))
  }

  /** The checks on the `chatIDs` member of a `subscriptions.set` command. */
  ghost function ListReply(rid: string, raw: Json): Reply
  {
    if !(raw.JArray? && AllStrings(raw.items)) then ErrorReply(rid, CodeInvalidPayload, MsgChatIDsArray)
    else
      var ids := TrimmedNonBlank(StringsOf(raw.items));
      if WildcardConflict(ids) then ErrorReply(rid, CodeInvalidPayload, MsgWildcardMix)
      else Updated(rid, SortedSet(IdSet(ids)))
  }

  /** The key scan of the handler: stops at the first key that is not allowed. */
  method FindUnexpectedKey(m: map<string, Json>) returns (found: bool)
    ensures found <==> HasUnexpectedKey(m)
  {
    found := false;
    var rest := m.Keys;
    while rest != {}
      invariant rest <= m.Keys
      invariant !found
      invariant forall k :: k in m && k !in rest ==> AllowedKey(k)
      decreases |rest|
    {
      var k :| k in rest;
      if !AllowedKey(k) {
        found := true;
        return;
      }
      rest := rest - {k};
    }
  }

  /** One iteration of the read loop, from the frame to the reply. */
  method InterpretCommand(f: Frame) returns (reply: Reply)
    ensures reply == CommandReply(f)
  {
    if f.BinaryFrame? {
      return ErrorReply("", CodeInvalidPayload, MsgNeedsType);
    }
    if f.parsed.None? {
      return ErrorReply("", CodeInvalidPayload, MsgInvalidJson);
    }
    var v := f.parsed.value;
    if !v.JObject? {
      return ErrorReply("", CodeInvalidPayload, MsgNeedsType);
    }
    var m := v.fields;
    var rid := RequestIDOf(m);
    if !("type" in m && m["type"].JString?) {
      return ErrorReply(rid, CodeInvalidPayload, MsgNeedsType);
    }
    var msgType := m["type"].s;
    if msgType != CommandSetSubscriptions {
      return ErrorReply(rid, CodeInvalidCommand, MsgUnsupportedPrefix + msgType);
    }
    var unexpected := FindUnexpectedKey(m);
    if unexpected {
      return ErrorReply(rid, CodeInvalidPayload, MsgInvalidSubscriptions);
    }
    if "requestID" in m && !m["requestID"].JString? {
      return ErrorReply(rid, CodeInvalidPayload, MsgRequestIDString);
    }
    var chatIDs, ok := DecodeChatIDs(ChatIDsOf(m));
    if !ok {
      return ErrorReply(rid, CodeInvalidPayload, MsgChatIDsArray);
    }
    var normalized, valid := NormalizeChatIDs(chatIDs);
    if !valid {
      return ErrorReply(rid, CodeInvalidPayload, MsgWildcardMix);
    }
    NormalizationUnique(chatIDs, normalized, SortedSet(IdSet(chatIDs)));
    reply := Updated(rid, normalized);
  }

  /* ---------- properties of the reply ---------- */

  /** A well-formed command: a `subscriptions.set` object with allowed keys, a string-or-absent request id and a string array. */
  ghost predicate WellFormedCommand(m: map<string, Json>)
  {
    "type" in m && m["type"] == JString(CommandSetSubscriptions)
    && !HasUnexpectedKey(m)
    && ("requestID" in m ==> m["requestID"].JString?)
    && "chatIDs" in m && m["chatIDs"].JArray? && AllStrings(m["chatIDs"].items)
  }

  /** The subscription changes exactly for a well-formed command whose list does not mix `*` with ids. */
  lemma UpdatedIff(f: Frame)
    ensures CommandReply(f).Updated? <==>
      (f.TextFrame? && f.parsed.Some? && f.parsed.value.JObject?
       && WellFormedCommand(f.parsed.value.fields)
       && !WildcardConflict(TrimmedNonBlank(StringsOf(f.parsed.value.fields["chatIDs"].items))))
  {
  }

  /** The list a client is subscribed to after an update is normalised, and is the set it asked for. */
  lemma UpdatedListNormalized(f: Frame)
    requires CommandReply(f).Updated?
    ensures var r := CommandReply(f).chatIDs;
      StrictlySorted(r)
      && (forall i :: 0 <= i < |r| ==> IsCleanID(r[i]))
      && (Wildcard in r ==> r == [Wildcard])
      && forall x :: x in r <==> x in IdSet(StringsOf(f.parsed.value.fields["chatIDs"].items))
  {
    var m := f.parsed.value.fields;
    var strs := StringsOf(m["chatIDs"].items);
    var ids := TrimmedNonBlank(strs);
    var r := CommandReply(f).chatIDs;
    assert NormalizesTo(ids, r);
    IdSetClean(ids);
    forall i | 0 <= i < |r| ensures IsCleanID(r[i]) {
      assert r[i] in IdSet(ids);
    }
    if Wildcard in r {
      WildcardStandsAlone(ids, r);
    }
    DecodeThenNormalize(strs);
  }

  /** Every error reply uses one of the two codes the handler sends, and an unsupported type is the only INVALID_COMMAND. */
  lemma ErrorCodes(f: Frame)
    requires CommandReply(f).ErrorReply?
    ensures CommandReply(f).code == CodeInvalidPayload || CommandReply(f).code == CodeInvalidCommand
    ensures CommandReply(f).code == CodeInvalidCommand <==>
      (f.TextFrame? && f.parsed.Some? && f.parsed.value.JObject?
       && "type" in f.parsed.value.fields && f.parsed.value.fields["type"].JString?
       && f.parsed.value.fields["type"].s != CommandSetSubscriptions)
  {
  }

  /** Once the payload is an object, every reply echoes its string request id. */
  lemma RequestIDEchoed(f: Frame, rid: string)
    requires f.TextFrame? && f.parsed.Some? && f.parsed.value.JObject?
    requires "requestID" in f.parsed.value.fields && f.parsed.value.fields["requestID"] == JString(rid)
    ensures CommandReply(f).requestID == rid
  {
  }

  /** A frame that is not an object never carries a request id back. */
  lemma NoObjectNoRequestID(f: Frame)
    requires !(f.TextFrame? && f.parsed.Some? && f.parsed.value.JObject?)
    ensures CommandReply(f) == ErrorReply("", CodeInvalidPayload, if f == TextFrame(None) then MsgInvalidJson else MsgNeedsType)
  {
  }

  /** Sending back the list a client was given is accepted and changes nothing. */
  lemma ResubscribeIsStable(f: Frame, g: Frame)
    requires CommandReply(f).Updated?
    requires g == TextFrame(Some(JObject(map["type" := JString(CommandSetSubscriptions), "chatIDs" := StringArray(CommandReply(f).chatIDs)])))
    ensures CommandReply(g) == Updated("", CommandReply(f).chatIDs)
  {
    var r := CommandReply(f).chatIDs;
    var ids := TrimmedNonBlank(StringsOf(f.parsed.value.fields["chatIDs"].items));
    assert !WildcardConflict(ids) && NormalizesTo(ids, r);
    ResubscribeReply(ids, r, g);
  }

  lemma ResubscribeReply(ids: seq<string>, r: seq<string>, g: Frame)
    requires !WildcardConflict(ids) && NormalizesTo(ids, r)
    requires g == TextFrame(Some(JObject(map["type" := JString(CommandSetSubscriptions), "chatIDs" := StringArray(r)])))
    ensures CommandReply(g) == Updated("", r)
  {
    var gm := g.parsed.value.fields;
    assert gm.Keys == {"type", "chatIDs"};
    assert "type" in gm && gm["type"] == JString(CommandSetSubscriptions);
    assert "requestID" !in gm;
    assert RequestIDOf(gm) == "";
    assert !HasUnexpectedKey(gm);
    var raw := ChatIDsOf(gm);
    assert raw == StringArray(r);
    assert AllStrings(raw.items);
    assert StringsOf(raw.items) == r;
    NormalizeIdempotent(ids, r);
    TrimmedNonBlankOfCleanList(ids, r);
    NormalizationUnique(r, SortedSet(IdSet(r)), r);
    var ids2 := TrimmedNonBlank(StringsOf(raw.items));
    assert ids2 == r;
    assert ListReply("", raw) == Updated("", r);
    assert ObjectReply(gm) == ListReply("", raw);
    ObjectFrameReply(gm);
  }

  lemma ObjectFrameReply(m: map<string, Json>)
    ensures CommandReply(TextFrame(Some(JObject(m)))) == ObjectReply(m)
  {
  }

  lemma TrimmedNonBlankOfCleanList(ids: seq<string>, r: seq<string>)
    requires !WildcardConflict(ids) && NormalizesTo(ids, r)
    ensures TrimmedNonBlank(r) == r
  {
    IdSetClean(ids);
    forall i | 0 <= i < |r| ensures IsCleanID(r[i]) {
      assert r[i] in IdSet(ids);
    }
    TrimmedNonBlankOfClean(r);
  }
}
