/**
 * The request-parameter helpers of internal/server/server.go: the pagination
 * direction, the participant limit, the two cursor forms, the account-ID
 * list, the chat-ID lookup order, `firstErr`, and the homeserver check that
 * guards the Beeper-only endpoints.
 *
 * Cursors are base64url-encoded JSON (internal/cursor); their decoder is a
 * parameter here, and the round-trip lemmas assume only that it reads back
 * what the matching encoder writes.
 */
module ServerParams {
  import opened Wrappers
  import opened Text
  import opened JsonValues
  import opened ApiErrors

  /** cursor.ChatCursor: the sorting timestamp in ms and an optional room ID for ties. */
  datatype ChatCursor = ChatCursor(ts: int, roomID: string)

  /** parseDirection: blank means "before"; only "before" and "after" are accepted. */
  function ParseDirection(raw: string): (r: Result<string, ApiError>)
    ensures r.Success? ==> r.value == "before" || r.value == "after"
    ensures r.Success? <==> IsBlank(raw) || TrimSpace(raw) in {"before", "after"}
    ensures IsBlank(raw) ==> r == Success("before")
    ensures r.Failure? ==> r.error == Validation(FieldProblem("direction", "must be one of: before, after"))
  {
    var direction := TrimSpace(raw);
    if direction == "" then Success("before")
    else if direction != "before" && direction != "after" then
      Failure(Validation(FieldProblem("direction", "must be one of: before, after")))
    else Success(direction)
  }

  /** A direction the server produced reads back as itself. */
  lemma ParseDirectionIdempotent(raw: string)
    requires ParseDirection(raw).Success?
    ensures ParseDirection(ParseDirection(raw).value) == ParseDirection(raw)
  {
    var d := ParseDirection(raw).value;
    assert NoSpace(d) && d != "";
    assert TrimLeft(d) == d && TrimRight(d) == d;
  }

  const MaxParticipantCount: int := 500

  /** parseParticipantLimit: -1 (no limit) for an empty value, else an integer in [-1, 500]. */
  function ParseParticipantLimit(raw: string): (r: Result<int, ApiError>)
    ensures raw == "" ==> r == Success(-1)
    ensures r.Success? ==> -1 <= r.value <= MaxParticipantCount
    ensures raw != "" ==> (r.Success? <==> Atoi(raw).Some? && -1 <= Atoi(raw).value <= MaxParticipantCount)
    ensures raw != "" && r.Success? ==> r.value == Atoi(raw).value
    ensures r.Failure? && Atoi(raw).None? ==> r.error == Validation(FieldProblem("maxParticipantCount", "must be an integer"))
    ensures r.Failure? && Atoi(raw).Some? ==> r.error == Validation(FieldProblem("maxParticipantCount", "must be between -1 and 500"))
  {
    if raw == "" then Success(-1)
    else match Atoi(raw)
      case None => Failure(Validation(FieldProblem("maxParticipantCount", "must be an integer")))
      case Some(limit) =>
        if limit < -1 || limit > MaxParticipantCount then
          Failure(Validation(FieldProblem("maxParticipantCount", "must be between -1 and 500")))
        else Success(limit)
  }

  /** Every limit in range, written in decimal, is accepted as itself. */
  lemma ParticipantLimitRoundTrip(n: int)
    requires -1 <= n <= MaxParticipantCount
    ensures ParseParticipantLimit(FormatInt(n)) == Success(n)
  {
    AtoiFormatInt(n);
  }

  /**
   * parseMessageCursor: 0 for an empty value, a decimal int64 as it stands,
   * else the `timeline_row_id` of the decoded cursor, which must be non-zero.
   * `decode` stands for cursor.Decode into a MessageCursor.
   */
  function ParseMessageCursor(raw: string, decode: string -> Result<int, string>): (r: Result<int, ApiError>)
    ensures raw == "" ==> r == Success(0)
    ensures raw != "" && Atoi(raw).Some? ==> r == Success(Atoi(raw).value)
    ensures raw != "" && Atoi(raw).None? ==> (r.Success? <==> decode(raw).Success? && decode(raw).value != 0)
    ensures raw != "" && Atoi(raw).None? && r.Success? ==> r.value == decode(raw).value
    ensures raw != "" && Atoi(raw).None? && decode(raw).Failure? ==> r == Failure(Validation(FieldProblem("cursor", decode(raw).error)))
  {
    if raw == "" then Success(0)
    else if Atoi(raw).Some? then Success(Atoi(raw).value)
    else match decode(raw)
      case Failure(message) => Failure(Validation(FieldProblem("cursor", message)))
      case Success(rowID) =>
        if rowID == 0 then Failure(Validation(FieldProblem("cursor", "timeline_row_id is required")))
        else Success(rowID)
  }

  /** An encoded cursor for a non-zero row reads back as that row. */
  lemma MessageCursorRoundTrip(rowID: int, encoded: string, decode: string -> Result<int, string>)
    requires rowID != 0
    requires decode(encoded) == Success(rowID)
    requires encoded != "" && Atoi(encoded).None?
    ensures ParseMessageCursor(encoded, decode) == Success(rowID)
  {
  }

  /** A row ID written in decimal is accepted without decoding. */
  lemma MessageCursorDecimal(rowID: int, decode: string -> Result<int, string>)
    requires MinInt64 <= rowID <= MaxInt64
    ensures ParseMessageCursor(FormatInt(rowID), decode) == Success(rowID)
  {
    AtoiFormatInt(rowID);
  }

  /**
   * parseChatCursor: no cursor for an empty value, a decimal int64 as a
   * cursor with that timestamp and no room, else the decoded cursor, whose
   * timestamp must be non-zero.
   */
  function ParseChatCursor(raw: string, decode: string -> Result<ChatCursor, string>): (r: Result<Option<ChatCursor>, ApiError>)
    ensures raw == "" <==> r == Success(None)
    ensures raw != "" && Atoi(raw).Some? ==> r == Success(Some(ChatCursor(Atoi(raw).value, "")))
    ensures raw != "" && Atoi(raw).None? ==> (r.Success? <==> decode(raw).Success? && decode(raw).value.ts != 0)
    ensures raw != "" && Atoi(raw).None? && r.Success? ==> r.value == Some(decode(raw).value)
    ensures raw != "" && Atoi(raw).None? && decode(raw).Failure? ==> r == Failure(Validation(FieldProblem("cursor", decode(raw).error)))
  {
    if raw == "" then Success(None)
    else if Atoi(raw).Some? then Success(Some(ChatCursor(Atoi(raw).value, "")))
    else match decode(raw)
      case Failure(message) => Failure(Validation(FieldProblem("cursor", message)))
      case Success(c) =>
        if c.ts == 0 then Failure(Validation(FieldProblem("cursor", "ts is required")))
        else Success(Some(c))
  }

  /** A cursor the server encoded for a room with a non-zero timestamp reads back unchanged. */
  lemma ChatCursorRoundTrip(c: ChatCursor, encoded: string, decode: string -> Result<ChatCursor, string>)
    requires c.ts != 0
    requires decode(encoded) == Success(c)
    requires encoded != "" && Atoi(encoded).None?
    ensures ParseChatCursor(encoded, decode) == Success(Some(c))
  {
  }

  /** A decimal timestamp becomes a cursor with no room ID. */
  lemma ChatCursorDecimal(ts: int, decode: string -> Result<ChatCursor, string>)
    requires MinInt64 <= ts <= MaxInt64
    ensures ParseChatCursor(FormatInt(ts), decode) == Success(Some(ChatCursor(ts, "")))
  {
    AtoiFormatInt(ts);
  }

  /* ---------- comma-separated lists ---------- */

  /** The trimmed, non-empty comma-separated parts of one value. */
  function ListParts(raw: string): (r: seq<string>)
  {
    NonEmptyTrimmed(Split(raw, ','))
  }

  function NonEmptyTrimmed(parts: seq<string>): (r: seq<string>)
    ensures forall i :: 0 <= i < |r| ==> r[i] != ""
  {
    if |parts| == 0 then []
    else
      var part := TrimSpace(parts[0]);
      (if part != "" then [part] else []) + NonEmptyTrimmed(parts[1..])
  }

  /** parseAccountIDs: the list parts of every `accountIDs` value, in order. */
  function ParseAccountIDs(values: seq<string>): (r: seq<string>)
  {
    if |values| == 0 then [] else ListParts(values[0]) + ParseAccountIDs(values[1..])
  }

  /** A part carries no comma, no surrounding space, and is not empty. */
  predicate CleanPart(p: string)
  {
    p != "" && ',' !in p && TrimSpace(p) == p
  }

  lemma {:induction false} NonEmptyTrimmedClean(parts: seq<string>)
    requires forall i :: 0 <= i < |parts| ==> ',' !in parts[i]
    ensures forall i :: 0 <= i < |NonEmptyTrimmed(parts)| ==> CleanPart(NonEmptyTrimmed(parts)[i])
  {
    if |parts| > 0 {
      NonEmptyTrimmedClean(parts[1..]);
      TrimSpaceFacts(parts[0]);
      TrimSpaceIdempotent(parts[0]);
      var l := TrimLeft(parts[0]);
      TrimLeftFacts(parts[0]);
      TrimRightFacts(l);
      assert forall c :: c in TrimSpace(parts[0]) ==> c in l;
    }
  }

  /** Every account ID the list yields is a clean part. */
  lemma {:induction false} AccountIDsClean(values: seq<string>)
    ensures forall i :: 0 <= i < |ParseAccountIDs(values)| ==> CleanPart(ParseAccountIDs(values)[i])
  {
    if |values| > 0 {
      NonEmptyTrimmedClean(Split(values[0], ','));
      AccountIDsClean(values[1..]);
    }
  }

  /** Splitting a comma-joined list of comma-free parts gives the parts back. */
  lemma {:induction false} SplitJoin(parts: seq<string>)
    requires |parts| > 0
    requires forall i :: 0 <= i < |parts| ==> ',' !in parts[i]
    ensures Split(Join(parts, ","), ',') == parts
  {
    var s := Join(parts, ",");
    if |parts| == 1 {
      BeforeCharWhole(parts[0]);
    } else {
      var rest := Join(parts[1..], ",");
      assert s == parts[0] + [','] + rest;
      BeforeCharAt(parts[0], rest);
      SplitJoin(parts[1..]);
      assert s[|parts[0]| + 1..] == rest;
    }
  }

  lemma {:induction false} BeforeCharWhole(p: string)
    requires ',' !in p
    ensures BeforeChar(p, ',') == p
    decreases |p|
  {
    if |p| > 0 {
      BeforeCharWhole(p[1..]);
    }
  }

  lemma {:induction false} BeforeCharAt(p: string, rest: string)
    requires ',' !in p
    ensures BeforeChar(p + [','] + rest, ',') == p
    decreases |p|
  {
    if |p| > 0 {
      BeforeCharAt(p[1..], rest);
      assert (p + [','] + rest)[1..] == p[1..] + [','] + rest;
    }
  }

  /** Clean parts all pass the trim-and-drop filter unchanged. */
  lemma {:induction false} NonEmptyTrimmedOfClean(parts: seq<string>)
    requires forall i :: 0 <= i < |parts| ==> CleanPart(parts[i])
    ensures NonEmptyTrimmed(parts) == parts
  {
    if |parts| > 0 {
      NonEmptyTrimmedOfClean(parts[1..]);
      assert parts == [parts[0]] + parts[1..];
    }
  }

  /** A comma-joined list of account IDs, passed as one value, is read back exactly. */
  lemma AccountIDsRoundTrip(ids: seq<string>)
    requires |ids| > 0 && forall i :: 0 <= i < |ids| ==> CleanPart(ids[i])
    ensures ParseAccountIDs([Join(ids, ",")]) == ids
  {
    var joined := Join(ids, ",");
    ListPartsOfJoin(ids);
    assert [joined][1..] == [];
    assert ParseAccountIDs([joined]) == ListParts(joined) + [];
  }

  /** One comma-joined value of clean parts splits back into those parts. */
  lemma ListPartsOfJoin(ids: seq<string>)
    requires |ids| > 0 && forall i :: 0 <= i < |ids| ==> CleanPart(ids[i])
    ensures ListParts(Join(ids, ",")) == ids
  {
    SplitJoin(ids);
    NonEmptyTrimmedOfClean(ids);
  }

  /** equalsAny: membership. */
  function EqualsAny(value: string, candidates: seq<string>): (r: bool)
    ensures r <==> value in candidates
  {
    if |candidates| == 0 then false
    else value == candidates[0] || EqualsAny(value, candidates[1..])
  }

  /** readChatID: the path value, else the body value, else the query value, else "". */
  function ReadChatID(pathValue: string, bodyChatID: string, queryValue: string): (r: string)
    ensures r == "" <==> pathValue == "" && bodyChatID == "" && queryValue == ""
    ensures pathValue != "" ==> r == pathValue
    ensures pathValue == "" && bodyChatID != "" ==> r == bodyChatID
    ensures pathValue == "" && bodyChatID == "" ==> r == queryValue
  {
    if pathValue != "" then pathValue
    else if bodyChatID != "" then bodyChatID
    else if queryValue != "" then queryValue
    else ""
  }

  /** An error firstErr passes over: nil, or one that is http.ErrNotSupported. */
  predicate Ignorable(err: Option<GoError>)
  {
    err.None? || IsNotSupported(err.value)
  }

  /** firstErr: the first error that is neither nil nor ErrNotSupported. */
  function FirstErr(errs: seq<Option<GoError>>): (r: Option<GoError>)
    ensures r.None? <==> forall i :: 0 <= i < |errs| ==> Ignorable(errs[i])
    ensures r.Some? ==> exists i :: 0 <= i < |errs| && errs[i] == r && !Ignorable(errs[i]) && forall j :: 0 <= j < i ==> Ignorable(errs[j])
  {
    if |errs| == 0 then None
    else if !Ignorable(errs[0]) then errs[0]
    else
      var r := FirstErr(errs[1..]);
      assert r.Some? ==> exists i :: 1 <= i < |errs| && errs[i] == r && !Ignorable(errs[i]) && forall j :: 0 <= j < i ==> Ignorable(errs[j]);
      r
  }

  /** The homeservers whose sessions the Beeper endpoints accept. */
  predicate BeeperHomeserver(hostname: string)
  {
    hostname in {"matrix.beeper.com", "matrix.beeper-staging.com", "matrix.beeper-dev.com"}
  }

  /**
   * requireBeeperHomeserver: `hostname` is the host of the logged-in
   * session's homeserver URL, None when there is no session.
   */
  function RequireBeeperHomeserver(hostname: Option<string>): (r: Option<ApiError>)
    ensures r.None? <==> hostname.Some? && BeeperHomeserver(ToLower(TrimSpace(hostname.value)))
    ensures hostname.None? ==> r == Some(Forbidden("A logged-in Beeper Matrix session is required"))
    ensures hostname.Some? && r.Some? ==> r == Some(Forbidden("Only Beeper homeserver sessions are supported"))
  {
    if hostname.None? then Some(Forbidden("A logged-in Beeper Matrix session is required"))
    else if BeeperHomeserver(ToLower(TrimSpace(hostname.value))) then None
    else Some(Forbidden("Only Beeper homeserver sessions are supported"))
  }

  /** The check ignores case and surrounding white space of the host name. */
  lemma HomeserverCheckIgnoresCase(spaced: string, other: string, bare: string)
    requires spaced == " Matrix.Beeper.COM " && other == "matrix.example.org" && bare == "beeper.com"
    ensures RequireBeeperHomeserver(Some(spaced)).None?
    ensures RequireBeeperHomeserver(Some(other)).Some?
    ensures RequireBeeperHomeserver(Some(bare)).Some?
  {
    SpacedHostAccepted(spaced);
    OtherHostRefused(other);
    OtherHostRefused(bare);
  }

  /** A Beeper homeserver typed with capitals and padded with spaces passes. */
  lemma SpacedHostAccepted(spaced: string)
    requires spaced == " Matrix.Beeper.COM "
    ensures BeeperHomeserver(ToLower(TrimSpace(spaced)))
  {
    var t := "Matrix.Beeper.COM";
    assert spaced == " " + t + " ";
    TrimSpaceOfPadded(t);
    LowerOfCapitalised(t);
  }

  lemma LowerOfCapitalised(t: string)
    requires t == "Matrix.Beeper.COM"
    ensures ToLower(t) == "matrix.beeper.com"
  {
  }

  /** A host that is not a Beeper homeserver in any spelling is refused. */
  lemma OtherHostRefused(host: string)
    requires host == "matrix.example.org" || host == "beeper.com"
    ensures !BeeperHomeserver(ToLower(TrimSpace(host)))
  {
    TrimSpaceUntouched(host);
    if host == "beeper.com" {
      assert |ToLower(host)| == 10;
    } else {
      assert ToLower(host)[7] == 'e';
    }
  }


}
