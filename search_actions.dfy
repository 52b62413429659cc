/**
 * Chat and message search of internal/server/search_actions.go: the query
 * parameter parsers with their defaults and ranges, the predicates a chat
 * or message must pass, and the two searches, which collect one result past
 * the limit to tell whether more follow.
 */
module SearchActions {
  import opened Wrappers
  import opened Text
  import opened Clock
  import opened ApiErrors
  import opened ServerParams
  import opened AccountsChats
  import opened Messages

  const SearchChatsDefaultLimit: int := 50
  const SearchChatsMaxLimit: int := 200
  const SearchMessagesDefaultLimit: int := 20
  const SearchMessagesMaxLimit: int := 200
  /** The most timeline rows one message search reads. */
  const MaxFetchLimit: int := 1000

  /* ---------- single parameters ---------- */

  /** parseOptionalLimit: the default when blank, else an integer in [minValue, maxValue]. */
  function ParseOptionalLimit(raw: string, defaultValue: int, minValue: int, maxValue: int, field: string): (r: Result<int, ApiError>)
    ensures IsBlank(raw) ==> r == Success(defaultValue)
    ensures !IsBlank(raw) ==>
      (r.Success? <==> Atoi(TrimSpace(raw)).Some? && minValue <= Atoi(TrimSpace(raw)).value <= maxValue)
    ensures !IsBlank(raw) && r.Success? ==> r.value == Atoi(TrimSpace(raw)).value
    ensures !IsBlank(raw) && Atoi(TrimSpace(raw)).None? ==> r == Failure(Validation(FieldProblem(field, "must be an integer")))
    ensures r.Failure? ==> r.error.status == StatusBadRequest
  {
    var value := TrimSpace(raw);
    if value == "" then Success(defaultValue)
    else match Atoi(value)
      case None => Failure(Validation(FieldProblem(field, "must be an integer")))
      case Some(parsed) =>
        if parsed < minValue || parsed > maxValue then
          Failure(Validation(FieldProblem(field, "must be between " + FormatInt(minValue) + " and " + FormatInt(maxValue))))
        else Success(parsed)
  }

  /** Every limit in range, written in decimal, is read back as itself. */
  lemma OptionalLimitRoundTrip(n: int, defaultValue: int, minValue: int, maxValue: int, field: string)
    requires minValue <= n <= maxValue && MinInt64 <= n <= MaxInt64
    ensures ParseOptionalLimit(FormatInt(n), defaultValue, minValue, maxValue, field) == Success(n)
  {
    FormatIntTrimmed(n);
    AtoiFormatInt(n);
  }

  /** parseOptionalBool: the default when blank, else strconv.ParseBool of the trimmed text. */
  function ParseOptionalBool(raw: string, defaultValue: bool, field: string): (r: Result<bool, ApiError>)
    ensures IsBlank(raw) ==> r == Success(defaultValue)
    ensures !IsBlank(raw) ==> (r.Success? <==> ParseBool(TrimSpace(raw)).Some?)
    ensures !IsBlank(raw) && r.Success? ==> r.value == ParseBool(TrimSpace(raw)).value
    ensures r.Failure? ==> r.error == Validation(FieldProblem(field, "must be true or false"))
  {
    var value := TrimSpace(raw);
    if value == "" then Success(defaultValue)
    else match ParseBool(value)
      case None => Failure(Validation(FieldProblem(field, "must be true or false")))
      case Some(b) => Success(b)
  }

  /** A flag written by strconv.FormatBool is read back, whatever the default. */
  lemma OptionalBoolRoundTrip(b: bool, defaultValue: bool, field: string)
    ensures ParseOptionalBool(FormatBool(b), defaultValue, field) == Success(b)
  {
    var s := FormatBool(b);
    assert !IsSpace(s[0]) && !IsSpace(s[|s| - 1]);
    assert TrimLeft(s) == s;
  }

  /**
   * parseOptionalRFC3339: None when blank, else the instant in ms.
   * `parseTime` stands for time.Parse with the RFC 3339 layout.
   */
  function ParseOptionalTime(raw: string, field: string, parseTime: string -> Option<int>): (r: Result<Option<int>, ApiError>)
    ensures IsBlank(raw) ==> r == Success(None)
    ensures !IsBlank(raw) ==> (r.Success? <==> parseTime(TrimSpace(raw)).Some?)
    ensures !IsBlank(raw) && r.Success? ==> r.value == parseTime(TrimSpace(raw))
    ensures r.Failure? ==> r.error == Validation(FieldProblem(field, "must be an RFC3339 datetime"))
  {
    var value := TrimSpace(raw);
    if value == "" then Success(None)
    else match parseTime(value)
      case None => Failure(Validation(FieldProblem(field, "must be an RFC3339 datetime")))
      case Some(t) => Success(Some(t))
  }

  /**
   * parseEnumList over the values of one parameter: the comma-separated
   * list parts (parseStringListParam, the same reading as parseAccountIDs),
   * rejected when any is outside `allowed`; an empty list is accepted.
   */
  function ParseEnumList(values: seq<string>, key: string, allowed: set<string>): (r: Result<seq<string>, ApiError>)
    ensures r.Success? <==> forall v :: v in ParseAccountIDs(values) ==> v in allowed
    ensures r.Success? ==> r.value == ParseAccountIDs(values)
    ensures r.Failure? ==> r.error == Validation(FieldProblem(key, "contains unsupported value"))
  {
    var parts := ParseAccountIDs(values);
    if |parts| == 0 then Success([])
    else if forall v :: v in parts ==> v in allowed then Success(parts)
    else Failure(Validation(FieldProblem(key, "contains unsupported value")))
  }

  /** A comma-joined list of allowed values, passed as one value, is read back exactly. */
  lemma EnumListRoundTrip(items: seq<string>, key: string, allowed: set<string>)
    requires |items| > 0 && forall i :: 0 <= i < |items| ==> CleanPart(items[i]) && items[i] in allowed
    ensures ParseEnumList([Join(items, ",")], key, allowed) == Success(items)
  {
    AccountIDsRoundTrip(items);
  }

  /* ---------- request parameters ---------- */

  /** URL query values: the first value of a key, "" when it has none. */
  function Get(query: map<string, seq<string>>, key: string): string
  {
    if key in query && |query[key]| > 0 then query[key][0] else ""
  }

  /** Every value of a key. */
  function Values(query: map<string, seq<string>>, key: string): seq<string>
  {
    if key in query then query[key] else []
  }

  /** The external decoders the parsers use: the cursor codec and the RFC 3339 parser. */
  datatype Decoders = Decoders(
    chatCursor: string -> Result<ChatCursor, string>,
    messageCursor: string -> Result<int, string>,
    parseTime: string -> Option<int>)

  datatype ChatSearch = ChatSearch(
    query: string,
    scope: string,
    inbox: string,
    chatType: string,
    direction: string,
    cursor: Option<ChatCursor>,
    limit: int,
    unreadOnly: bool,
    includeMuted: bool,
    lastActivityBefore: Option<int>,
    lastActivityAfter: Option<int>,
    accountIDs: seq<string>)

  /** `scope`: blank means titles; titles and participants are accepted. */
  function ParseScope(raw: string): (r: Result<string, ApiError>)
    ensures r.Success? ==> r.value in {"titles", "participants"}
    ensures IsBlank(raw) ==> r == Success("titles")
    ensures r.Success? <==> IsBlank(raw) || TrimSpace(raw) == "titles" || TrimSpace(raw) == "participants"
    ensures !IsBlank(raw) && r.Success? ==> r.value == TrimSpace(raw)
    ensures r.Failure? ==> r.error == Validation(FieldProblem("scope", "must be one of: titles, participants"))
  {
    var scope := if TrimSpace(raw) == "" then "titles" else TrimSpace(raw);
    if scope != "titles" && scope != "participants" then
      Failure(Validation(FieldProblem("scope", "must be one of: titles, participants")))
    else Success(scope)
  }

  /** `inbox`: blank (every inbox), primary, low-priority or archive. */
  function ParseInbox(raw: string): (r: Result<string, ApiError>)
    ensures r.Success? ==> r.value in {"", "primary", "low-priority", "archive"}
    ensures r.Success? <==> TrimSpace(raw) in {"", "primary", "low-priority", "archive"}
  {
    var inbox := TrimSpace(raw);
    if inbox != "" && inbox != "primary" && inbox != "low-priority" && inbox != "archive" then
      Failure(Validation(FieldProblem("inbox", "must be one of: primary, low-priority, archive")))
    else Success(inbox)
  }

  /** `type`: blank means any; any, single and group are accepted. */
  function ParseChatType(raw: string): (r: Result<string, ApiError>)
    ensures r.Success? ==> r.value in {"any", "single", "group"}
    ensures IsBlank(raw) ==> r == Success("any")
    ensures r.Success? <==> IsBlank(raw) || TrimSpace(raw) == "any" || TrimSpace(raw) == "single" || TrimSpace(raw) == "group"
    ensures !IsBlank(raw) && r.Success? ==> r.value == TrimSpace(raw)
    ensures r.Failure? ==> r.error == Validation(FieldProblem("type", "must be one of: any, single, group"))
  {
    var chatType := if TrimSpace(raw) == "" then "any" else TrimSpace(raw);
    if chatType != "any" && chatType != "single" && chatType != "group" then
      Failure(Validation(FieldProblem("type", "must be one of: any, single, group")))
    else Success(chatType)
  }

  /** What each parameter of a chat search parses to on its own. */
  datatype ChatSearchParts = ChatSearchParts(
    direction: Result<string, ApiError>,
    cursor: Result<Option<ChatCursor>, ApiError>,
    limit: Result<int, ApiError>,
    unreadOnly: Result<bool, ApiError>,
    includeMuted: Result<bool, ApiError>,
    scope: Result<string, ApiError>,
    inbox: Result<string, ApiError>,
    chatType: Result<string, ApiError>,
    before: Result<Option<int>, ApiError>,
    after: Result<Option<int>, ApiError>)
  {
    /** Every parameter parses. */
    predicate AllParse()
    {
      direction.Success? && cursor.Success? && limit.Success? && unreadOnly.Success? && includeMuted.Success?
      && scope.Success? && inbox.Success? && chatType.Success? && before.Success? && after.Success?
    }
  }

  /** The parsers parseSearchChatsParams applies, one per query parameter. */
  function ChatSearchPartsOf(query: map<string, seq<string>>, d: Decoders): ChatSearchParts
  {
    ChatSearchParts(
      ParseDirection(Get(query, "direction")),
      ParseChatCursor(Get(query, "cursor"), d.chatCursor),
      ParseOptionalLimit(Get(query, "limit"), SearchChatsDefaultLimit, 1, SearchChatsMaxLimit, "limit"),
      ParseOptionalBool(Get(query, "unreadOnly"), false, "unreadOnly"),
      ParseOptionalBool(Get(query, "includeMuted"), true, "includeMuted"),
      ParseScope(Get(query, "scope")),
      ParseInbox(Get(query, "inbox")),
      ParseChatType(Get(query, "type")),
      ParseOptionalTime(Get(query, "lastActivityBefore"), "lastActivityBefore", d.parseTime),
      ParseOptionalTime(Get(query, "lastActivityAfter"), "lastActivityAfter", d.parseTime))
  }

  /**
   * The handler's early returns over the parsed parameters: the first failure
   * in order is the error; otherwise every parsed value goes into the search.
   */
  function CombineChatSearch(query: string, p: ChatSearchParts, accountIDs: seq<string>): (r: Result<ChatSearch, ApiError>)
    ensures r.Success? <==> p.AllParse()
    ensures r.Success? ==>
      r.value.direction == p.direction.value && r.value.cursor == p.cursor.value && r.value.limit == p.limit.value
      && r.value.unreadOnly == p.unreadOnly.value && r.value.includeMuted == p.includeMuted.value
      && r.value.scope == p.scope.value && r.value.inbox == p.inbox.value && r.value.chatType == p.chatType.value
      && r.value.lastActivityBefore == p.before.value && r.value.lastActivityAfter == p.after.value
      && r.value.query == query && r.value.accountIDs == accountIDs
  {
    if p.direction.Failure? then Failure(p.direction.error)
    else if p.cursor.Failure? then Failure(p.cursor.error)
    else if p.limit.Failure? then Failure(p.limit.error)
    else if p.unreadOnly.Failure? then Failure(p.unreadOnly.error)
    else if p.includeMuted.Failure? then Failure(p.includeMuted.error)
    else if p.scope.Failure? then Failure(p.scope.error)
    else if p.inbox.Failure? then Failure(p.inbox.error)
    else if p.chatType.Failure? then Failure(p.chatType.error)
    else if p.before.Failure? then Failure(p.before.error)
    else if p.after.Failure? then Failure(p.after.error)
    else Success(ChatSearch(query, p.scope.value, p.inbox.value, p.chatType.value, p.direction.value,
      p.cursor.value, p.limit.value, p.unreadOnly.value, p.includeMuted.value, p.before.value, p.after.value, accountIDs))
  }

  /** parseSearchChatsParams: the parameters in order, stopping at the first invalid one. */
  function ParseSearchChatsParams(query: map<string, seq<string>>, d: Decoders): (r: Result<ChatSearch, ApiError>)
    ensures ParseDirection(Get(query, "direction")).Failure? ==> r == Failure(ParseDirection(Get(query, "direction")).error)
    ensures r.Success? ==>
      var p := r.value;
      p.direction in {"before", "after"} && p.scope in {"titles", "participants"}
      && p.inbox in {"", "primary", "low-priority", "archive"} && p.chatType in {"any", "single", "group"}
      && 1 <= p.limit <= SearchChatsMaxLimit
      && p.query == TrimSpace(Get(query, "query")) && p.accountIDs == ParseAccountIDs(Values(query, "accountIDs"))
    ensures r.Success? && IsBlank(Get(query, "limit")) ==> r.value.limit == SearchChatsDefaultLimit
    ensures r.Success? && IsBlank(Get(query, "includeMuted")) ==> r.value.includeMuted
    ensures r.Success? && IsBlank(Get(query, "unreadOnly")) ==> !r.value.unreadOnly
  {
    CombineChatSearch(TrimSpace(Get(query, "query")), ChatSearchPartsOf(query, d), ParseAccountIDs(Values(query, "accountIDs")))
  }

  /**
   * Each parameter's parser, in the handler's order, decides the error when
   * every earlier one succeeded: the first invalid parameter is reported.
   */
  lemma SearchChatsFirstError(query: map<string, seq<string>>, d: Decoders)
    ensures var p := ChatSearchPartsOf(query, d);
      var r := ParseSearchChatsParams(query, d);
      var throughDirection := p.direction.Success?;
      var throughCursor := throughDirection && p.cursor.Success?;
      var throughLimit := throughCursor && p.limit.Success?;
      var throughUnreadOnly := throughLimit && p.unreadOnly.Success?;
      var throughIncludeMuted := throughUnreadOnly && p.includeMuted.Success?;
      var throughScope := throughIncludeMuted && p.scope.Success?;
      var throughInbox := throughScope && p.inbox.Success?;
      var throughChatType := throughInbox && p.chatType.Success?;
      var throughBefore := throughChatType && p.before.Success?;
      (p.direction.Failure? ==> r == Failure(p.direction.error))
      && ((throughDirection && p.cursor.Failure?) ==> r == Failure(p.cursor.error))
      && ((throughCursor && p.limit.Failure?) ==> r == Failure(p.limit.error))
      && ((throughLimit && p.unreadOnly.Failure?) ==> r == Failure(p.unreadOnly.error))
      && ((throughUnreadOnly && p.includeMuted.Failure?) ==> r == Failure(p.includeMuted.error))
      && ((throughIncludeMuted && p.scope.Failure?) ==> r == Failure(p.scope.error))
      && ((throughScope && p.inbox.Failure?) ==> r == Failure(p.inbox.error))
      && ((throughInbox && p.chatType.Failure?) ==> r == Failure(p.chatType.error))
      && ((throughChatType && p.before.Failure?) ==> r == Failure(p.before.error))
      && ((throughBefore && p.after.Failure?) ==> r == Failure(p.after.error))
  {
  }

  /**
   * A chat search is accepted exactly when every parameter parses, and then
   * each field is what its own parser gives.
   */
  lemma SearchChatsAccepted(query: map<string, seq<string>>, d: Decoders)
    ensures var p := ChatSearchPartsOf(query, d);
      var r := ParseSearchChatsParams(query, d);
      (r.Success? <==> p.AllParse())
      && (r.Success? ==>
            r.value.direction == p.direction.value && r.value.cursor == p.cursor.value && r.value.limit == p.limit.value
            && r.value.unreadOnly == p.unreadOnly.value && r.value.includeMuted == p.includeMuted.value
            && r.value.scope == p.scope.value && r.value.inbox == p.inbox.value && r.value.chatType == p.chatType.value
            && r.value.lastActivityBefore == p.before.value && r.value.lastActivityAfter == p.after.value)
  {
  }

  const MediaTypeNames: set<string> := {"any", "video", "image", "link", "file"}

  datatype MessageSearch = MessageSearch(
    query: string,
    direction: string,
    cursor: int,
    limit: int,
    chatIDs: seq<string>,
    accountIDs: seq<string>,
    chatType: string,
    sender: string,
    mediaTypes: seq<string>,
    dateAfter: Option<int>,
    dateBefore: Option<int>,
    excludeLowPriority: bool,
    includeMuted: bool)

  /** `chatType` of a message search: blank (any), single or group. */
  function ParseMessageChatType(raw: string): (r: Result<string, ApiError>)
    ensures r.Success? <==> TrimSpace(raw) in {"", "single", "group"}
    ensures r.Success? ==> r.value == TrimSpace(raw) && (r.value == "" || r.value == "single" || r.value == "group")
  {
    var chatType := TrimSpace(raw);
    if chatType != "" && chatType != "single" && chatType != "group" then
      Failure(Validation(FieldProblem("chatType", "must be one of: single, group")))
    else Success(chatType)
  }

  /** The date window must be open: when both ends are given, after < before. */
  function CheckDateWindow(after: Option<int>, before: Option<int>): (r: Option<ApiError>)
    ensures r.None? <==> after.None? || before.None? || after.value < before.value
  {
    if after.Some? && before.Some? && !(after.value < before.value) then
      Some(Validation(FieldProblem("dateAfter", "must be earlier than dateBefore")))
    else None
  }

  /** What each parameter of a message search parses to on its own. */
  datatype MessageSearchParts = MessageSearchParts(
    direction: Result<string, ApiError>,
    cursor: Result<int, ApiError>,
    limit: Result<int, ApiError>,
    includeMuted: Result<bool, ApiError>,
    excludeLowPriority: Result<bool, ApiError>,
    chatType: Result<string, ApiError>,
    after: Result<Option<int>, ApiError>,
    before: Result<Option<int>, ApiError>,
    mediaTypes: Result<seq<string>, ApiError>)
  {
    /** Every parameter parses and the date window is open. */
    predicate AllParse()
    {
      direction.Success? && cursor.Success? && limit.Success? && includeMuted.Success? && excludeLowPriority.Success?
      && chatType.Success? && after.Success? && before.Success? && CheckDateWindow(after.value, before.value).None?
      && mediaTypes.Success?
    }
  }

  /** The parsers parseSearchMessagesParams applies, one per query parameter. */
  function MessageSearchPartsOf(query: map<string, seq<string>>, d: Decoders): MessageSearchParts
  {
    MessageSearchParts(
      ParseDirection(Get(query, "direction")),
      ParseMessageCursor(Get(query, "cursor"), d.messageCursor),
      ParseOptionalLimit(Get(query, "limit"), SearchMessagesDefaultLimit, 1, SearchMessagesMaxLimit, "limit"),
      ParseOptionalBool(Get(query, "includeMuted"), true, "includeMuted"),
      ParseOptionalBool(Get(query, "excludeLowPriority"), true, "excludeLowPriority"),
      ParseMessageChatType(Get(query, "chatType")),
      ParseOptionalTime(Get(query, "dateAfter"), "dateAfter", d.parseTime),
      ParseOptionalTime(Get(query, "dateBefore"), "dateBefore", d.parseTime),
      ParseEnumList(Values(query, "mediaTypes"), "mediaTypes", MediaTypeNames))
  }

  /**
   * The handler's early returns over the parsed parameters, with the date
   * window checked once both dates parse and before the media types.
   */
  function CombineMessageSearch(query: string, sender: string, chatIDs: seq<string>, accountIDs: seq<string>,
                                p: MessageSearchParts): (r: Result<MessageSearch, ApiError>)
    ensures r.Success? <==> p.AllParse()
    ensures r.Success? ==>
      r.value.direction == p.direction.value && r.value.cursor == p.cursor.value && r.value.limit == p.limit.value
      && r.value.includeMuted == p.includeMuted.value && r.value.excludeLowPriority == p.excludeLowPriority.value
      && r.value.chatType == p.chatType.value && r.value.dateAfter == p.after.value && r.value.dateBefore == p.before.value
      && r.value.mediaTypes == p.mediaTypes.value
      && r.value.query == query && r.value.sender == sender && r.value.chatIDs == chatIDs && r.value.accountIDs == accountIDs
  {
    if p.direction.Failure? then Failure(p.direction.error)
    else if p.cursor.Failure? then Failure(p.cursor.error)
    else if p.limit.Failure? then Failure(p.limit.error)
    else if p.includeMuted.Failure? then Failure(p.includeMuted.error)
    else if p.excludeLowPriority.Failure? then Failure(p.excludeLowPriority.error)
    else if p.chatType.Failure? then Failure(p.chatType.error)
    else if p.after.Failure? then Failure(p.after.error)
    else if p.before.Failure? then Failure(p.before.error)
    else if CheckDateWindow(p.after.value, p.before.value).Some? then Failure(CheckDateWindow(p.after.value, p.before.value).value)
    else if p.mediaTypes.Failure? then Failure(p.mediaTypes.error)
    else Success(MessageSearch(query, p.direction.value, p.cursor.value, p.limit.value, chatIDs, accountIDs,
      p.chatType.value, sender, p.mediaTypes.value, p.after.value, p.before.value,
      p.excludeLowPriority.value, p.includeMuted.value))
  }

  /** parseSearchMessagesParams: the parameters in order, stopping at the first invalid one. */
  function ParseSearchMessagesParams(query: map<string, seq<string>>, d: Decoders): (r: Result<MessageSearch, ApiError>)
    ensures ParseDirection(Get(query, "direction")).Failure? ==> r == Failure(ParseDirection(Get(query, "direction")).error)
    ensures r.Success? ==>
      var p := r.value;
      (p.direction == "before" || p.direction == "after")
      && (p.chatType == "" || p.chatType == "single" || p.chatType == "group")
      && 1 <= p.limit <= SearchMessagesMaxLimit
      && (p.dateAfter.Some? && p.dateBefore.Some? ==> p.dateAfter.value < p.dateBefore.value)
      && (forall m :: m in p.mediaTypes ==> m in MediaTypeNames)
      && p.chatIDs == ParseAccountIDs(Values(query, "chatIDs")) && p.sender == TrimSpace(Get(query, "sender"))
    ensures r.Success? && IsBlank(Get(query, "limit")) ==> r.value.limit == SearchMessagesDefaultLimit
    ensures r.Success? && IsBlank(Get(query, "excludeLowPriority")) ==> r.value.excludeLowPriority
  {
    CombineMessageSearch(TrimSpace(Get(query, "query")), TrimSpace(Get(query, "sender")),
      ParseAccountIDs(Values(query, "chatIDs")), ParseAccountIDs(Values(query, "accountIDs")),
      MessageSearchPartsOf(query, d))
  }

  /**
   * Each parameter's parser, in the handler's order, decides the error when
   * every earlier one succeeded; an empty date window is reported after both
   * dates parse and before the media types are read.
   */
  lemma SearchMessagesFirstError(query: map<string, seq<string>>, d: Decoders)
    ensures var p := MessageSearchPartsOf(query, d);
      var r := ParseSearchMessagesParams(query, d);
      var throughDirection := p.direction.Success?;
      var throughCursor := throughDirection && p.cursor.Success?;
      var throughLimit := throughCursor && p.limit.Success?;
      var throughIncludeMuted := throughLimit && p.includeMuted.Success?;
      var throughExcludeLowPriority := throughIncludeMuted && p.excludeLowPriority.Success?;
      var throughChatType := throughExcludeLowPriority && p.chatType.Success?;
      var throughAfter := throughChatType && p.after.Success?;
      var throughBefore := throughAfter && p.before.Success?;
      var throughWindow := throughBefore && CheckDateWindow(p.after.value, p.before.value).None?;
      (p.direction.Failure? ==> r == Failure(p.direction.error))
      && ((throughDirection && p.cursor.Failure?) ==> r == Failure(p.cursor.error))
      && ((throughCursor && p.limit.Failure?) ==> r == Failure(p.limit.error))
      && ((throughLimit && p.includeMuted.Failure?) ==> r == Failure(p.includeMuted.error))
      && ((throughIncludeMuted && p.excludeLowPriority.Failure?) ==> r == Failure(p.excludeLowPriority.error))
      && ((throughExcludeLowPriority && p.chatType.Failure?) ==> r == Failure(p.chatType.error))
      && ((throughChatType && p.after.Failure?) ==> r == Failure(p.after.error))
      && ((throughAfter && p.before.Failure?) ==> r == Failure(p.before.error))
      && ((throughBefore && CheckDateWindow(p.after.value, p.before.value).Some?) ==>
            r == Failure(CheckDateWindow(p.after.value, p.before.value).value))
      && ((throughWindow && p.mediaTypes.Failure?) ==> r == Failure(p.mediaTypes.error))
  {
  }

  /**
   * A message search is accepted exactly when every parameter parses and the
   * date window is open, and then each field is what its own parser gives.
   */
  lemma SearchMessagesAccepted(query: map<string, seq<string>>, d: Decoders)
    ensures var p := MessageSearchPartsOf(query, d);
      var r := ParseSearchMessagesParams(query, d);
      (r.Success? <==> p.AllParse())
      && (r.Success? ==>
            r.value.direction == p.direction.value && r.value.cursor == p.cursor.value && r.value.limit == p.limit.value
            && r.value.includeMuted == p.includeMuted.value && r.value.excludeLowPriority == p.excludeLowPriority.value
            && r.value.chatType == p.chatType.value && r.value.dateAfter == p.after.value
            && r.value.dateBefore == p.before.value && r.value.mediaTypes == p.mediaTypes.value)
  {
  }

  /* ---------- text matching ---------- */

  /** The search tokens of a query: its lower-cased white-space separated words. */
  function Tokens(query: string): (r: seq<string>)
    ensures forall t :: t in r ==> t != "" && NoSpace(t)
  {
    Fields(ToLower(TrimSpace(query)))
  }

  /** matchesAllTokens: a blank query matches; otherwise every token occurs in the lower-cased text. */
  predicate MatchesAllTokens(query: string, text: string)
  {
    IsBlank(query) || forall t :: t in Tokens(query) ==> Contains(ToLower(text), t)
  }

  lemma ToLowerAppend(a: string, b: string)
    ensures ToLower(a + b) == ToLower(a) + ToLower(b)
  {
  }

  /** A word without upper-case ASCII letters. */
  predicate LowerWord(w: string)
  {
    w != "" && NoSpace(w) && forall i :: 0 <= i < |w| ==> LowerChar(w[i]) == w[i]
  }

  /** Words joined by single spaces: the join starts with the first word and ends with the last. */
  lemma {:induction false} JoinEnds(ws: seq<string>)
    requires |ws| > 0
    ensures var j := Join(ws, " "); HasPrefix(j, ws[0]) && HasSuffix(j, ws[|ws| - 1])
  {
    if |ws| > 1 {
      JoinEnds(ws[1..]);
      var rest := Join(ws[1..], " ");
      assert Join(ws, " ") == ws[0] + " " + rest;
      assert (ws[0] + " " + rest)[|ws[0] + " " + rest| - |rest|..] == rest;
    }
  }

  /** Lower-case words joined by spaces are already lower-case. */
  lemma {:induction false} JoinLower(ws: seq<string>)
    requires forall i :: 0 <= i < |ws| ==> LowerWord(ws[i])
    ensures ToLower(Join(ws, " ")) == Join(ws, " ")
  {
    if |ws| == 1 {
      assert ToLower(ws[0]) == ws[0];
    } else if |ws| > 1 {
      JoinLower(ws[1..]);
      ToLowerAppend(ws[0] + " ", Join(ws[1..], " "));
      ToLowerAppend(ws[0], " ");
      assert ToLower(ws[0]) == ws[0];
    }
  }

  /**
   * A query made of lower-case words matches a text exactly when each word
   * occurs in the lower-cased text.
   */
  lemma TokenQueryMatches(ws: seq<string>, text: string)
    requires forall i :: 0 <= i < |ws| ==> LowerWord(ws[i])
    ensures MatchesAllTokens(Join(ws, " "), text) <==> forall w :: w in ws ==> Contains(ToLower(text), w)
  {
    var q := Join(ws, " ");
    if |ws| > 0 {
      JoinEnds(ws);
      var last := ws[|ws| - 1];
      assert q[0] == ws[0][0];
      assert q[|q| - 1] == last[|last| - 1];
      assert TrimLeft(q) == q;
      assert TrimRight(q) == q;
      JoinLower(ws);
      FieldsOfJoin(ws);
      assert Tokens(q) == ws;
      assert !IsBlank(q);
    }
  }

  /** The participant words a chat is searched by: full name, user name (never set) and ID. */
  function ParticipantParts(users: seq<User>): (r: seq<string>)
    ensures |r| == 3 * |users|
  {
    if |users| == 0 then [] else [users[0].fullName, "", users[0].id] + ParticipantParts(users[1..])
  }

  /** The text a chat query is matched against, before lower-casing. */
  function ChatSearchText(chat: Chat, scope: string): string
  {
    if scope == "participants" then Join(ParticipantParts(chat.participants), " ")
    else chat.title + " " + chat.network
  }

  /** matchesChatQuery. */
  predicate MatchesChatQuery(chat: Chat, query: string, scope: string)
  {
    var q := TrimSpace(query);
    q == "" || Tokens(q) == []
    || forall t :: t in Tokens(q) ==> Contains(ToLower(ChatSearchText(chat, scope)), t)
  }

  /** Chat search is token matching over the title and network, or over the participants. */
  lemma ChatQueryIsTokenMatch(chat: Chat, query: string, scope: string)
    ensures MatchesChatQuery(chat, query, scope) <==> MatchesAllTokens(query, ChatSearchText(chat, scope))
  {
    TrimSpaceIdempotent(query);
  }

  /** A title word found in the title finds the chat in the titles scope. */
  lemma TitleWordFindsChat(chat: Chat, w: string)
    requires LowerWord(w) && Contains(ToLower(chat.title), w)
    ensures MatchesChatQuery(chat, w, "titles")
  {
    TokenQueryMatches([w], chat.title + " " + chat.network);
    ToLowerAppend(chat.title, " " + chat.network);
    var j :| 0 <= j <= |ToLower(chat.title)| - |w| && OccursAt(ToLower(chat.title), w, j);
    assert OccursAt(ToLower(chat.title + " " + chat.network), w, j);
    ChatQueryIsTokenMatch(chat, w, "titles");
  }

  /* ---------- message filters ---------- */

  /** matchesSender: blank matches all, "me" the caller's, "others" the rest, else the exact sender ID. */
  predicate MatchesSender(msg: Message, sender: string)
  {
    var s := TrimSpace(sender);
    if s == "" then true
    else if s == "me" then msg.isSender
    else if s == "others" then !msg.isSender
    else msg.senderID == s
  }

  /** "me" and "others" split the messages: each message passes exactly one of them. */
  lemma SenderFiltersPartition(msg: Message)
    ensures MatchesSender(msg, "me") != MatchesSender(msg, "others")
    ensures MatchesSender(msg, "")
    ensures MatchesSender(msg, msg.senderID) || TrimSpace(msg.senderID) != msg.senderID || msg.senderID in {"", "me", "others"}
  {
    assert TrimLeft("me") == "me" && TrimRight("me") == "me";
    assert TrimLeft("others") == "others" && TrimRight("others") == "others";
  }

  /** The text of a message holds an http or https link. */
  predicate HasLink(msg: Message)
  {
    Contains(ToLower(msg.text), "http://") || Contains(ToLower(msg.text), "https://")
  }

  /** The message is of the listed media kind. */
  predicate MediaMatches(msg: Message, mediaType: string)
  {
    if mediaType == "any" then |msg.attachments| > 0 || HasLink(msg)
    else if mediaType == "video" then msg.msgType == "VIDEO"
    else if mediaType == "image" then msg.msgType == "IMAGE" || msg.msgType == "STICKER"
    else if mediaType == "file" then msg.msgType == "FILE"
    else if mediaType == "link" then HasLink(msg)
    else false
  }

  /** matchesMedia: no kinds listed matches all; otherwise some listed kind must match. */
  predicate MatchesMedia(msg: Message, mediaTypes: seq<string>)
  {
    |mediaTypes| == 0 || exists m :: m in mediaTypes && MediaMatches(msg, m)
  }

  /** Listing more kinds widens the filter: a list matches when either part of it does. */
  lemma MediaListUnion(msg: Message, a: seq<string>, b: seq<string>)
    requires |a| > 0 && |b| > 0
    ensures MatchesMedia(msg, a + b) <==> MatchesMedia(msg, a) || MatchesMedia(msg, b)
  {
    if MatchesMedia(msg, a + b) {
      var m :| m in a + b && MediaMatches(msg, m);
      assert m in a || m in b;
    }
    if MatchesMedia(msg, a) {
      var m :| m in a && MediaMatches(msg, m);
      assert m in a + b;
    }
    if MatchesMedia(msg, b) {
      var m :| m in b && MediaMatches(msg, m);
      assert m in a + b;
    }
  }

  /** A link message is found by "any" as well as by "link". */
  lemma LinkIsAnyMedia(msg: Message)
    ensures MatchesMedia(msg, ["link"]) ==> MatchesMedia(msg, ["any"])
  {
    if MatchesMedia(msg, ["link"]) {
      assert MediaMatches(msg, ["link"][0]);
      assert MediaMatches(msg, ["any"][0]);
    }
  }

  /** matchesMessageDate: strictly inside the given bounds; the zero time fails any bound. */
  predicate MatchesMessageDate(timestampMs: int, dateAfter: Option<int>, dateBefore: Option<int>)
  {
    if dateAfter.None? && dateBefore.None? then true
    else if timestampMs == ZeroTimeMs then false
    else (dateAfter.None? || timestampMs > dateAfter.value) && (dateBefore.None? || timestampMs < dateBefore.value)
  }

  /** The bounds are strict, and a narrower window admits no more messages. */
  lemma DateWindowNarrowing(t: int, after: int, before: int, after': int, before': int)
    requires after <= after' && before' <= before
    ensures !MatchesMessageDate(after, Some(after), None) && !MatchesMessageDate(before, None, Some(before))
    ensures MatchesMessageDate(t, Some(after'), Some(before')) ==> MatchesMessageDate(t, Some(after), Some(before))
  {
  }

  /* ---------- chat search ---------- */

  /** Room account data the searches filter on; rooms without it count as all false. */
  datatype RoomState = RoomState(isMuted: bool, isArchived: bool, isLowPriority: bool)

  function StateOf(states: map<string, RoomState>, roomID: string): RoomState
  {
    if roomID in states then states[roomID] else RoomState(false, false, false)
  }

  /** The inbox a room state belongs to, as the `inbox` filter reads it. */
  predicate InInbox(inbox: string, s: RoomState)
  {
    if inbox == "primary" then !s.isArchived && !s.isLowPriority
    else if inbox == "low-priority" then s.isLowPriority
    else if inbox == "archive" then s.isArchived
    else true
  }

  /** The filters searchChatsCore applies to the room itself, before mapping it. */
  predicate RoomAdmitted(room: Room, p: ChatSearch, states: map<string, RoomState>)
  {
    var s := StateOf(states, room.id);
    AdmittedByCursor(room, p.direction, p.cursor) && (p.includeMuted || !s.isMuted) && InInbox(p.inbox, s)
  }

  /** The filters searchChatsCore applies to the mapped chat. */
  predicate ChatAdmitted(chat: Chat, p: ChatSearch)
  {
    var activity := chat.lastActivity.UnwrapOr(0);
    AdmittedByAccount(chat, p.accountIDs)
    && (p.chatType == "any" || p.chatType == "" || chat.chatType == p.chatType)
    && (!p.unreadOnly || chat.unreadCount > 0)
    && (p.lastActivityBefore.None? || activity < p.lastActivityBefore.value)
    && (p.lastActivityAfter.None? || activity > p.lastActivityAfter.value)
    && MatchesChatQuery(chat, p.query, p.scope)
  }

  function RoomFilter(p: ChatSearch, states: map<string, RoomState>): Room -> bool
  {
    room => RoomAdmitted(room, p, states)
  }

  function ChatFilter(p: ChatSearch): Chat -> bool
  {
    chat => ChatAdmitted(chat, p)
  }

  /** Every chat the search finds with no limit, in room order. */
  function Found(rooms: seq<Room>, p: ChatSearch, states: map<string, RoomState>, ctx: ChatContext): seq<Chat>
  {
    Select(rooms, RoomFilter(p, states), ListedChat(ctx), ChatFilter(p))
  }

  /**
   * Every chat found passes the chat filters and is the chat of a room the
   * room filters admit.
   */
  lemma FoundFacts(rooms: seq<Room>, p: ChatSearch, states: map<string, RoomState>, ctx: ChatContext)
    ensures var l := Found(rooms, p, states, ctx);
      |l| <= |rooms|
      && forall k :: 0 <= k < |l| ==>
        ChatAdmitted(l[k], p)
        && exists j :: 0 <= j < |rooms| && RoomAdmitted(rooms[j], p, states)
             && l[k] == ChatOf(rooms[j], ctx, ChatPreviewParticipants)
  {
    var admit := RoomFilter(p, states);
    var chatOf := ListedChat(ctx);
    var keep := ChatFilter(p);
    SelectFacts(rooms, admit, chatOf, keep);
    var l := Select(rooms, admit, chatOf, keep);
    forall k | 0 <= k < |l|
      ensures exists j :: (0 <= j < |rooms| && RoomAdmitted(rooms[j], p, states)
             && l[k] == ChatOf(rooms[j], ctx, ChatPreviewParticipants))
    {
      var j :| 0 <= j < |rooms| && admit(rooms[j]) && l[k] == chatOf(rooms[j]);
    }
  }

  /** The loop of searchChatsCore: collect found chats until one more than the limit is held. */
  method CollectFound(rooms: seq<Room>, p: ChatSearch, states: map<string, RoomState>, ctx: ChatContext)
    returns (items: seq<Chat>, i: nat)
    requires p.limit >= 0
    ensures i <= |rooms| && |items| <= p.limit + 1
    ensures items == Select(rooms[..i], RoomFilter(p, states), ListedChat(ctx), ChatFilter(p))
    ensures |items| <= p.limit ==> i == |rooms|
  {
    ghost var admit := RoomFilter(p, states);
    ghost var chatOf := ListedChat(ctx);
    ghost var keep := ChatFilter(p);
    items := [];
    i := 0;
    while i < |rooms|
      invariant 0 <= i <= |rooms|
      invariant items == Select(rooms[..i], admit, chatOf, keep)
      invariant |items| <= p.limit
    {
      assert rooms[..i + 1][..i] == rooms[..i];
      var room := rooms[i];
      assert rooms[..i + 1][i] == room;
      i := i + 1;
      if !RoomAdmitted(room, p, states) {
        continue;
      }
      var chat := MapRoomToChat(room, ctx, ChatPreviewParticipants);
      if !ChatAdmitted(chat, p) {
        continue;
      }
      items := items + [chat];
      if |items| > p.limit {
        return;
      }
    }
  }

  /**
   * searchChatsCore after its parameters are parsed: at most `limit` found
   * chats, `hasMore` exactly when more were found, and cursors at both ends.
   */
  method SearchChats(rooms: seq<Room>, p: ChatSearch, states: map<string, RoomState>, ctx: ChatContext)
    returns (page: ChatPage)
    requires p.limit >= 0
    ensures var l := Found(rooms, p, states, ctx);
      page.hasMore <==> |l| > p.limit
    ensures var l := Found(rooms, p, states, ctx);
      page.items == if |l| > p.limit then l[..p.limit] else l
    ensures CursorsAtEnds(page)
  {
    var items, i := CollectFound(rooms, p, states, ctx);
    SelectPrefix(rooms, i, RoomFilter(p, states), ListedChat(ctx), ChatFilter(p));
    if |items| <= p.limit {
      assert rooms[..i] == rooms;
    }
    TruncatedPrefix(items, Found(rooms, p, states, ctx), p.limit);
    var hasMore := |items| > p.limit;
    if hasMore {
      items := items[..p.limit];
    }
    page := PageOf(items, hasMore);
  }

  /* ---------- message search ---------- */

  /**
   * How many timeline rows a message search reads: eight per requested
   * message, at least one more than the limit, at most 1000.
   */
  function FetchLimit(limit: int): (n: int)
    ensures n <= MaxFetchLimit
  {
    var n := if limit * 8 < limit + 1 then limit + 1 else limit * 8;
    if n > MaxFetchLimit then MaxFetchLimit else n
  }

  /**
   * For every limit the parser accepts, the search reads eight rows per
   * requested message up to 1000, which always leaves room for the extra
   * row that tells whether more follow.
   */
  lemma FetchLimitBounds(limit: int)
    requires 1 <= limit <= SearchMessagesMaxLimit
    ensures FetchLimit(limit) == if 8 * limit > MaxFetchLimit then MaxFetchLimit else 8 * limit
    ensures FetchLimit(limit) > limit
  {
  }

  /** loadTimelineEventsGlobal after the query: its rows and whether it filled the limit. */
  function LoadTimelineEventsGlobal(rows: TimelineRows, limit: int): (r: Result<(seq<Event>, bool), ApiError>)
    ensures rows.Rows? <==> r.Success?
    ensures r.Success? ==> r.value.0 == rows.events && (r.value.1 <==> |rows.events| == limit)
    ensures r.Failure? ==> r.error.status == StatusInternalServerError
  {
    match rows
    case QueryFailed(err) => Failure(Internal(Some(Wrapped("failed to query global timeline", err))))
    case ScanFailed(err) => Failure(Internal(Some(Wrapped("failed to scan timeline event", err))))
    case IterationFailed(err) => Failure(Internal(Some(Wrapped("global timeline query failed", err))))
    case Rows(events) => Success((events, |events| == limit))
  }

  /**
   * What a message search works with besides the parameters: the rooms by
   * ID, their account data, the account context, and the member names and
   * reactions of each room as the search loads them.
   */
  datatype MessageScope = MessageScope(
    roomByID: map<string, Room>,
    states: map<string, RoomState>,
    ctx: ChatContext,
    namesIn: string -> map<string, string>,
    reactionsIn: string -> map<string, seq<Reaction>>)

  /** The filters searchMessagesCore applies to an event's room. */
  predicate RoomPasses(room: Room, p: MessageSearch, sc: MessageScope)
  {
    var s := StateOf(sc.states, room.id);
    var accountID := InferredAccount(room.id, sc.ctx.lookup, sc.ctx.bridgeOrder).accountID;
    var dm := room.dmUserID.Some? && room.dmUserID.value != "";
    (|p.chatIDs| == 0 || room.id in p.chatIDs)
    && !(p.excludeLowPriority && s.isLowPriority)
    && (p.includeMuted || !s.isMuted)
    && (|p.accountIDs| == 0 || EqualsAny(accountID, p.accountIDs))
    && (p.chatType != "single" || dm)
    && (p.chatType != "group" || !dm)
  }

  /** The filters searchMessagesCore applies to the mapped message. */
  predicate MessagePasses(msg: Message, p: MessageSearch)
  {
    MatchesAllTokens(p.query, msg.text) && MatchesSender(msg, p.sender)
    && MatchesMedia(msg, p.mediaTypes) && MatchesMessageDate(msg.timestampMs, p.dateAfter, p.dateBefore)
  }

  /** The message an event contributes to the search, if any. */
  function Hit(e: Event, p: MessageSearch, sc: MessageScope): Option<Message>
  {
    if e.roomID !in sc.roomByID then None
    else
      var room := sc.roomByID[e.roomID];
      if !RoomPasses(room, p, sc) then None
      else
        var accountID := InferredAccount(room.id, sc.ctx.lookup, sc.ctx.bridgeOrder).accountID;
        var msg := MapEventToMessage(Some(e), accountID, sc.ctx.selfID, sc.namesIn(room.id), sc.reactionsIn(room.id));
        if msg.Some? && MessagePasses(msg.value, p) then msg else None
  }

  function HitOf(p: MessageSearch, sc: MessageScope): Event -> Option<Message>
  {
    e => Hit(e, p, sc)
  }

  /** A search hit: the message and the timeline row it came from. */
  datatype SearchHit = HitAt(message: Message, rowID: int)

  /** The hits among the events, in event order. */
  function Hits(events: seq<Event>, hit: Event -> Option<Message>): seq<SearchHit>
  {
    if |events| == 0 then []
    else
      var before := Hits(events[..|events| - 1], hit);
      var e := events[|events| - 1];
      if hit(e).Some? then before + [HitAt(hit(e).value, e.timelineRowID)] else before
  }

  /** Hits of a prefix of the events are a prefix of the hits. */
  lemma {:induction false} HitsPrefix(events: seq<Event>, i: nat, hit: Event -> Option<Message>)
    requires i <= |events|
    ensures var p := Hits(events[..i], hit);
      var q := Hits(events, hit);
      |p| <= |q| && q[..|p|] == p
    decreases |events|
  {
    if i < |events| {
      var init := events[..|events| - 1];
      HitsPrefix(init, i, hit);
      assert init[..i] == events[..i];
    } else {
      assert events[..i] == events;
    }
  }

  /**
   * Every hit is the message of an event whose room passes the room filters,
   * and it passes the message filters, carrying that event's timeline row.
   */
  lemma {:induction false} HitsFacts(events: seq<Event>, p: MessageSearch, sc: MessageScope)
    ensures var hs := Hits(events, HitOf(p, sc));
      |hs| <= |events|
      && forall k :: 0 <= k < |hs| ==>
        MessagePasses(hs[k].message, p)
        && exists j :: 0 <= j < |events| && events[j].roomID in sc.roomByID
             && RoomPasses(sc.roomByID[events[j].roomID], p, sc)
             && hs[k].message.id == events[j].id && hs[k].rowID == events[j].timelineRowID
    decreases |events|
  {
    if |events| > 0 {
      var init := events[..|events| - 1];
      HitsFacts(init, p, sc);
      var hs := Hits(events, HitOf(p, sc));
      var before := Hits(init, HitOf(p, sc));
      var e := events[|events| - 1];
      if Hit(e, p, sc).Some? {
        HitOfEvent(e, p, sc);
        assert hs == before + [HitAt(Hit(e, p, sc).value, e.timelineRowID)];
      } else {
        assert hs == before;
      }
      forall k | 0 <= k < |hs|
        ensures MessagePasses(hs[k].message, p)
        ensures exists j :: (0 <= j < |events| && events[j].roomID in sc.roomByID
             && RoomPasses(sc.roomByID[events[j].roomID], p, sc)
             && hs[k].message.id == events[j].id && hs[k].rowID == events[j].timelineRowID)
      {
        if k < |before| {
          var j :| 0 <= j < |init| && init[j].roomID in sc.roomByID
             && RoomPasses(sc.roomByID[init[j].roomID], p, sc)
             && before[k].message.id == init[j].id && before[k].rowID == init[j].timelineRowID;
          assert events[j] == init[j];
        } else {
          assert events[|events| - 1] == e;
        }
      }
    }
  }

  /** A hit passes the message filters, comes from a room that passes the room filters, and keeps the event's ID. */
  lemma HitOfEvent(e: Event, p: MessageSearch, sc: MessageScope)
    requires Hit(e, p, sc).Some?
    ensures MessagePasses(Hit(e, p, sc).value, p)
    ensures e.roomID in sc.roomByID && RoomPasses(sc.roomByID[e.roomID], p, sc)
    ensures Hit(e, p, sc).value.id == e.id
  {
    var room := sc.roomByID[e.roomID];
    var accountID := InferredAccount(room.id, sc.ctx.lookup, sc.ctx.bridgeOrder).accountID;
    MessageOfEvent(e, accountID, sc.ctx.selfID, sc.namesIn(room.id), sc.reactionsIn(room.id));
  }

  /** The event loop of searchMessagesCore: collect hits until one more than the limit is held. */
  method CollectHits(events: seq<Event>, hit: Event -> Option<Message>, limit: int)
    returns (items: seq<Message>, rowIDs: seq<int>, i: nat)
    requires limit >= 0
    ensures i <= |events| && |items| == |rowIDs| <= limit + 1
    ensures var hs := Hits(events[..i], hit);
      |hs| == |items| && forall k :: 0 <= k < |hs| ==> hs[k] == HitAt(items[k], rowIDs[k])
    ensures |items| <= limit ==> i == |events|
  {
    items := [];
    rowIDs := [];
    i := 0;
    while i < |events|
      invariant 0 <= i <= |events|
      invariant |items| == |rowIDs| <= limit
      invariant var hs := Hits(events[..i], hit);
        |hs| == |items| && forall k :: 0 <= k < |hs| ==> hs[k] == HitAt(items[k], rowIDs[k])
    {
      assert events[..i + 1][..i] == events[..i];
      var e := events[i];
      assert events[..i + 1][i] == e;
      i := i + 1;
      var msg := hit(e);
      if msg.None? {
        continue;
      }
      items := items + [msg.value];
      rowIDs := rowIDs + [e.timelineRowID];
      if |items| > limit {
        return;
      }
    }
  }

  /** The known rooms some message came from. */
  ghost function UsedRooms(msgs: seq<Message>, sc: MessageScope): set<Room>
  {
    set i | 0 <= i < |msgs| && msgs[i].chatID in sc.roomByID :: sc.roomByID[msgs[i].chatID]
  }

  /**
   * `chats` holds, under its own ID, a chat for every room some message came
   * from, and nothing else: each entry is the chat of such a room.
   */
  ghost predicate ChatsOfRooms(rooms: set<Room>, sc: MessageScope, chats: map<string, Chat>)
  {
    (chats.Keys == set r | r in rooms :: r.id)
    && (forall id :: id in chats ==> chats[id].id == id)
    && (forall id :: id in chats ==>
          exists r :: r in rooms && r.id == id && chats[id] == ChatOf(r, sc.ctx, ChatPreviewParticipants))
  }

  /** The chats of the rooms the collected hits came from, by chat ID. */
  function UsedChats(msgs: seq<Message>, sc: MessageScope): (chats: map<string, Chat>)
    ensures ChatsOfRooms(UsedRooms(msgs, sc), sc, chats)
  {
    if |msgs| == 0 then map[]
    else
      var before := UsedChats(msgs[..|msgs| - 1], sc);
      var roomID := msgs[|msgs| - 1].chatID;
      UsedRoomsSnoc(msgs, sc);
      if roomID in sc.roomByID then
        var chat := ChatOf(sc.roomByID[roomID], sc.ctx, ChatPreviewParticipants);
        UsedChatsStep(UsedRooms(msgs[..|msgs| - 1], sc), sc.roomByID[roomID], sc, before);
        before[chat.id := chat]
      else
        before
  }

  /** The rooms of all messages are those of all but the last, and the last one's when it is known. */
  lemma UsedRoomsSnoc(msgs: seq<Message>, sc: MessageScope)
    requires |msgs| > 0
    ensures var last := msgs[|msgs| - 1].chatID;
      UsedRooms(msgs, sc) == UsedRooms(msgs[..|msgs| - 1], sc) + (if last in sc.roomByID then {sc.roomByID[last]} else {})
  {
    var init := msgs[..|msgs| - 1];
    forall i | 0 <= i < |init| ensures init[i] == msgs[i] { }
  }

  /** Adding one room's chat keeps ChatsOfRooms. */
  lemma UsedChatsStep(rooms: set<Room>, room: Room, sc: MessageScope, before: map<string, Chat>)
    requires ChatsOfRooms(rooms, sc, before)
    ensures var chat := ChatOf(room, sc.ctx, ChatPreviewParticipants);
      ChatsOfRooms(rooms + {room}, sc, before[chat.id := chat])
  {
    var chat := ChatOf(room, sc.ctx, ChatPreviewParticipants);
    assert chat.id == room.id;
    var after := before[chat.id := chat];
    assert after.Keys == before.Keys + {room.id};
    assert (set r | r in rooms + {room} :: r.id) == (set r | r in rooms :: r.id) + {room.id};
    forall id | id in after
      ensures exists r :: r in rooms + {room} && r.id == id && after[id] == ChatOf(r, sc.ctx, ChatPreviewParticipants)
    {
      UsedChatFrom(rooms, room, sc, before, id);
    }
  }

  /** After adding one room's chat, each entry is still the chat of a used room. */
  lemma UsedChatFrom(rooms: set<Room>, room: Room, sc: MessageScope, before: map<string, Chat>, id: string)
    requires forall id :: id in before ==>
      exists r :: r in rooms && r.id == id && before[id] == ChatOf(r, sc.ctx, ChatPreviewParticipants)
    requires var chat := ChatOf(room, sc.ctx, ChatPreviewParticipants); id in before[chat.id := chat]
    ensures var chat := ChatOf(room, sc.ctx, ChatPreviewParticipants);
      exists r :: r in rooms + {room} && r.id == id && before[chat.id := chat][id] == ChatOf(r, sc.ctx, ChatPreviewParticipants)
  {
    var chat := ChatOf(room, sc.ctx, ChatPreviewParticipants);
    assert chat.id == room.id;
    if id == chat.id {
      assert room in rooms + {room};
    } else {
      var r :| r in rooms && r.id == id && before[id] == ChatOf(r, sc.ctx, ChatPreviewParticipants);
      assert r in rooms + {room};
    }
  }

  /** searchMessagesCore's roomByID: every room under its own ID. */
  ghost predicate KeyedByID(rooms: map<string, Room>)
  {
    forall k :: k in rooms ==> rooms[k].id == k
  }

  /**
   * With rooms keyed by their IDs, the chats are exactly those of the known
   * rooms some message came from, each the chat of its own room.
   */
  lemma UsedChatsExactly(msgs: seq<Message>, sc: MessageScope, id: string)
    requires KeyedByID(sc.roomByID)
    ensures var chats := UsedChats(msgs, sc);
      (id in chats <==> id in sc.roomByID && exists i :: 0 <= i < |msgs| && msgs[i].chatID == id)
      && (id in chats ==> chats[id] == ChatOf(sc.roomByID[id], sc.ctx, ChatPreviewParticipants))
  {
    var chats := UsedChats(msgs, sc);
    var rooms := UsedRooms(msgs, sc);
    if id in chats {
      var r :| r in rooms && r.id == id && chats[id] == ChatOf(r, sc.ctx, ChatPreviewParticipants);
      var i :| 0 <= i < |msgs| && msgs[i].chatID in sc.roomByID && sc.roomByID[msgs[i].chatID] == r;
      assert msgs[i].chatID == id;
    }
    if id in sc.roomByID && exists i :: 0 <= i < |msgs| && msgs[i].chatID == id {
      var i :| 0 <= i < |msgs| && msgs[i].chatID == id;
      assert sc.roomByID[id] in rooms;
      assert id in (set r | r in rooms :: r.id);
    }
  }

  /** The collected messages are those of all hits, up to one past the limit. */
  lemma CollectedMessages(items: seq<Message>, rowIDs: seq<int>, hs: seq<SearchHit>, all: seq<SearchHit>, n: nat)
    requires |hs| == |items| == |rowIDs| <= n + 1 && forall k :: 0 <= k < |hs| ==> hs[k] == HitAt(items[k], rowIDs[k])
    requires |hs| <= |all| && all[..|hs|] == hs
    requires |hs| <= n ==> hs == all
    ensures items == HitMessages(all[..if |all| > n then n + 1 else |all|])
  {
    assert |all| > n ==> |hs| == n + 1;
    assert HitMessages(hs) == items;
  }

  /** The messages of some hits, in order. */
  function HitMessages(hs: seq<SearchHit>): (msgs: seq<Message>)
    ensures |msgs| == |hs| && forall k :: 0 <= k < |hs| ==> msgs[k] == hs[k].message
  {
    seq(|hs|, k requires 0 <= k < |hs| => hs[k].message)
  }

  /** One page of message search results. */
  datatype MessagePage = MessagePage(
    items: seq<Message>,
    chats: map<string, Chat>,
    hasMore: bool,
    oldestCursor: Option<string>,
    newestCursor: Option<string>)

  /**
   * searchMessagesCore after the timeline query: at most `limit` hits,
   * `hasMore` when the query filled its limit or more hits were found, the
   * decimal timeline rows of the first and last hit as cursors, and the
   * chats of the rooms the collected hits came from.
   */
  method SearchMessages(events: seq<Event>, dbHasMore: bool, p: MessageSearch, sc: MessageScope)
    returns (page: MessagePage)
    requires p.limit >= 0
    ensures var hs := Hits(events, HitOf(p, sc));
      (page.hasMore <==> dbHasMore || |hs| > p.limit)
      && |page.items| == (if |hs| > p.limit then p.limit else |hs|)
      && ShowsHits(page, hs)
    ensures var hs := Hits(events, HitOf(p, sc));
      page.chats == UsedChats(HitMessages(hs[..if |hs| > p.limit then p.limit + 1 else |hs|]), sc)
  {
    var hit := HitOf(p, sc);
    var items, rowIDs, i := CollectHits(events, hit, p.limit);
    ghost var got, all := Hits(events[..i], hit), Hits(events, hit);
    HitsPrefix(events, i, hit);
    if |items| <= p.limit {
      assert events[..i] == events;
    }
    var chats := UsedChats(items, sc);
    CollectedMessages(items, rowIDs, got, all, p.limit);
    var hasMore := dbHasMore || |items| > p.limit;
    ShowsCollected(items, rowIDs, got, all, p.limit, chats, hasMore);
    if |items| > p.limit {
      items := items[..p.limit];
      rowIDs := rowIDs[..p.limit];
    }
    page := MessagePageOf(items, rowIDs, chats, hasMore);
  }

  /** The page searchMessagesCore returns: the cursors are the decimal rows of the first and last item. */
  function MessagePageOf(items: seq<Message>, rowIDs: seq<int>, chats: map<string, Chat>, hasMore: bool): (page: MessagePage)
    requires |items| == |rowIDs|
    ensures page.items == items && page.chats == chats && page.hasMore == hasMore
    ensures items == [] ==> page.oldestCursor.None? && page.newestCursor.None?
    ensures items != [] ==> (page.newestCursor == Some(FormatInt(rowIDs[0]))
      && page.oldestCursor == Some(FormatInt(rowIDs[|rowIDs| - 1])))
  {
    if |rowIDs| > 0 then MessagePage(items, chats, hasMore, Some(FormatInt(rowIDs[|rowIDs| - 1])), Some(FormatInt(rowIDs[0])))
    else MessagePage(items, chats, hasMore, None, None)
  }

  /**
   * The page lists the first hits in order, and its cursors are the rows of
   * the first and last hit it lists.
   */
  ghost predicate ShowsHits(page: MessagePage, hs: seq<SearchHit>)
  {
    |page.items| <= |hs|
    && (forall k :: 0 <= k < |page.items| ==> page.items[k] == hs[k].message)
    && (page.items == [] ==> page.oldestCursor.None? && page.newestCursor.None?)
    && (page.items != [] ==> page.newestCursor == Some(FormatInt(hs[0].rowID))
                             && page.oldestCursor == Some(FormatInt(hs[|page.items| - 1].rowID)))
  }

  /**
   * Cutting to `n` the collected hits, which overshoot `n` or are all of
   * them, lists the first `n` hits of all.
   */
  lemma ShowsCollected(items: seq<Message>, rowIDs: seq<int>, hs: seq<SearchHit>, all: seq<SearchHit>, n: nat,
                       chats: map<string, Chat>, hasMore: bool)
    requires |hs| == |items| == |rowIDs| && forall k :: 0 <= k < |hs| ==> hs[k] == HitAt(items[k], rowIDs[k])
    requires |hs| <= |all| && all[..|hs|] == hs
    requires |hs| <= n ==> hs == all
    ensures |items| > n <==> |all| > n
    ensures var m := if |items| > n then n else |items|;
      m == (if |all| > n then n else |all|)
      && ShowsHits(MessagePageOf(items[..m], rowIDs[..m], chats, hasMore), all)
  {
    var m := if |items| > n then n else |items|;
    forall k | 0 <= k < m
      ensures items[k] == all[k].message && rowIDs[k] == all[k].rowID
    {
      assert all[k] == hs[k];
    }
  }
}
