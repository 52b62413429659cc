/**
 * Accounts and chat listing (internal/server/accounts_chats.go): which bridge
 * logins count as accounts, which account a room belongs to, the participant
 * list of a room, the chat record built from a room, and the cursor-based
 * chat pages.
 *
 * Database reads become inputs: the rooms in the server's order
 * (sorting timestamp descending, then room ID ascending) and each room's
 * member events.
 */
module AccountsChats {
  import opened Wrappers
  import opened Text
  import opened Sorting
  import opened JsonValues
  import opened ServerParams

  const ChatPageSize: int := 25
  const ChatPreviewParticipants: int := 5

  /* ---------- cursor comparison ---------- */

  /** roomIsOlderThanCursor: earlier timestamp, or the same one and a larger room ID. */
  predicate RoomIsOlderThanCursor(ts: int, roomID: string, c: ChatCursor)
  {
    if ts < c.ts then true
    else if ts > c.ts then false
    else if c.roomID == "" then false
    else Less(c.roomID, roomID)
  }

  /** roomIsNewerThanCursor: later timestamp, or the same one and a smaller room ID. */
  predicate RoomIsNewerThanCursor(ts: int, roomID: string, c: ChatCursor)
  {
    if ts > c.ts then true
    else if ts < c.ts then false
    else if c.roomID == "" then false
    else Less(roomID, c.roomID)
  }

  /** No room is both older and newer than one cursor. */
  lemma OlderAndNewerExclusive(ts: int, roomID: string, c: ChatCursor)
    ensures !(RoomIsOlderThanCursor(ts, roomID, c) && RoomIsNewerThanCursor(ts, roomID, c))
  {
    if ts == c.ts && c.roomID != "" && Less(c.roomID, roomID) {
      LessAsymmetric(c.roomID, roomID);
    }
  }

  /**
   * With a room ID in the cursor, every other room is exactly one of older
   * or newer; with none, a room of the cursor's timestamp is neither.
   */
  lemma CursorSplitsRooms(ts: int, roomID: string, c: ChatCursor)
    ensures c.roomID != "" && (ts, roomID) != (c.ts, c.roomID) ==>
      RoomIsOlderThanCursor(ts, roomID, c) != RoomIsNewerThanCursor(ts, roomID, c)
    ensures c.roomID == "" && ts == c.ts ==>
      !RoomIsOlderThanCursor(ts, roomID, c) && !RoomIsNewerThanCursor(ts, roomID, c)
    ensures !RoomIsOlderThanCursor(c.ts, c.roomID, c) && !RoomIsNewerThanCursor(c.ts, c.roomID, c)
  {
    OlderAndNewerExclusive(ts, roomID, c);
    LessTotal(roomID, c.roomID);
    LessIrreflexive(c.roomID);
  }

  /* ---------- accounts ---------- */

  /** One login in the local bridge state: its state and its per-device states. */
  datatype BridgeAccount = BridgeAccount(state: string, devices: map<string, string>)

  /** isConfiguredLocalAccount. */
  predicate IsConfiguredLocalAccount(account: BridgeAccount, deviceID: string)
  {
    var state := ToUpper(TrimSpace(account.state));
    if state == "" || state == "DELETED" then false
    else if deviceID == "" then true
    else if |account.devices| == 0 then false
    else if deviceID !in account.devices then false
    else
      var status := ToUpper(TrimSpace(account.devices[deviceID]));
      status != "DELETED" && status != "LOGGED_OUT"
  }

  /**
   * A login counts exactly when its state is set and not DELETED, and either
   * no device is asked about or that device is listed and neither DELETED
   * nor LOGGED_OUT, all compared without case.
   */
  lemma ConfiguredAccountCharacterised(account: BridgeAccount, deviceID: string)
    ensures IsConfiguredLocalAccount(account, deviceID) <==>
      ToUpper(TrimSpace(account.state)) !in {"", "DELETED"}
      && (deviceID == "" ||
          (deviceID in account.devices
           && ToUpper(TrimSpace(account.devices[deviceID])) !in {"DELETED", "LOGGED_OUT"}))
  {
    if deviceID in account.devices {
      assert |account.devices| > 0;
    }
  }

  /** A state spelled in any case is recognised. */
  lemma DeletedStateIgnoresCase(state: string, device: string)
    requires state == "deleted" && device == "logged_out"
    ensures !IsConfiguredLocalAccount(BridgeAccount(state, map[]), "")
    ensures !IsConfiguredLocalAccount(BridgeAccount("CONNECTED", map["d1" := device]), "d1")
  {
    TrimSpaceUntouched(state);
    assert ToUpper(state) == "DELETED";
    TrimSpaceUntouched(device);
    assert ToUpper(device) == "LOGGED_OUT";
  }

  /** bridgeIDFromAccountID: the text before the first `_`, when that is not at the start. */
  function BridgeIDFromAccountID(accountID: string): (r: string)
    ensures r != "" ==> HasPrefix(accountID, r + "_") && '_' !in r
    ensures r == "" ==> '_' !in accountID || accountID[0] == '_'
  {
    var idx := Index(accountID, "_");
    if idx > 0 then
      assert accountID[idx] == accountID[idx..idx + 1][0];
      assert forall j :: 0 <= j < idx ==> accountID[j] != '_' by {
        forall j | 0 <= j < idx ensures accountID[j] != '_' {
          assert !OccursAt(accountID, "_", j);
          assert accountID[j..j + 1] == [accountID[j]];
        }
      }
      accountID[..idx]
    else
      assert idx == 0 ==> accountID[0..1] == "_";
      assert idx == -1 ==> '_' !in accountID by {
        if idx == -1 {
          forall j | 0 <= j < |accountID| ensures accountID[j] != '_' {
            assert accountID[j..j + 1] == [accountID[j]];
            assert !OccursAt(accountID, "_", j);
          }
        }
      }
      ""
  }

  /** The account ID the server builds from a bridge and a remote ID gives the bridge back. */
  lemma BridgeIDRoundTrip(bridgeID: string, remoteID: string)
    requires bridgeID != "" && '_' !in bridgeID
    ensures BridgeIDFromAccountID(bridgeID + "_" + remoteID) == bridgeID
  {
    var id := bridgeID + "_" + remoteID;
    assert OccursAt(id, "_", |bridgeID|);
    assert id[..|bridgeID|] == bridgeID;
  }

  /** roomServerPart: what follows the first `:` of a room ID, else "". */
  function RoomServerPart(roomID: string): (r: string)
    ensures ':' !in roomID ==> r == ""
  {
    match AfterChar(roomID, ':')
    case None => ""
    case Some(rest) => rest
  }

  /** The server part of `!local:server` is `server`. */
  lemma RoomServerPartOf(local: string, server: string)
    requires ':' !in local
    ensures RoomServerPart(local + ":" + server) == server
  {
    var id := local + ":" + server;
    BeforeCharAtColon(local, server);
    assert id == BeforeChar(id, ':') + [':'] + server;
  }

  lemma {:induction false} BeforeCharAtColon(p: string, rest: string)
    requires ':' !in p
    ensures BeforeChar(p + ":" + rest, ':') == p
    decreases |p|
  {
    if |p| > 0 {
      BeforeCharAtColon(p[1..], rest);
      assert (p + ":" + rest)[1..] == p[1..] + ":" + rest;
    }
  }

  /** The profile key holds a non-blank string. */
  predicate NonBlankStringAt(m: map<string, Json>, key: string)
  {
    key in m && m[key].JString? && !IsBlank(m[key].s)
  }

  /** firstString: the trimmed value of the first key holding a non-blank string, else "". */
  method FirstString(m: map<string, Json>, keys: seq<string>) returns (r: string)
    ensures r == "" <==> forall i :: 0 <= i < |keys| ==> !NonBlankStringAt(m, keys[i])
    ensures r != "" ==> exists i :: (0 <= i < |keys| && NonBlankStringAt(m, keys[i]) && r == TrimSpace(m[keys[i]].s)
      && forall j :: 0 <= j < i ==> !NonBlankStringAt(m, keys[j]))
  {
    for i := 0 to |keys|
      invariant forall j :: 0 <= j < i ==> !NonBlankStringAt(m, keys[j])
    {
      var key := keys[i];
      if key !in m {
        continue;
      }
      var value := m[key];
      if value.JString? {
        var s := TrimSpace(value.s);
        if s != "" {
          return s;
        }
      }
    }
    return "";
  }

  /** The bridges with a fixed display name. */
  function KnownNetwork(bridgeID: string): Option<string>
  {
    if bridgeID == "whatsapp" then Some("WhatsApp")
    else if bridgeID == "telegram" then Some("Telegram")
    else if bridgeID == "twitter" then Some("Twitter/X")
    else if bridgeID == "instagram" then Some("Instagram")
    else if bridgeID == "signal" then Some("Signal")
    else if bridgeID == "linkedin" then Some("LinkedIn")
    else if bridgeID in {"discordgo", "discord"} then Some("Discord")
    else if bridgeID in {"slackgo", "slack"} then Some("Slack")
    else if bridgeID in {"facebookgo", "facebook"} then Some("Facebook")
    else if bridgeID == "gmessages" then Some("Google Messages")
    else if bridgeID == "gvoice" then Some("Google Voice")
    else if bridgeID in {"imessage", "imessagecloud"} then Some("iMessage")
    else None
  }

  /**
   * networkFromBridgeID: the display name of a bridge, without its `local-`
   * prefix. An unknown bridge has its first byte upper-cased; only a first
   * character that is one byte (ASCII) is modelled.
   */
  function NetworkFromBridgeID(bridgeID: string): (r: string)
    ensures r != ""
    ensures var b := TrimPrefix(bridgeID, "local-");
      KnownNetwork(b).None? && b != "" && b[0] as int < 128 ==>
        |r| == |b| && r[0] == UpperChar(b[0]) && r[1..] == b[1..]
  {
    var b := TrimPrefix(bridgeID, "local-");
    match KnownNetwork(b)
    case Some(name) => name
    case None => if b == "" then "Unknown" else [UpperChar(b[0])] + b[1..]
  }

  /** A local bridge has the same network name as the hosted one. */
  lemma NetworkIgnoresLocalPrefix(bridgeID: string)
    requires !HasPrefix(bridgeID, "local-")
    ensures NetworkFromBridgeID("local-" + bridgeID) == NetworkFromBridgeID(bridgeID)
  {
    assert ("local-" + bridgeID)[..6] == "local-";
    assert TrimPrefix("local-" + bridgeID, "local-") == bridgeID;
  }

  /**
   * Some concrete names: a local bridge, a bridge with two IDs, no bridge, a
   * bare `local-`, and a bridge with no fixed name.
   */
  lemma NetworkNames(local: string, hosted: string, bare: string, plain: string)
    requires local == "local-whatsapp" && hosted == "discordgo" && bare == "local-" && plain == "matrix"
    ensures NetworkFromBridgeID(local) == "WhatsApp"
    ensures NetworkFromBridgeID(hosted) == "Discord"
    ensures NetworkFromBridgeID("") == "Unknown"
    ensures NetworkFromBridgeID(bare) == "Unknown"
    ensures NetworkFromBridgeID(plain) == "Matrix"
  {
    assert local == "local-" + "whatsapp";
    TrimPrefixOfConcat("local-", "whatsapp");
    TrimPrefixMismatch(hosted, "local-", 0);
    assert bare == "local-" + "";
    TrimPrefixOfConcat("local-", "");
    TrimPrefixMismatch(plain, "local-", 0);
    assert [UpperChar(plain[0])] + plain[1..] == "Matrix";
  }

  /* ---------- account lookup ---------- */

  /** The two fields of compat.Account that room inference reads. */
  datatype Account = Account(accountID: string, network: string)

  /** accountLookup: the accounts in order, by ID (last wins) and by bridge (in order). */
  datatype AccountLookup = AccountLookup(accounts: seq<Account>, byID: map<string, Account>, byBridge: map<string, seq<Account>>)

  /** The lookup buildAccountLookup builds from `accounts`. */
  function LookupOf(accounts: seq<Account>): (l: AccountLookup)
    ensures l.accounts == accounts
  {
    if |accounts| == 0 then AccountLookup([], map[], map[])
    else
      assert accounts[..|accounts| - 1] + [accounts[|accounts| - 1]] == accounts;
      AddAccount(LookupOf(accounts[..|accounts| - 1]), accounts[|accounts| - 1])
  }

  /** One step of buildAccountLookup: index `a` by its ID and append it to its bridge's list. */
  function AddAccount(l: AccountLookup, a: Account): (r: AccountLookup)
    ensures r.accounts == l.accounts + [a]
    ensures l.byID.Keys <= r.byID.Keys && a.accountID in r.byID
    ensures l.byBridge.Keys <= r.byBridge.Keys
    ensures BridgeIDFromAccountID(a.accountID) != "" ==> BridgeIDFromAccountID(a.accountID) in r.byBridge
  {
    var b := BridgeIDFromAccountID(a.accountID);
    var byBridge := if b == "" then l.byBridge
      else l.byBridge[b := (if b in l.byBridge then l.byBridge[b] else []) + [a]];
    AccountLookup(l.accounts + [a], l.byID[a.accountID := a], byBridge)
  }

  /** Adding an account keeps a lookup well formed. */
  lemma AddAccountWellFormed(l: AccountLookup, a: Account)
    requires WellFormedLookup(l)
    ensures WellFormedLookup(AddAccount(l, a))
  {
    var r := AddAccount(l, a);
    forall k | k in r.byID ensures r.byID[k].accountID == k && r.byID[k] in r.accounts {
      if k != a.accountID {
        assert r.byID[k] == l.byID[k];
      }
    }
    var b := BridgeIDFromAccountID(a.accountID);
    forall c | c in r.byBridge ensures c != "" && '_' !in c && |r.byBridge[c]| > 0 {
      if c != b || b == "" {
        assert r.byBridge[c] == l.byBridge[c];
      }
    }
    forall c, i | c in r.byBridge && 0 <= i < |r.byBridge[c]|
      ensures r.byBridge[c][i] in r.accounts && BridgeIDFromAccountID(r.byBridge[c][i].accountID) == c
    {
      if c != b || b == "" {
        assert r.byBridge[c] == l.byBridge[c];
      } else if c in l.byBridge && i < |l.byBridge[c]| {
        assert r.byBridge[c][i] == l.byBridge[c][i];
      }
    }
  }

  /** What every lookup built by the server satisfies. */
  ghost predicate WellFormedLookup(l: AccountLookup)
  {
    (forall k :: k in l.byID ==> l.byID[k].accountID == k && l.byID[k] in l.accounts)
    && (forall b :: b in l.byBridge ==> b != "" && '_' !in b && |l.byBridge[b]| > 0)
    && (forall b, i :: b in l.byBridge && 0 <= i < |l.byBridge[b]| ==>
          l.byBridge[b][i] in l.accounts && BridgeIDFromAccountID(l.byBridge[b][i].accountID) == b)
  }

  /** The lookup indexes exactly the accounts, each by its ID and its bridge. */
  lemma {:induction false} LookupOfWellFormed(accounts: seq<Account>)
    ensures WellFormedLookup(LookupOf(accounts))
    decreases |accounts|
  {
    if |accounts| > 0 {
      var init := accounts[..|accounts| - 1];
      LookupOfWellFormed(init);
      AddAccountWellFormed(LookupOf(init), accounts[|accounts| - 1]);
    }
  }

  /** Every account is indexed by its ID, and by its bridge when it has one. */
  lemma {:induction false} LookupOfIndexesAll(accounts: seq<Account>)
    ensures forall i :: 0 <= i < |accounts| ==> accounts[i].accountID in LookupOf(accounts).byID
    ensures forall i :: 0 <= i < |accounts| && BridgeIDFromAccountID(accounts[i].accountID) != "" ==>
      BridgeIDFromAccountID(accounts[i].accountID) in LookupOf(accounts).byBridge
    decreases |accounts|
  {
    if |accounts| > 0 {
      var init := accounts[..|accounts| - 1];
      LookupOfIndexesAll(init);
      forall i | 0 <= i < |init| ensures accounts[i] == init[i] {
      }
    }
  }

  /** The lookup of one more account is the lookup of the others with it added. */
  lemma LookupOfSnoc(accounts: seq<Account>, i: nat)
    requires i < |accounts|
    ensures LookupOf(accounts[..i + 1]) == AddAccount(LookupOf(accounts[..i]), accounts[i])
  {
    assert accounts[..i + 1][..i] == accounts[..i];
    assert accounts[..i + 1][i] == accounts[i];
  }

  /** buildAccountLookup. */
  method BuildAccountLookup(accounts: seq<Account>) returns (l: AccountLookup)
    ensures l == LookupOf(accounts)
  {
    var byID: map<string, Account> := map[];
    var byBridge: map<string, seq<Account>> := map[];
    for i := 0 to |accounts|
      invariant LookupOf(accounts[..i]) == AccountLookup(accounts[..i], byID, byBridge)
    {
      var a := accounts[i];
      LookupOfSnoc(accounts, i);
      ghost var before := AccountLookup(accounts[..i], byID, byBridge);
      byID := byID[a.accountID := a];
      var b := BridgeIDFromAccountID(a.accountID);
      if b != "" {
        var existing := if b in byBridge then byBridge[b] else [];
        byBridge := byBridge[b := existing + [a]];
      }
      assert AccountLookup(accounts[..i + 1], byID, byBridge) == AddAccount(before, a);
    }
    assert accounts[..|accounts|] == accounts;
    l := AccountLookup(accounts, byID, byBridge);
  }

  /** The characters strings.Trim strips from the server-part prefix. */
  predicate Separator(c: char)
  {
    c == '.' || c == '_' || c == '-'
  }

  /** The loop of inferAccountForRoom over the bridges in `order`. */
  function InferFrom(server: string, l: AccountLookup, order: seq<string>): Option<Account>
  {
    if |order| == 0 then None
    else
      var b := order[0];
      var idx := Index(server, b);
      if idx < 0 then InferFrom(server, l, order[1..])
      else
        var prefix := TrimChars(server[..idx], Separator);
        if prefix != "" && b + "_" + prefix in l.byID then Some(l.byID[b + "_" + prefix])
        else if b in l.byBridge && |l.byBridge[b]| > 0 then Some(l.byBridge[b][0])
        else InferFrom(server, l, order[1..])
  }

  /**
   * inferAccountForRoom: the account of a room, from the bridge IDs in
   * `order` (the lookup's bridges, longest first) matched against the
   * room's server part; no account at all gives ("", "Unknown").
   */
  function InferredAccount(roomID: string, l: AccountLookup, order: seq<string>): Account
  {
    if |l.accounts| == 0 then Account("", "Unknown")
    else match InferFrom(RoomServerPart(roomID), l, order)
      case Some(a) => a
      case None => l.accounts[0]
  }

  method InferAccountForRoom(roomID: string, l: AccountLookup, order: seq<string>) returns (a: Account)
    ensures a == InferredAccount(roomID, l, order)
  {
    if |l.accounts| == 0 {
      return Account("", "Unknown");
    }
    var server := RoomServerPart(roomID);
    for i := 0 to |order|
      invariant InferFrom(server, l, order[i..]) == InferFrom(server, l, order)
    {
      assert order[i..][1..] == order[i + 1..];
      var b := order[i];
      var idx := Index(server, b);
      if idx < 0 {
        continue;
      }
      var prefix := TrimChars(server[..idx], Separator);
      if prefix != "" {
        var candidate := b + "_" + prefix;
        if candidate in l.byID {
          return l.byID[candidate];
        }
      }
      if b in l.byBridge && |l.byBridge[b]| > 0 {
        return l.byBridge[b][0];
      }
    }
    return l.accounts[0];
  }

  /** `order` lists every bridge of the lookup once, longest first. */
  ghost predicate LongestFirst(l: AccountLookup, order: seq<string>)
  {
    (forall b :: b in l.byBridge <==> b in order)
    && (forall i, j :: 0 <= i < j < |order| ==> |order[i]| >= |order[j]|)
  }

  /** The first bridge in `order` that occurs in `server` decides the account, which belongs to it. */
  lemma {:induction false} InferFromFacts(server: string, l: AccountLookup, order: seq<string>)
    requires WellFormedLookup(l)
    requires forall i :: 0 <= i < |order| ==> order[i] in l.byBridge
    ensures InferFrom(server, l, order).None? <==> forall i :: 0 <= i < |order| ==> !Contains(server, order[i])
    ensures InferFrom(server, l, order).Some? ==>
      exists i :: 0 <= i < |order| && Contains(server, order[i])
        && (forall j :: 0 <= j < i ==> !Contains(server, order[j]))
        && InferFrom(server, l, order).value in l.accounts
        && BridgeIDFromAccountID(InferFrom(server, l, order).value.accountID) == order[i]
    decreases |order|
  {
    if |order| > 0 {
      var b := order[0];
      InferFromFacts(server, l, order[1..]);
      var idx := Index(server, b);
      if idx >= 0 {
        var prefix := TrimChars(server[..idx], Separator);
        if prefix != "" && b + "_" + prefix in l.byID {
          BridgeIDRoundTrip(b, prefix);
        } else {
          assert l.byBridge[b][0] in l.accounts;
        }
      } else {
        var r := InferFrom(server, l, order[1..]);
        if r.Some? {
          var i :| 0 <= i < |order[1..]| && Contains(server, order[1..][i])
            && (forall j :: 0 <= j < i ==> !Contains(server, order[1..][j]))
            && r.value in l.accounts && BridgeIDFromAccountID(r.value.accountID) == order[1..][i];
          assert Contains(server, order[i + 1]) && forall j :: 0 <= j < i + 1 ==> !Contains(server, order[j]);
        }
      }
    }
  }

  /**
   * With a lookup the server built and its bridges tried longest first: a
   * room whose server part contains some bridge ID gets an account of a
   * matching bridge no shorter than any other match; otherwise it gets the
   * first account; with no accounts it gets ("", "Unknown").
   */
  lemma LongestBridgeWins(roomID: string, accounts: seq<Account>, order: seq<string>)
    requires LongestFirst(LookupOf(accounts), order)
    ensures |accounts| == 0 ==> InferredAccount(roomID, LookupOf(accounts), order) == Account("", "Unknown")
    ensures |accounts| > 0 ==> InferredAccount(roomID, LookupOf(accounts), order) in accounts
    ensures var l := LookupOf(accounts); var server := RoomServerPart(roomID);
      var a := InferredAccount(roomID, l, order);
      |accounts| > 0 && (exists b :: b in l.byBridge && Contains(server, b)) ==>
        BridgeIDFromAccountID(a.accountID) in l.byBridge
        && Contains(server, BridgeIDFromAccountID(a.accountID))
        && forall b :: b in l.byBridge && Contains(server, b) ==> |b| <= |BridgeIDFromAccountID(a.accountID)|
    ensures var l := LookupOf(accounts); var server := RoomServerPart(roomID);
      |accounts| > 0 && (forall b :: b in l.byBridge ==> !Contains(server, b)) ==>
        InferredAccount(roomID, l, order) == accounts[0]
  {
    LookupOfWellFormed(accounts);
    LongestMatch(RoomServerPart(roomID), LookupOf(accounts), order);
  }

  /** InferFrom over a well-formed lookup with bridges longest first finds a longest matching bridge, if any matches. */
  lemma LongestMatch(server: string, l: AccountLookup, order: seq<string>)
    requires WellFormedLookup(l) && LongestFirst(l, order)
    ensures InferFrom(server, l, order).None? <==> forall b :: b in l.byBridge ==> !Contains(server, b)
    ensures InferFrom(server, l, order).Some? ==>
      var a := InferFrom(server, l, order).value;
      a in l.accounts
      && BridgeIDFromAccountID(a.accountID) in l.byBridge
      && Contains(server, BridgeIDFromAccountID(a.accountID))
      && forall b :: b in l.byBridge && Contains(server, b) ==> |b| <= |BridgeIDFromAccountID(a.accountID)|
  {
    InferFromFacts(server, l, order);
    var r := InferFrom(server, l, order);
    if r.Some? {
      var i :| 0 <= i < |order| && Contains(server, order[i])
        && (forall j :: 0 <= j < i ==> !Contains(server, order[j]))
        && r.value in l.accounts && BridgeIDFromAccountID(r.value.accountID) == order[i];
      forall b | b in l.byBridge && Contains(server, b) ensures |b| <= |order[i]| {
        assert b in order;
        var k :| 0 <= k < |order| && order[k] == b;
        if k > i {
          assert |order[i]| >= |order[k]|;
        }
      }
    } else {
      forall b | b in l.byBridge ensures !Contains(server, b) {
        var k :| 0 <= k < |order| && order[k] == b;
      }
    }
  }

  /* ---------- participants ---------- */

  /** The content of an m.room.member event that the listing reads. */
  datatype MemberContent = MemberContent(membership: string, displayname: string, avatarURL: string)

  /** A member state event: its state key, and its content when it decodes. */
  datatype MemberEvent = MemberEvent(stateKey: Option<string>, content: Option<MemberContent>)

  /** compat.User as the participant list fills it. */
  datatype User = User(id: string, fullName: string, imgURL: string, isSelf: bool)

  /** A member event that yields a participant: a state key, decodable content, joined or invited. */
  predicate Participates(m: MemberEvent)
  {
    m.stateKey.Some? && m.stateKey.value != "" && m.content.Some?
    && (m.content.value.membership == "join" || m.content.value.membership == "invite")
  }

  function UserOf(m: MemberEvent, selfID: string): (u: User)
    requires Participates(m)
    ensures u.id == m.stateKey.value
  {
    var userID := m.stateKey.value;
    var name := TrimSpace(m.content.value.displayname);
    User(userID, if name == "" then userID else name, m.content.value.avatarURL, userID == selfID)
  }

  function Ids(users: seq<User>): (r: seq<string>)
    ensures |r| == |users| && forall i :: 0 <= i < |users| ==> r[i] == users[i].id
  {
    seq(|users|, i requires 0 <= i < |users| => users[i].id)
  }

  /** The loop of loadRoomParticipants before sorting: the first participating event per user. */
  function Collected(members: seq<MemberEvent>, selfID: string): seq<User>
  {
    if |members| == 0 then []
    else
      var before := Collected(members[..|members| - 1], selfID);
      var m := members[|members| - 1];
      if Participates(m) && m.stateKey.value !in Ids(before) then before + [UserOf(m, selfID)] else before
  }

  /** Order by full name, then ID. */
  function UserLe(a: User, b: User): bool
  {
    if a.fullName != b.fullName then Less(a.fullName, b.fullName) else LessEq(a.id, b.id)
  }

  lemma UserLeIsTotalPreorder()
    ensures Total(UserLe) && Transitive(UserLe)
  {
    forall a, b ensures UserLe(a, b) || UserLe(b, a) {
      LessTotal(a.fullName, b.fullName);
      LessTotal(a.id, b.id);
    }
    forall a, b, c | UserLe(a, b) && UserLe(b, c) ensures UserLe(a, c) {
      if a.fullName != b.fullName && b.fullName != c.fullName {
        LessTransitive(a.fullName, b.fullName, c.fullName);
        LessAsymmetric(a.fullName, c.fullName);
      } else if a.fullName == b.fullName && b.fullName == c.fullName {
        if a.id != b.id && b.id != c.id {
          LessTransitive(a.id, b.id, c.id);
        }
      }
    }
  }

  /** loadRoomParticipants: the participants sorted by full name then ID, and their count. */
  function Participants(members: Result<seq<MemberEvent>, string>, selfID: string): (r: (seq<User>, int))
  {
    if members.Failure? then ([], 0)
    else
      UserLeIsTotalPreorder();
      var users := InsertionSort(Collected(members.value, selfID), UserLe);
      (users, |users|)
  }

  /** The collected users are distinct participants, one per participating user ID. */
  lemma {:induction false} CollectedFacts(members: seq<MemberEvent>, selfID: string)
    ensures NoDuplicates(Ids(Collected(members, selfID)))
    ensures forall u :: u in Collected(members, selfID) ==>
      exists i :: 0 <= i < |members| && Participates(members[i]) && u == UserOf(members[i], selfID)
    ensures forall i :: 0 <= i < |members| && Participates(members[i]) ==>
      members[i].stateKey.value in Ids(Collected(members, selfID))
    decreases |members|
  {
    if |members| > 0 {
      var init := members[..|members| - 1];
      CollectedFacts(init, selfID);
      var before := Collected(init, selfID);
      var m := members[|members| - 1];
      if Participates(m) && m.stateKey.value !in Ids(before) {
        var after := before + [UserOf(m, selfID)];
        assert Ids(after) == Ids(before) + [m.stateKey.value];
      }
      forall u | u in Collected(members, selfID)
        ensures exists i :: 0 <= i < |members| && Participates(members[i]) && u == UserOf(members[i], selfID)
      {
        if u in before {
          var i :| 0 <= i < |init| && Participates(init[i]) && u == UserOf(init[i], selfID);
          assert members[i] == init[i];
        } else {
          assert members[|members| - 1] == m;
        }
      }
      forall i | 0 <= i < |members| && Participates(members[i])
        ensures members[i].stateKey.value in Ids(Collected(members, selfID))
      {
        if i < |init| {
          assert members[i] == init[i];
          assert members[i].stateKey.value in Ids(before);
        }
        if members[i].stateKey.value in Ids(before) {
          var k :| 0 <= k < |before| && Ids(before)[k] == members[i].stateKey.value;
          assert Ids(Collected(members, selfID))[k] == members[i].stateKey.value;
        }
      }
    }
  }

  /** Distinct IDs survive a permutation. */
  lemma PermutationKeepsDistinctIds(a: seq<User>, b: seq<User>)
    requires multiset(a) == multiset(b) && NoDuplicates(Ids(a))
    ensures NoDuplicates(Ids(b))
  {
    assert NoDuplicates(a) by {
      forall i, j | 0 <= i < j < |a| ensures a[i] != a[j] {
        assert Ids(a)[i] != Ids(a)[j];
      }
    }
    PermutationNoDuplicates(a, b);
    forall i, j | 0 <= i < j < |b| ensures Ids(b)[i] != Ids(b)[j] {
      assert b[i] in multiset(a) && b[j] in multiset(a);
      var k :| 0 <= k < |a| && a[k] == b[i];
      var m :| 0 <= m < |a| && a[m] == b[j];
      assert k != m;
    }
  }

  /**
   * Only joined or invited members with a state key are listed, each user
   * once with the name of its first event, every such user is listed, the
   * list is ordered by full name then ID, and the total is its length.
   */
  lemma ParticipantsCharacterised(members: seq<MemberEvent>, selfID: string)
    ensures var (users, total) := Participants(Success(members), selfID);
      total == |users|
      && SortedBy(users, UserLe)
      && NoDuplicates(Ids(users))
      && (forall u :: u in users ==>
            exists i :: 0 <= i < |members| && Participates(members[i]) && u == UserOf(members[i], selfID))
      && (forall i :: 0 <= i < |members| && Participates(members[i]) ==> members[i].stateKey.value in Ids(users))
  {
    UserLeIsTotalPreorder();
    var c := Collected(members, selfID);
    var users := InsertionSort(c, UserLe);
    CollectedFacts(members, selfID);
    PermutationKeepsDistinctIds(c, users);
    forall u | u in users ensures u in c {
      assert u in multiset(users);
    }
    forall i | 0 <= i < |members| && Participates(members[i]) ensures members[i].stateKey.value in Ids(users) {
      var k :| 0 <= k < |c| && Ids(c)[k] == members[i].stateKey.value;
      assert c[k] in multiset(users);
      var m :| 0 <= m < |users| && users[m] == c[k];
      assert Ids(users)[m] == members[i].stateKey.value;
    }
  }

  /** A failed member query yields no participants. */
  lemma ParticipantsOfFailedQuery(message: string, selfID: string)
    ensures Participants(Failure(message), selfID) == ([], 0)
  {
  }

  /** loadRoomParticipants, with its collecting loop and sort. */
  method LoadRoomParticipants(members: Result<seq<MemberEvent>, string>, selfID: string) returns (users: seq<User>, total: int)
    ensures (users, total) == Participants(members, selfID)
  {
    if members.Failure? {
      return [], 0;
    }
    var events := members.value;
    var collected: seq<User> := [];
    var seen: set<string> := {};
    for i := 0 to |events|
      invariant collected == Collected(events[..i], selfID)
      invariant forall id :: id in seen <==> id in Ids(collected)
    {
      assert events[..i + 1][..i] == events[..i];
      var m := events[i];
      if m.stateKey.None? || m.stateKey.value == "" {
        continue;
      }
      if m.content.None? {
        continue;
      }
      var content := m.content.value;
      if content.membership != "join" && content.membership != "invite" {
        continue;
      }
      var userID := m.stateKey.value;
      if userID in seen {
        continue;
      }
      seen := seen + {userID};
      var fullName := TrimSpace(content.displayname);
      if fullName == "" {
        fullName := userID;
      }
      assert Ids(collected + [UserOf(m, selfID)]) == Ids(collected) + [userID];
      collected := collected + [User(userID, fullName, content.avatarURL, userID == selfID)];
    }
    assert events[..|events|] == events;
    UserLeIsTotalPreorder();
    users := InsertionSort(collected, UserLe);
    total := |users|;
  }

  /* ---------- chats ---------- */

  /**
   * A row of the sorted room query. `sortingTs` is the sorting timestamp in
   * milliseconds; `members` is the result of the member-state query.
   */
  datatype Room = Room(
    id: string,
    name: Option<string>,
    dmUserID: Option<string>,
    sortingTs: int,
    unreadMessages: int,
    members: Result<seq<MemberEvent>, string>)

  /**
   * compat.Chat as mapRoomToChat fills it. `lastActivity` is the instant the
   * RFC 3339 text denotes (whole seconds, in ms), None when the text is
   * empty; `sortingTs` is the room's own timestamp, carried alongside.
   */
  datatype Chat = Chat(
    id: string,
    accountID: string,
    network: string,
    title: string,
    chatType: string,
    participants: seq<User>,
    hasMoreParticipants: bool,
    total: int,
    unreadCount: int,
    lastActivity: Option<int>,
    sortingTs: int)

  /** The context every chat of one request is mapped in. */
  datatype ChatContext = ChatContext(lookup: AccountLookup, bridgeOrder: seq<string>, selfID: string)

  /** The participants shown when at most `maxParticipants` may be (negative: no limit). */
  function Shown(users: seq<User>, maxParticipants: int): (r: (seq<User>, bool))
    ensures r.1 <==> maxParticipants >= 0 && |users| > maxParticipants
    ensures r.1 ==> |r.0| == maxParticipants && r.0 == users[..maxParticipants]
    ensures !r.1 ==> r.0 == users
  {
    if maxParticipants >= 0 && |users| > maxParticipants then (users[..maxParticipants], true) else (users, false)
  }

  /** time.UnixMilli(ts).UTC().Format(time.RFC3339), read back: whole seconds. */
  function ActivityOf(ts: int): (r: Option<int>)
    ensures ts <= 0 <==> r.None?
    ensures r.Some? ==> r.value <= ts < r.value + 1000 && r.value % 1000 == 0
  {
    if ts > 0 then Some(ts - ts % 1000) else None
  }

  /** mapRoomToChat without the message preview. */
  function ChatOf(room: Room, ctx: ChatContext, maxParticipants: int): Chat
  {
    var account := InferredAccount(room.id, ctx.lookup, ctx.bridgeOrder);
    var p := Participants(room.members, ctx.selfID);
    var shown := Shown(p.0, maxParticipants);
    var title := TrimSpace(room.name.UnwrapOr(""));
    Chat(room.id, account.accountID, account.network,
      if title == "" then room.id else title,
      if room.dmUserID.Some? && room.dmUserID.value != "" then "single" else "group",
      shown.0, shown.1, p.1, room.unreadMessages, ActivityOf(room.sortingTs), room.sortingTs)
  }

  /**
   * The chat of a room: the room's ID, its trimmed name or else the ID as
   * title, "single" exactly for a non-empty DM user, the full participant
   * count, and at most `maxParticipants` participants (a negative limit
   * shows all) with `hasMore` exactly when some were cut.
   */
  lemma ChatOfFacts(room: Room, ctx: ChatContext, maxParticipants: int)
    ensures var c := ChatOf(room, ctx, maxParticipants);
      var (users, total) := Participants(room.members, ctx.selfID);
      c.id == room.id
      && c.title == (if IsBlank(room.name.UnwrapOr("")) then room.id else TrimSpace(room.name.value))
      && (c.chatType == "single" <==> room.dmUserID.Some? && room.dmUserID.value != "")
      && (c.chatType == "single" || c.chatType == "group")
      && c.total == total == |users|
      && (c.hasMoreParticipants <==> 0 <= maxParticipants < total)
      && c.participants == (if c.hasMoreParticipants then users[..maxParticipants] else users)
  {
  }

  method MapRoomToChat(room: Room, ctx: ChatContext, maxParticipants: int) returns (c: Chat)
    ensures c == ChatOf(room, ctx, maxParticipants)
  {
    var account := InferAccountForRoom(room.id, ctx.lookup, ctx.bridgeOrder);
    var users, total := LoadRoomParticipants(room.members, ctx.selfID);
    ghost var p := Participants(room.members, ctx.selfID);
    assert users == p.0 && total == p.1;
    var shown := users;
    var more := false;
    if maxParticipants >= 0 && |shown| > maxParticipants {
      shown := shown[..maxParticipants];
      more := true;
    }
    var title := TrimSpace(if room.name.Some? then room.name.value else "");
    if title == "" {
      title := room.id;
    }
    var chatType := "group";
    if room.dmUserID.Some? && room.dmUserID.value != "" {
      chatType := "single";
    }
    var activity := None;
    if room.sortingTs > 0 {
      activity := Some(room.sortingTs - room.sortingTs % 1000);
    }
    assert (shown, more) == Shown(p.0, maxParticipants);
    assert activity == ActivityOf(room.sortingTs);
    assert title == (if TrimSpace(room.name.UnwrapOr("")) == "" then room.id else TrimSpace(room.name.UnwrapOr("")));
    c := Chat(room.id, account.accountID, account.network, title, chatType, shown, more, total,
      room.unreadMessages, activity, room.sortingTs);
  }

  /* ---------- chat pages ---------- */

  /** A room passes the cursor filter for `direction`. */
  predicate AdmittedByCursor(room: Room, direction: string, cursor: Option<ChatCursor>)
  {
    cursor.None?
    || ((direction != "before" || RoomIsOlderThanCursor(room.sortingTs, room.id, cursor.value))
        && (direction != "after" || RoomIsNewerThanCursor(room.sortingTs, room.id, cursor.value)))
  }

  /** A chat passes the account filter. */
  predicate AdmittedByAccount(chat: Chat, accountIDs: seq<string>)
  {
    |accountIDs| == 0 || EqualsAny(chat.accountID, accountIDs)
  }

  /** The chats of the rooms `admit` accepts whose chat `keep` accepts, in room order. */
  function Select(rooms: seq<Room>, admit: Room -> bool, chatOf: Room -> Chat, keep: Chat -> bool): seq<Chat>
  {
    if |rooms| == 0 then []
    else
      var before := Select(rooms[..|rooms| - 1], admit, chatOf, keep);
      var room := rooms[|rooms| - 1];
      if admit(room) && keep(chatOf(room)) then before + [chatOf(room)] else before
  }

  function CursorFilter(direction: string, cursor: Option<ChatCursor>): Room -> bool
  {
    room => AdmittedByCursor(room, direction, cursor)
  }

  function AccountFilter(accountIDs: seq<string>): Chat -> bool
  {
    chat => AdmittedByAccount(chat, accountIDs)
  }

  function ListedChat(ctx: ChatContext): Room -> Chat
  {
    room => ChatOf(room, ctx, ChatPreviewParticipants)
  }

  /** Every chat listChats would list with no page limit, in room order. */
  function Listed(rooms: seq<Room>, direction: string, cursor: Option<ChatCursor>, accountIDs: seq<string>, ctx: ChatContext): seq<Chat>
  {
    Select(rooms, CursorFilter(direction, cursor), ListedChat(ctx), AccountFilter(accountIDs))
  }

  /** Selecting from a prefix of the rooms selects a prefix of the chats. */
  lemma {:induction false} SelectPrefix(rooms: seq<Room>, i: nat, admit: Room -> bool, chatOf: Room -> Chat, keep: Chat -> bool)
    requires i <= |rooms|
    ensures var p := Select(rooms[..i], admit, chatOf, keep);
      var q := Select(rooms, admit, chatOf, keep);
      |p| <= |q| && q[..|p|] == p
    decreases |rooms|
  {
    if i < |rooms| {
      var init := rooms[..|rooms| - 1];
      SelectPrefix(init, i, admit, chatOf, keep);
      assert init[..i] == rooms[..i];
    } else {
      assert rooms[..i] == rooms;
    }
  }

  /** Each selected chat is the chat of an admitted room and is kept. */
  lemma {:induction false} SelectFacts(rooms: seq<Room>, admit: Room -> bool, chatOf: Room -> Chat, keep: Chat -> bool)
    ensures var l := Select(rooms, admit, chatOf, keep);
      |l| <= |rooms|
      && forall k :: 0 <= k < |l| ==>
        keep(l[k]) && exists j :: 0 <= j < |rooms| && admit(rooms[j]) && l[k] == chatOf(rooms[j])
    decreases |rooms|
  {
    if |rooms| > 0 {
      var init := rooms[..|rooms| - 1];
      SelectFacts(init, admit, chatOf, keep);
      var l := Select(rooms, admit, chatOf, keep);
      var before := Select(init, admit, chatOf, keep);
      forall k | 0 <= k < |l|
        ensures exists j :: 0 <= j < |rooms| && admit(rooms[j]) && l[k] == chatOf(rooms[j])
      {
        if k < |before| {
          var j :| 0 <= j < |init| && admit(init[j]) && before[k] == chatOf(init[j]);
          assert rooms[j] == init[j];
        } else {
          assert l[k] == chatOf(rooms[|rooms| - 1]);
        }
      }
    }
  }

  /**
   * Every listed chat is the chat of a room the cursor admits and belongs
   * to a requested account, when any are requested.
   */
  lemma ListedFacts(rooms: seq<Room>, direction: string, cursor: Option<ChatCursor>, accountIDs: seq<string>, ctx: ChatContext)
    ensures var l := Listed(rooms, direction, cursor, accountIDs, ctx);
      |l| <= |rooms|
      && forall k :: 0 <= k < |l| ==>
        (|accountIDs| == 0 || l[k].accountID in accountIDs)
        && exists j :: 0 <= j < |rooms| && AdmittedByCursor(rooms[j], direction, cursor)
             && l[k] == ChatOf(rooms[j], ctx, ChatPreviewParticipants)
  {
    var admit := CursorFilter(direction, cursor);
    var chatOf := ListedChat(ctx);
    var keep := AccountFilter(accountIDs);
    SelectFacts(rooms, admit, chatOf, keep);
    var l := Select(rooms, admit, chatOf, keep);
    forall k | 0 <= k < |l|
      ensures exists j :: (0 <= j < |rooms| && AdmittedByCursor(rooms[j], direction, cursor)
             && l[k] == ChatOf(rooms[j], ctx, ChatPreviewParticipants))
    {
      var j :| 0 <= j < |rooms| && admit(rooms[j]) && l[k] == chatOf(rooms[j]);
    }
  }

  /** The cursor a page hands out for one of its chats. */
  function PageCursor(chat: Chat): (c: ChatCursor)
    ensures c.roomID == chat.id
  {
    ChatCursor(chat.sortingTs, chat.id)
  }

  /** One page of the chat list. */
  datatype ChatPage = ChatPage(items: seq<Chat>, hasMore: bool, oldestCursor: Option<ChatCursor>, newestCursor: Option<ChatCursor>)

  /** An empty page has no cursors; otherwise the newest is the first chat's and the oldest the last chat's. */
  predicate CursorsAtEnds(page: ChatPage)
  {
    (page.items == [] ==> page.oldestCursor.None? && page.newestCursor.None?)
    && (page.items != [] ==> page.newestCursor == Some(PageCursor(page.items[0]))
                             && page.oldestCursor == Some(PageCursor(page.items[|page.items| - 1])))
  }

  /**
   * listChats after its parameters are parsed: at most one page of the
   * listed chats, `hasMore` when more follow, and cursors at both ends.
   */
  method ListChats(rooms: seq<Room>, direction: string, cursor: Option<ChatCursor>, accountIDs: seq<string>, ctx: ChatContext)
    returns (page: ChatPage)
    ensures var l := Listed(rooms, direction, cursor, accountIDs, ctx);
      page.hasMore <==> |l| > ChatPageSize
    ensures var l := Listed(rooms, direction, cursor, accountIDs, ctx);
      page.items == if |l| > ChatPageSize then l[..ChatPageSize] else l
    ensures CursorsAtEnds(page)
  {
    var items, i := CollectChats(rooms, direction, cursor, accountIDs, ctx);
    SelectPrefix(rooms, i, CursorFilter(direction, cursor), ListedChat(ctx), AccountFilter(accountIDs));
    if |items| <= ChatPageSize {
      assert rooms[..i] == rooms;
    }
    TruncatedPrefix(items, Listed(rooms, direction, cursor, accountIDs, ctx), ChatPageSize);
    var hasMore := |items| > ChatPageSize;
    if hasMore {
      items := items[..ChatPageSize];
    }
    page := PageOf(items, hasMore);
  }

  /**
   * Cutting to `n` a collected prefix that either overshoots `n` or is the
   * whole list gives the first `n` of the whole list.
   */
  lemma TruncatedPrefix(items: seq<Chat>, l: seq<Chat>, n: nat)
    requires |items| <= |l| && l[..|items|] == items
    requires |items| <= n ==> items == l
    ensures |items| > n <==> |l| > n
    ensures (if |items| > n then items[..n] else items) == (if |l| > n then l[..n] else l)
  {
    if |items| > n {
      assert l[..n] == l[..|items|][..n];
    }
  }

  /** A page of chats with its cursors: the oldest from the last chat, the newest from the first. */
  function PageOf(items: seq<Chat>, hasMore: bool): (page: ChatPage)
    ensures page.items == items && page.hasMore == hasMore
    ensures CursorsAtEnds(page)
  {
    if |items| > 0 then ChatPage(items, hasMore, Some(PageCursor(items[|items| - 1])), Some(PageCursor(items[0])))
    else ChatPage(items, hasMore, None, None)
  }

  /** The loop of listChats: collect listed chats until one more than a page is held. */
  method CollectChats(rooms: seq<Room>, direction: string, cursor: Option<ChatCursor>, accountIDs: seq<string>, ctx: ChatContext)
    returns (items: seq<Chat>, i: nat)
    ensures i <= |rooms| && |items| <= ChatPageSize + 1
    ensures items == Select(rooms[..i], CursorFilter(direction, cursor), ListedChat(ctx), AccountFilter(accountIDs))
    ensures |items| <= ChatPageSize ==> i == |rooms|
  {
    ghost var admit := CursorFilter(direction, cursor);
    ghost var chatOf := ListedChat(ctx);
    ghost var keep := AccountFilter(accountIDs);
    items := [];
    i := 0;
    while i < |rooms|
      invariant 0 <= i <= |rooms|
      invariant items == Select(rooms[..i], admit, chatOf, keep)
      invariant |items| <= ChatPageSize
    {
      assert rooms[..i + 1][..i] == rooms[..i];
      var room := rooms[i];
      assert rooms[..i + 1][i] == room;
      i := i + 1;
      if cursor.Some? {
        if direction == "before" && !RoomIsOlderThanCursor(room.sortingTs, room.id, cursor.value) {
          continue;
        }
        if direction == "after" && !RoomIsNewerThanCursor(room.sortingTs, room.id, cursor.value) {
          continue;
        }
      }
      var chat := MapRoomToChat(room, ctx, ChatPreviewParticipants);
      if |accountIDs| > 0 && !EqualsAny(chat.accountID, accountIDs) {
        continue;
      }
      items := items + [chat];
      if |items| > ChatPageSize {
        return;
      }
    }
  }

  /* ---------- page cursors ---------- */

  /** `room` comes after `chat` in the listing order: older, or as old with a larger ID. */
  predicate ComesAfter(room: Room, chat: Chat)
  {
    room.sortingTs < chat.sortingTs || (room.sortingTs == chat.sortingTs && Less(chat.id, room.id))
  }

  /**
   * The oldest cursor of a page admits, for "before", exactly the rooms that
   * come after its last chat in the listing order.
   */
  lemma OldestCursorContinuesPage(chat: Chat, room: Room)
    requires chat.id != ""
    ensures RoomIsOlderThanCursor(room.sortingTs, room.id, PageCursor(chat)) <==> ComesAfter(room, chat)
  {
  }

  /** The cursor listChats builds from the RFC 3339 text of a chat's last activity. */
  function PageCursorAsWritten(chat: Chat): (c: ChatCursor)
    ensures c.roomID == chat.id
  {
    ChatCursor(chat.lastActivity.UnwrapOr(0), chat.id)
  }

  /**
   * With the text-derived cursor, a room 300 ms older than the last chat of
   * a page, in the same second, is not older than the cursor, so the next
   * "before" page skips it.
   */
  lemma AsWrittenCursorSkipsSameSecond()
    ensures var last := ChatOf(Room("!b:beeper.local", None, None, 5_500, 0, Success([])), ChatContext(LookupOf([]), [], ""), 5);
      var next := Room("!a:beeper.local", None, None, 5_200, 0, Success([]));
      ComesAfter(next, last) && !RoomIsOlderThanCursor(next.sortingTs, next.id, PageCursorAsWritten(last))
  {
  }
}
