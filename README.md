# A verified model of the headless Matrix client's HTTP and realtime core

The headless Matrix client runs gomuks without a user interface. It serves a
local HTTP API in the style of the Beeper Desktop API: accounts and chats,
messages and reactions, search, assets, an OAuth 2.0 authorization server for
its own bearer tokens, management endpoints for logging gomuks in, and a
WebSocket hub at `/v1/ws`. The hub turns gomuks sync batches into
`chat.*` and `message.*` events for the chats each connection subscribed to.

This project models the decision logic of that server in Dafny, one module
per source file, and proves what the code promises about it:

- **The realtime hub** (ws_subscriptions, ws_mapper, ws_fingerprint,
  ws_commands and ws_hub; all from `internal/server/ws_events.go`).
  - Subscription lists are decoded, normalised and matched.
  - A sync batch is classified into domain events.
  - Fingerprints are debounced in a sliding-window cache.
  - The client registry is a `class` whose methods update it in place, and
    each connection's event `seq` is accounted for.
  - The command loop is a classifier from a frame to a reply.
- **OAuth** (oauth_scopes, oauth_state, oauth_endpoints).
  - Scopes are normalised.
  - The client, code and token maps live in a `class` with its prune, load
    and persist loops.
  - The public endpoints implement the authorization-code grant with PKCE
    (RFC 6749 section 4.1, RFC 7636 section 4.6), revocation (RFC 7009
    section 2.2) and registration.
- **Listing and search** (accounts_chats, search_actions, messages,
  server_params).
  - Cursor comparison and query-parameter parsers.
  - The filters of both searches.
  - Event-to-message mapping.
  - Reaction de-duplication.
  - The page loops that collect one item past the limit.
- **Small helpers** (manage, auth, api_errors, assets).
  - Beeper domain normalisation and gomuks command replies.
  - Bearer-token extraction and the token verifier.
  - The API error constructors and `Write`'s status rule.
  - Upload bounds and the local-path containment check.

Shared modules: `Wrappers` (Option/Result), `Text` (the parts of Go's
`strings`/`strconv` the server uses), `Sorting` (`sort.Strings` and
`sort.Slice` as one insertion sort proved ordered and a permutation),
`JsonValues` (decoded JSON) and `Clock` (instants in milliseconds).

Times are integer milliseconds. Go's zero `time.Time` is
`Clock.ZeroTimeMs`. The database, gomuks, the network, random tokens, hashes
and decoders appear as parameters or inputs. Go map iteration order appears
as the order of an input sequence.

## Model

| member | source | states |
|---|---|---|
| WsSubscriptions.TrimmedNonBlank | internal/server/ws_events.go:516-526 | each kept identifier is the trimmed form of an input element, none is blank, and every non-blank element is kept, in input order |
| WsSubscriptions.IdSetElements | internal/server/ws_events.go:529-561 | the identifiers a list subscribes to are exactly the elements of its trimmed, non-blank form |
| WsSubscriptions.TrimmedNonBlankMembers | internal/server/ws_events.go:516-526 | an identifier is in the trimmed list exactly when it is non-blank and the trimming of some input element |
| WsSubscriptions.IdSetClean | internal/server/ws_events.go:529-561 | every identifier a list subscribes to is trimmed and non-blank |
| WsSubscriptions.TrimmedNonBlankOfClean | internal/server/ws_events.go:516-526 | a list of clean identifiers is left unchanged by trimming and dropping blanks |
| WsSubscriptions.StringsOf | internal/server/ws_events.go:516-525 | the strings of an all-string JSON array, one per item, in order |
| WsSubscriptions.DecodeChatIDs | internal/server/ws_events.go:510-527 | a non-array value, or an array holding any non-string, is refused; otherwise the result is the trimmed, non-blank strings in order |
| WsSubscriptions.NormalizeChatIDs | internal/server/ws_events.go:529-561 | the method returns the strictly sorted, duplicate-free set of trimmed non-blank IDs, and is valid exactly when `*` is not mixed with another ID; `*` alone gives `["*"]`, an empty list gives `[]` |
| WsSubscriptions.IsSubscribed | internal/server/ws_events.go:563-573 | an empty list matches nothing; otherwise a chat matches exactly when the list holds `*` or the chat ID |
| WsSubscriptions.NormalizationUnique | internal/server/ws_events.go:529-561 | two normalisations of the same list are equal |
| WsSubscriptions.NormalizeIdempotent | internal/server/ws_events.go:529-561 | normalising an already normalised list is accepted and returns it unchanged |
| WsSubscriptions.WildcardStandsAlone | internal/server/ws_events.go:542-557 | a normalised list containing `*` is exactly `["*"]` |
| WsSubscriptions.SubscriptionSemantics | internal/server/ws_events.go:563-573 | after subscribing with a list, a connection receives every chat when it asked for `*`, else exactly the listed chats |
| WsSubscriptions.DecodeThenNormalize | internal/server/ws_events.go:481-495 | decoding before normalising does not change the normalised list |
| WsMapper.UpsertTarget | internal/server/ws_events.go:619-631 | the upserted message is the relation target for a reaction or an edit and the event itself otherwise; it is trimmed, and a blank target gives none |
| WsMapper.KeysSorted | internal/server/ws_events.go:667-676 | the result is strictly sorted, holds no blank key, and its elements are exactly the non-blank keys |
| WsMapper.KeysSortedIs | internal/server/ws_events.go:667-676 | the result of mapKeysSorted is the one strictly sorted list of the non-blank keys |
| WsMapper.MapKeysSorted | internal/server/ws_events.go:667-676 | the method, with its collecting loop and sort, returns KeysSorted of the key set |
| WsMapper.CollectRoom | internal/server/ws_events.go:604-638 | the loop over one room's events collects exactly the chat-touched flag, the upserted IDs and the deleted IDs of the room's specification |
| WsMapper.ScanEvent | internal/server/ws_events.go:605-636 | one event gives exactly whether it touches the chat, the message ID it upserts and the message ID it deletes, as the room's specification defines them |
| WsMapper.MapSyncComplete | internal/server/ws_events.go:575-665 | the method returns the left-room events followed by each room's events, as the specification of the batch defines them |
| WsMapper.MapRoom | internal/server/ws_events.go:590-662 | a blank or missing room yields nothing; otherwise the room yields its chat, upsert and delete events as specified |
| WsMapper.UpsertSetMembers | internal/server/ws_events.go:619-631 | an ID is upserted exactly when some message, sticker or reaction event of the room targets it |
| WsMapper.DeleteSetMembers | internal/server/ws_events.go:611-618 | an ID is deleted exactly when some redaction names it, or some redacted non-redaction event has it as its ID |
| WsMapper.RoomEventsShape | internal/server/ws_events.go:640-661 | one room yields at most one event of each kind, in the order chat, message upsert, message delete; each has the room's chat ID and sorted, distinct, non-blank IDs, and a chat event's IDs are `[chatID]` |
| WsMapper.UpsertedIdAnnounced | internal/server/ws_events.go:619-654 | a message, sticker or reaction event whose target is `x` puts `x` into the room's `message.upserted` IDs |
| WsMapper.RedactionAnnounced | internal/server/ws_events.go:611-614 | a redaction of a non-blank ID puts that ID into the room's `message.deleted` IDs |
| WsMapper.LeftEventsMembers | internal/server/ws_events.go:578-588 | each non-blank left room yields exactly one `chat.deleted` event with IDs `[chatID]`, and the left rooms yield nothing else |
| WsFingerprint.Normalize | internal/server/ws_events.go:691-722 | the normalised value has the same shape: arrays keep their length, objects keep exactly their non-volatile keys |
| WsFingerprint.NormalizeFixesClean | internal/server/ws_events.go:691-722 | a value without `ts` or `timestamp` keys at any depth is already normalised |
| WsFingerprint.NormalizeIdempotent | internal/server/ws_events.go:691-722 | normalising twice is normalising once |
| WsFingerprint.NormalizeIgnoresVolatile | internal/server/ws_events.go:702-711 | changing or removing a `ts` or `timestamp` key of an object does not change its normalisation |
| WsFingerprint.NormalizeCongruent | internal/server/ws_events.go:691-722 | values that normalise alike, placed under the same non-volatile keys, normalise alike, so the rule holds at every depth |
| WsFingerprint.EntriesValue | internal/server/ws_events.go:678-689 | the entries become one JSON array with one object per record, in order |
| WsFingerprint.Fingerprint | internal/server/ws_events.go:678-689 | the fingerprint is an object holding the event's type, chat ID and IDs, plus the normalised entries exactly when there are some |
| WsFingerprint.FingerprintAsWritten | internal/server/ws_events.go:678-722 | the code as written: records reach the default case and keep their volatile keys |
| WsFingerprint.FingerprintSeparatesEvents | internal/server/ws_events.go:678-689 | events that differ in type, chat ID or IDs never share a fingerprint, whatever their entries |
| WsFingerprint.FingerprintIgnoresVolatile | internal/server/ws_events.go:691-722 | entries that differ only in volatile keys give the same fingerprint |
| WsFingerprint.AsWrittenKeepsTimestamp | internal/server/ws_events.go:691-722 | as written, one message hydrated at two timestamps gives two fingerprints |
| WsCommands.RequestIDOf | internal/server/ws_events.go:433 | the echoed request ID is the `requestID` member when it is a string, else "" |
| WsCommands.FindUnexpectedKey | internal/server/ws_events.go:453-463 | the scan finds an unexpected key exactly when the object has a key other than `type`, `requestID` and `chatIDs`, and what it returns is such a key |
| WsCommands.InterpretCommand | internal/server/ws_events.go:398-507 | the method's reply for a frame is the one the command classifier gives, checked in the handler's order |
| WsCommands.UpdatedIff | internal/server/ws_events.go:398-501 | a frame updates the subscription exactly when it is a text object of type `subscriptions.set` with only known keys, and its `chatIDs` is a string array that does not mix `*` with IDs |
| WsCommands.UpdatedListNormalized | internal/server/ws_events.go:481-506 | the list a client is given is normalised and denotes exactly the set of identifiers it asked for |
| WsCommands.ErrorCodes | internal/server/ws_events.go:398-500 | every error uses INVALID_PAYLOAD or INVALID_COMMAND, and only an unsupported type gives INVALID_COMMAND |
| WsCommands.RequestIDEchoed | internal/server/ws_events.go:433-506 | once the payload is an object, every reply echoes its string request ID |
| WsCommands.NoObjectNoRequestID | internal/server/ws_events.go:403-429 | a frame that is not a JSON object is answered with an empty request ID |
| WsCommands.ResubscribeIsStable | internal/server/ws_events.go:481-506 | sending back the list a client was given is accepted and yields that same list |
| WsHub.PruneOnlyRemoves | internal/server/ws_events.go:264-274 | a prune only removes cache entries and keeps the time of each entry it keeps |
| WsHub.PruneRemovesStale | internal/server/ws_events.go:268-273 | once the interval has passed, an entry survives exactly when it was seen no more than 30 s ago, and the prune time becomes now |
| WsHub.PruneRateLimited | internal/server/ws_events.go:265-267 | within 5 s of the last prune, the cache and the prune time are unchanged |
| WsHub.RecordedSurvivesPrune | internal/server/ws_events.go:257-259 | after recording, the fingerprint is cached with the current time, whatever the prune does |
| WsHub.DebounceWindow | internal/server/ws_events.go:257-261 | a fingerprint recorded at t1 is a duplicate at t2 exactly when t2 - t1 < 250 ms |
| WsHub.UnseenIsNotDuplicate | internal/server/ws_events.go:261 | a fingerprint not in the cache is never a duplicate |
| WsHub.SeqsAccountedStep | internal/server/ws_events.go:214-227 | one delivery keeps the seq accounting: each target that stays registered gets exactly the next seq |
| WsHub.EventWrites | internal/server/ws_events.go:214-227 | the event messages of one delivery go out in target order, each with its target's next seq, and failed writes are left out |
| WsHub.SeqsToEventWrites | internal/server/ws_events.go:214-227 | one delivery writes at most one event to each connection: the next seq to a target, nothing to others |
| WsHub.Hub.constructor | internal/server/ws_events.go:109-116 | a new hub has no clients, an empty cache, an empty queue and no subscription yet |
| WsHub.Hub.Register | internal/server/ws_events.go:172-176 | the connection now maps to `state`, replacing an earlier one, and nothing else changes |
| WsHub.Hub.Unregister | internal/server/ws_events.go:178-182 | the connection is removed, and removing an unknown one changes nothing |
| WsHub.Hub.SetSubscriptions | internal/server/ws_events.go:184-190 | only a registered connection's list changes, its seq stays the same, and an unknown connection is not added |
| WsHub.Hub.SubscribedTargets | internal/server/ws_events.go:236-250 | the targets are exactly the registered connections whose list matches the chat, each once |
| WsHub.Hub.PruneFingerprints | internal/server/ws_events.go:264-274 | the deleting loop leaves the cache and prune time that the prune specification gives |
| WsHub.Hub.DropDuplicate | internal/server/ws_events.go:252-262 | the result is true exactly when the event's corrected fingerprint was seen less than 250 ms earlier; the cache becomes the record-then-prune state |
| WsHub.Hub.Write | internal/server/ws_events.go:276-291 | a successful write appends the message to the outbox; a failed one unregisters the connection |
| WsHub.Hub.Enqueue | internal/server/ws_events.go:119-126 | an event is appended when the queue has room (512) and dropped otherwise, without blocking |
| WsHub.Hub.EnsureSubscription | internal/server/ws_events.go:118-135 | only the first call subscribes and starts the run loop on success; every call returns the error the first call recorded |
| WsHub.Hub.ProcessEvent | internal/server/ws_events.go:194-227 | the event is processed as `EventProcessed` says: skipped without a subscriber or with a failed or empty hydration; else its fingerprint is recorded and it is delivered exactly when not seen within 250 ms; the entries of a subscribed upsert that hydrates are the hydrated ones, duplicate or not, and a delivery only follows a good hydration; a delivery goes to exactly the subscribed connections, each seq one higher, a failed write unregistering its connection |
| WsHub.Hub.ProcessSyncComplete | internal/server/ws_events.go:192-229 | the batch is one processed step per mapped event, in order, each at its own time and starting where the previous left off, from the hub before to the hub after; the outbox gains exactly each step's event writes in event order; each event's failed writes are its own (`broken(i)`), and a connection leaves the registry only when one of its writes failed during the batch; every connection still registered keeps its list and has received consecutive seqs; the queue and the subscription state are unchanged |
| WsHub.BatchEventAt | internal/server/ws_events.go:194-227 | the i-th step of a batch is the processing of the i-th event at `clock(i)` |
| WsHub.BatchStarts | internal/server/ws_events.go:192-194 | a batch's first step starts from the hub as it was |
| WsHub.BatchLinked | internal/server/ws_events.go:192-194 | each step of a batch starts from the hub the previous step left |
| WsHub.BatchSnoc | internal/server/ws_events.go:192-229 | processing one more event extends a batch by that step |
| WsHub.BatchWritesSnoc | internal/server/ws_events.go:210-227 | a batch's writes grow by exactly the new step's event writes |
| WsHub.StepOutbox | internal/server/ws_events.go:210-227 | helper for the batch proofs: reads off `EventProcessed` the outbox equation of one step and that its targets were registered when it started |
| WsHub.Hub.ProcessAccounted | internal/server/ws_events.go:194-227 | one iteration of the batch loop: the k-th event is processed at `clock(k)` with the writes to `broken(k)` failing, the batch grows by that step, the outbox by its writes, and the seq accounting against the registry at the start of the batch is kept; a connection that left is among the failures so far |
| WsHub.Hub.HandleFrame | internal/server/ws_events.go:398-507 | the reply for a frame is written, and an accepted list becomes the connection's subscription; nothing else changes |
| WsHub.Hub.Connect | internal/server/ws_events.go:371-397 | a subscription failure is returned before registering; otherwise the connection is registered with seq 0 and no chats, and `ready` (version 1) is written |
| WsHub.Hub.Disconnect | internal/server/ws_events.go:387-390 | the connection is unregistered when the handler ends |
| WsHub.Hub.RunStep | internal/server/ws_events.go:137-153 | the oldest queued event is taken; a completed sync is processed as a batch of its mapped events, the outbox gaining their writes in order; any other event, or an empty queue, changes neither registry, outbox nor fingerprint cache; the subscription state and the running flag never change |
| WsHub.Hub.DeliverToTargets | internal/server/ws_events.go:214-227 | for each target in turn the seq is raised, then the event is written with that seq |
| WsHub.Hub.DeliverTo | internal/server/ws_events.go:215-226 | the target's seq rises by one and the event goes out with the new seq; a failed write drops the target instead |
| OAuthScopes.KnownInOrderFacts | internal/server/connect_oauth.go:71-88 | the kept scopes are known and distinct, and are exactly the known trimmed parts |
| OAuthScopes.KnownIsWord | internal/server/connect_oauth.go:74-80 | both known scopes are non-empty words without white space |
| OAuthScopes.NormalizeScopes | internal/server/connect_oauth.go:65-96 | the method's loop returns the specified scope list: known scopes in first-appearance order, with `read` first when absent |
| OAuthScopes.ScopesWellFormed | internal/server/connect_oauth.go:65-96 | every granted list holds `read`, only `read`/`write`, and no duplicate |
| OAuthScopes.ScopesCharacterised | internal/server/connect_oauth.go:65-96 | `write` is granted exactly when some word of the input is `write`, and blank input grants only `read` |
| OAuthScopes.TrimOfWord | internal/server/connect_oauth.go:71-73 | a word without white space trims to itself |
| OAuthScopes.ScopeString | internal/server/connect_oauth.go:98-103 | no scopes give `read`; a list of words is given back by splitting the result on white space |
| OAuthScopes.FieldsOfJoinSpaced | internal/server/connect_oauth.go:98-103 | splitting a space-joined list of words gives the list back |
| OAuthScopes.ScopeStringRoundTrip | internal/server/connect_oauth.go:65-103 | writing a granted list as a scope string and normalising it again gives the same list |
| OAuthScopes.KnownOfDistinctKnown | internal/server/connect_oauth.go:71-88 | a list of distinct known scopes keeps itself |
| OAuthScopes.VerifyPKCES256 | internal/server/connect_oauth.go:105-112 | true exactly when both verifier and challenge are non-empty and the S256 transform of the verifier equals the challenge |
| OAuthState.LookupToken | internal/server/connect_oauth.go:172-189 | a token is found exactly when it is non-blank, stored, not revoked and not expired, and the stored record is returned |
| OAuthState.PruneKeepsLookups | internal/server/connect_oauth_store.go:144-155 | pruning never changes what a lookup at the same instant finds |
| OAuthState.PruneMonotone | internal/server/connect_oauth_store.go:135-156 | a later prune removes every code and token an earlier one did |
| OAuthState.IssuedTokenLifetime | internal/server/connect_oauth.go:191-218 | an issued token is found under its own value exactly until 24 hours after issue |
| OAuthState.StaticTokenLives | internal/server/connect_oauth.go:136-150 | the static token is found at every instant, survives every prune and is never in the persisted state |
| OAuthState.PersistLoadRoundTrip | internal/server/connect_oauth_store.go:96-133 | loading at the same instant a state just persisted gives back exactly the codes and tokens written |
| OAuthState.LoadedTokensLive | internal/server/connect_oauth_store.go:61-76 | every token a load keeps is found by a lookup at that instant, so no static, revoked or expired token is loaded |
| OAuthState.FilterMap | internal/server/connect_oauth_store.go:109-126 | the copying loop keeps exactly the entries the filter accepts |
| OAuthState.KeepClients | internal/server/connect_oauth_store.go:45-50 | the clients kept are exactly those whose key and client ID are not blank |
| OAuthState.KeepCodes | internal/server/connect_oauth_store.go:114-119 | the codes saved are exactly those whose key and code are not blank |
| OAuthState.KeepTokens | internal/server/connect_oauth_store.go:120-125 | the tokens saved are exactly the non-static ones whose key and value are not blank |
| OAuthState.KeepLiveCodes | internal/server/connect_oauth_store.go:51-60 | the codes loaded are exactly the well-keyed ones that have not expired |
| OAuthState.KeepLiveTokens | internal/server/connect_oauth_store.go:61-73 | the tokens loaded are exactly the well-keyed, non-static, unrevoked ones that have not expired |
| OAuthState.MergeMap | internal/server/connect_oauth_store.go:78-86 | the merging loop gives the old map overridden by the new entries |
| OAuthState.OAuthStore.constructor | internal/server/server.go:39-42 | the three maps are empty and the subject is `local-user` |
| OAuthState.OAuthStore.InitOAuthState | internal/server/connect_oauth.go:136-150 | the static token is stored with `Static`, scopes read/write and no expiry; nothing else changes |
| OAuthState.OAuthStore.IssueAccessToken | internal/server/connect_oauth.go:191-218 | a random-source failure changes nothing; otherwise a bearer token expiring in 24 hours is stored under its own value |
| OAuthState.OAuthStore.CreateAuthorizationCode | internal/server/connect_oauth.go:220-252 | a random-source failure changes nothing; otherwise a code expiring in 5 minutes is stored under its value |
| OAuthState.OAuthStore.PopAuthorizationCode | internal/server/connect_oauth.go:254-266 | the code is removed whether or not it expired, and is returned exactly when it existed and had not expired |
| OAuthState.OAuthStore.Prune | internal/server/connect_oauth_store.go:135-156 | the loops delete expired codes (a zero expiry never expires) and revoked or expired non-static tokens, exactly |
| OAuthState.OAuthStore.PruneCodes | internal/server/connect_oauth_store.go:136-143 | the first loop deletes exactly the codes with a non-zero expiry that has passed, and nothing else changes |
| OAuthState.OAuthStore.PruneTokens | internal/server/connect_oauth_store.go:144-155 | the second loop deletes exactly the non-static tokens that are revoked or past their expiry, and nothing else changes |
| OAuthState.OAuthStore.Persist | internal/server/connect_oauth_store.go:96-133 | without a state path nothing happens; otherwise the state is pruned, and the saved document holds only well-keyed entries and no static token |
| OAuthState.OAuthStore.Load | internal/server/connect_oauth_store.go:23-88 | a blank path or missing file changes nothing; a read or parse error or a version other than 1 fails without changes; otherwise the acceptable entries are merged in, then pruned |
| OAuthState.OAuthStore.MergeLoaded | internal/server/connect_oauth_store.go:44-87 | the clients are merged, and the codes and tokens are merged then pruned |
| OAuthEndpoints.RequestScheme | internal/server/connect_public.go:19-25 | the first forwarded protocol when present; else `https` exactly under TLS, `http` otherwise |
| OAuthEndpoints.RequestHost | internal/server/connect_public.go:26-33 | the first forwarded host, else the trimmed Host, else the listen address |
| OAuthEndpoints.RequestBaseURL | internal/server/connect_public.go:18-35 | the base URL starts with the scheme and `://` and ends with the host |
| OAuthEndpoints.ProtectedResourcePath | internal/server/connect_public.go:115-130 | only `/v0` and `/v1` are ever served |
| OAuthEndpoints.ProtectedResourcePathsServed | internal/server/connect_public.go:115-130 | the bare prefix and the prefix with `/` map to `/v1`, `/v1` and `/v0/` are served, and `/v2` is refused |
| OAuthEndpoints.AuthorizeAcceptedIff | internal/server/connect_public.go:178-231 | a request passes exactly when response type is `code`, the client ID and redirect URI are present, the method is S256 with a challenge, the redirect parses, and a registered client's non-empty list contains it |
| OAuthEndpoints.CheckAuthorize | internal/server/connect_public.go:167-231 | the checks run in the handler's order, and the message returned is that of the first failing check, or none when the request may have a code |
| OAuthEndpoints.RedirectAllowed | internal/server/connect_public.go:217-231 | the loop allows an empty list and otherwise exactly a listed URI |
| OAuthEndpoints.Authorize | internal/server/connect_public.go:167-250 | a rejection stores nothing; otherwise a 5-minute code for the normalised scopes is stored and the redirect carries it and the state |
| OAuthEndpoints.AuthorizeCallback | internal/server/connect_public.go:252-293 | a code is stored for the callback URN, under the named client or `unregistered-client`; a random failure stores nothing |
| OAuthEndpoints.BodyValue | internal/server/connect_public.go:304-316 | strings are kept as they are, booleans and numbers are formatted so they read back, and other values are dropped |
| OAuthEndpoints.ParseBodyValues | internal/server/connect_public.go:295-325 | a JSON body yields its scalar members and a form yields each field's first value; decode failures are returned |
| OAuthEndpoints.CollectJsonValues | internal/server/connect_public.go:304-313 | the loop over the decoded object keeps exactly the members with a string, number or boolean value, each as its text |
| OAuthEndpoints.CollectFormValues | internal/server/connect_public.go:318-322 | the loop over the form keeps exactly the fields with a value, each with its first value |
| OAuthEndpoints.ExchangeEnforcesPKCE | internal/server/connect_public.go:360-372 | a code with a challenge is exchanged only with a non-empty verifier whose S256 transform is that challenge |
| OAuthEndpoints.ExchangeClientCheck | internal/server/connect_public.go:352-355 | the client mismatch fires exactly when both client IDs are named and differ |
| OAuthEndpoints.Token | internal/server/connect_public.go:327-393 | only the authorization-code grant is accepted; the code is consumed before other checks; an unknown or expired code is `invalid_grant`; for a live code the first failing exchange check is the reply, a generator failure is `failed to issue access token: …`, and otherwise a bearer token is issued with the code's client and scopes; a token is stored only on success |
| OAuthEndpoints.Revoke | internal/server/connect_public.go:416-435 | the reply is always `{}`; only a known non-static token is marked revoked, and the state is then persisted |
| OAuthEndpoints.RegisteredClient | internal/server/connect_public.go:499-524 | the defaults are `Unknown Client`, `["authorization_code"]`, `["code"]`, `none` and the scopes of `read write`; `createdAt` is the Unix second containing the registration instant |
| OAuthEndpoints.RegisterDefaultScope | internal/server/connect_public.go:499-513 | with no scope requested, a client is registered for read and write |
| OAuthEndpoints.ReadWriteScopes | internal/server/connect_oauth.go:65-96 | `read write` normalises to read, write, in that order |
| OAuthEndpoints.Register | internal/server/connect_public.go:481-549 | the client is stored, then the state is persisted; a failed write is reported but the client stays registered |
| OAuthEndpoints.FocusPageStatus | internal/server/connect_public.go:557-569 | the status is 400 exactly for a draft without a chat, and 200 otherwise |
| ApiErrors.AsApiError | internal/errors/errors.go:63-67 | the first APIError along the wrapping chain, and none for plain errors |
| ApiErrors.Error | internal/errors/errors.go:16-18 | the text of an APIError is its message |
| ApiErrors.New | internal/errors/errors.go:20-22 | the error carries the given status, code, message and details |
| ApiErrors.Validation | internal/errors/errors.go:24-26 | a 400 `VALIDATION_ERROR` with message "Invalid input" that carries the details |
| ApiErrors.FieldProblem | internal/errors/errors.go:24-26 | the details object names one field and its problem |
| ApiErrors.Unauthorized | internal/errors/errors.go:28-33 | a 401 `unauthorized` with the message, or its default when the message is empty |
| ApiErrors.Forbidden | internal/errors/errors.go:35-40 | a 403 `forbidden` with the message, or "Forbidden" when it is empty |
| ApiErrors.NotFound | internal/errors/errors.go:42-47 | a 404 `NOT_FOUND` with the message, or "Not found" when it is empty |
| ApiErrors.NotImplemented | internal/errors/errors.go:49-54 | a 501 `NOT_IMPLEMENTED` with the message, or "Not implemented" when it is empty |
| ApiErrors.Internal | internal/errors/errors.go:56-61 | a 500 `INTERNAL_ERROR` whose message is the wrapped error's text, or "Internal error" for nil |
| ApiErrors.DefaultMessagesNonEmpty | internal/errors/errors.go:28-61 | the constructors with defaults never produce an empty message |
| ApiErrors.WriteStatusSelection | internal/errors/errors.go:63-71 | Write keeps an APIError's own status even when wrapped, and answers 500 for anything else, nil included |
| ApiErrors.WriteWrapsOtherErrors | internal/errors/errors.go:63-67 | an error without an APIError in its chain is written as a 500 carrying its own text |
| ApiErrors.ConstructorsKeepStatus | internal/errors/errors.go:20-71 | every constructor's error reaches the client with its own status: 400, 401, 403, 404, 501 or 500 |
| ServerParams.ParseDirection | internal/server/server.go:186-195 | blank gives `before`; only `before` and `after` are accepted, anything else is a validation error |
| ServerParams.ParseDirectionIdempotent | internal/server/server.go:186-195 | a direction the parser produced reads back as itself |
| ServerParams.ParseParticipantLimit | internal/server/server.go:197-209 | blank gives -1; otherwise only an integer in [-1, 500] is accepted |
| ServerParams.ParticipantLimitRoundTrip | internal/server/server.go:197-209 | every limit in [-1, 500] written in decimal is accepted as itself |
| ServerParams.ParseMessageCursor | internal/server/server.go:211-226 | blank gives 0, a decimal int64 is taken as it stands, else the decoded row ID, which must be non-zero |
| ServerParams.MessageCursorRoundTrip | internal/server/server.go:211-226 | an encoded cursor for a non-zero row reads back as that row |
| ServerParams.MessageCursorDecimal | internal/server/server.go:214-216 | a row ID written in decimal is accepted without decoding |
| ServerParams.ParseChatCursor | internal/server/server.go:228-243 | blank gives no cursor, a decimal gives a cursor with that timestamp and no room, else the decoded cursor, whose timestamp must be non-zero |
| ServerParams.ChatCursorRoundTrip | internal/server/server.go:228-243 | a cursor encoded for a room with a non-zero timestamp reads back unchanged |
| ServerParams.ChatCursorDecimal | internal/server/server.go:231-233 | a decimal timestamp becomes a cursor with no room ID |
| ServerParams.AccountIDsClean | internal/server/server.go:245-256 | every account ID the list yields is trimmed, non-blank and comma-free |
| ServerParams.SplitJoin | internal/server/server.go:245-256 | splitting a comma-joined list of comma-free parts gives the parts back |
| ServerParams.NonEmptyTrimmedOfClean | internal/server/server.go:245-256 | clean parts pass the trim-and-drop filter unchanged |
| ServerParams.AccountIDsRoundTrip | internal/server/server.go:245-256 | a comma-joined list of account IDs passed as one value reads back exactly |
| ServerParams.EqualsAny | internal/server/server.go:258-265 | true exactly when the value is one of the candidates |
| ServerParams.ReadChatID | internal/server/server.go:173-184 | the path value, else the body value, else the query value, else "" |
| ServerParams.FirstErr | internal/server/server.go:267-274 | the first error that is neither nil nor ErrNotSupported, and none when there is no such error |
| ServerParams.RequireBeeperHomeserver | internal/server/server.go:143-157 | no session is a 403 asking for a Beeper session; otherwise the trimmed, lower-cased host must be one of the three Beeper homeservers, else a 403 saying only Beeper homeservers are supported |
| ServerParams.HomeserverCheckIgnoresCase | internal/server/server.go:143-157 | the check ignores letter case and surrounding white space of the host, and refuses other hosts and the bare `beeper.com` |
| AccountsChats.OlderAndNewerExclusive | internal/server/accounts_chats.go:318-344 | no room is both older and newer than one cursor |
| AccountsChats.CursorSplitsRooms | internal/server/accounts_chats.go:318-344 | with a room ID in the cursor every other room is exactly one of older or newer; with none, a room at the cursor's timestamp is neither |
| AccountsChats.ConfiguredAccountCharacterised | internal/server/accounts_chats.go:174-191 | a login counts exactly when its state is set and not DELETED, and either no device is asked about or the device is listed and neither DELETED nor LOGGED_OUT, ignoring case |
| AccountsChats.DeletedStateIgnoresCase | internal/server/accounts_chats.go:174-191 | a lower-case `deleted` login state and a lower-case `logged_out` device are both refused |
| AccountsChats.BridgeIDFromAccountID | internal/server/accounts_chats.go:193-198 | the text before the first `_` when that is not at the start, else "" |
| AccountsChats.BridgeIDRoundTrip | internal/server/accounts_chats.go:193-198 | an account ID built from an underscore-free bridge and a remote ID gives the bridge back |
| AccountsChats.RoomServerPart | internal/server/accounts_chats.go:483-489 | what follows the first `:`, else "" |
| AccountsChats.RoomServerPartOf | internal/server/accounts_chats.go:483-489 | the server part of `!local:server` is `server` |
| AccountsChats.FirstString | internal/server/accounts_chats.go:498-512 | the trimmed value of the first key holding a non-blank string, else "" |
| AccountsChats.NetworkFromBridgeID | internal/server/accounts_chats.go:525-560 | the display name of a bridge: a `local-` prefix is ignored, known bridges have fixed names, "" is Unknown, and others whose first character is ASCII have it upper-cased |
| AccountsChats.NetworkIgnoresLocalPrefix | internal/server/accounts_chats.go:526 | a local bridge has the same network name as the hosted one |
| AccountsChats.NetworkNames | internal/server/accounts_chats.go:525-560 | concrete names: `local-whatsapp` is WhatsApp, `discordgo` is Discord, an empty ID and a bare `local-` are Unknown, and `matrix`, which has no fixed name, is capitalised to Matrix |
| AccountsChats.LookupOf | internal/server/accounts_chats.go:63-81 | the lookup holds the accounts in order |
| AccountsChats.AddAccount | internal/server/accounts_chats.go:72-79 | one step indexes the account by its ID and appends it to its bridge's list |
| AccountsChats.AddAccountWellFormed | internal/server/accounts_chats.go:72-79 | adding an account keeps the lookup well formed |
| AccountsChats.LookupOfWellFormed | internal/server/accounts_chats.go:63-81 | the lookup indexes exactly its accounts, each by its ID and its bridge |
| AccountsChats.LookupOfIndexesAll | internal/server/accounts_chats.go:63-81 | every account is indexed by its ID, and by its bridge when it has one |
| AccountsChats.BuildAccountLookup | internal/server/accounts_chats.go:63-81 | the method's loop builds the specified lookup |
| AccountsChats.InferAccountForRoom | internal/server/accounts_chats.go:448-481 | the loop returns the inferred account: ("", "Unknown") with no accounts, the first matching bridge's account, else the first account |
| AccountsChats.InferFromFacts | internal/server/accounts_chats.go:456-478 | no account is inferred exactly when no bridge occurs in the server part; otherwise the first occurring bridge decides, and the account belongs to it |
| AccountsChats.LongestMatch | internal/server/accounts_chats.go:453-478 | with the bridges tried longest first, no account is inferred exactly when no bridge occurs in the server part; otherwise the account belongs to a matching bridge at least as long as every other match |
| AccountsChats.LongestBridgeWins | internal/server/accounts_chats.go:448-481 | with bridges tried longest first, a room whose server part contains a bridge ID gets an account of a matching bridge no shorter than any other match |
| AccountsChats.CollectedFacts | internal/server/accounts_chats.go:407-440 | the collected users are distinct participants, one per joined or invited user ID |
| AccountsChats.PermutationKeepsDistinctIds | internal/server/accounts_chats.go:441-444 | sorting keeps the user IDs distinct |
| AccountsChats.ParticipantsCharacterised | internal/server/accounts_chats.go:397-446 | only joined or invited members with a state key are listed, each once with its first name, every such user is listed, the list is ordered by full name then ID, and the total is its length |
| AccountsChats.ParticipantsOfFailedQuery | internal/server/accounts_chats.go:399-402 | a failed member query yields no participants and total 0 |
| AccountsChats.LoadRoomParticipants | internal/server/accounts_chats.go:397-446 | the method's collecting loop and sort return the specified participants and their count |
| AccountsChats.Shown | internal/server/accounts_chats.go:349-354 | at most the limit is shown (a negative limit shows all), and the shown list is a prefix |
| AccountsChats.ActivityOf | internal/server/accounts_chats.go:382-384 | a positive sorting timestamp becomes its whole second; a non-positive one gives no activity |
| AccountsChats.ChatOfFacts | internal/server/accounts_chats.go:346-395 | the chat has the room's ID, its trimmed name or else its ID as title, `single` exactly for a non-empty DM user, the full participant count, and at most the limit of participants |
| AccountsChats.MapRoomToChat | internal/server/accounts_chats.go:346-395 | the method returns the specified chat of the room |
| AccountsChats.SelectPrefix | internal/server/accounts_chats.go:219-240 | selecting from a prefix of the rooms selects a prefix of the chats |
| AccountsChats.SelectFacts | internal/server/accounts_chats.go:219-240 | each selected chat is the chat of an admitted room and passes the filter |
| AccountsChats.ListedFacts | internal/server/accounts_chats.go:219-240 | every listed chat is the chat of a room the cursor admits, and belongs to a requested account when any are requested |
| AccountsChats.PageCursor | internal/server/accounts_chats.go:247-258 | a page cursor names the chat's room |
| AccountsChats.ListChats | internal/server/accounts_chats.go:200-266 | at most one page (25) of the listed chats, `hasMore` exactly when more are listed, and cursors at both ends of a non-empty page |
| AccountsChats.CollectChats | internal/server/accounts_chats.go:219-240 | the loop holds the listed chats of the rooms read so far, at most one past a page, and reads all rooms unless it stopped on that extra chat |
| AccountsChats.OldestCursorContinuesPage | internal/server/accounts_chats.go:318-330 | the oldest cursor admits, for `before`, exactly the rooms after the page's last chat in listing order |
| AccountsChats.PageCursorAsWritten | internal/server/accounts_chats.go:250-253 | the code as written: the cursor's timestamp is the last activity read back from its RFC 3339 text |
| AccountsChats.AsWrittenCursorSkipsSameSecond | internal/server/accounts_chats.go:247-258 | as written, a room 300 ms older than the page's last chat, in the same second, is not older than the cursor |
| SearchActions.ParseOptionalLimit | internal/server/search_actions.go:786-799 | blank gives the default; otherwise only an integer in [min, max] is accepted, else a validation error on the field |
| SearchActions.OptionalLimitRoundTrip | internal/server/search_actions.go:786-799 | every limit in range written in decimal reads back as itself |
| SearchActions.ParseOptionalBool | internal/server/search_actions.go:801-811 | blank gives the default; otherwise strconv.ParseBool of the trimmed text, else a validation error |
| SearchActions.OptionalBoolRoundTrip | internal/server/search_actions.go:801-811 | a flag written by FormatBool reads back, whatever the default |
| SearchActions.ParseOptionalTime | internal/server/search_actions.go:813-823 | blank gives none; otherwise the parsed instant, else a validation error on the field |
| SearchActions.ParseEnumList | internal/server/search_actions.go:756-784 | the comma-separated trimmed non-empty parts, refused when any is not allowed |
| SearchActions.EnumListRoundTrip | internal/server/search_actions.go:756-784 | a comma-joined list of allowed values reads back exactly |
| SearchActions.ParseScope | internal/server/search_actions.go:656-662 | accepted exactly when the trimmed text is blank, `titles` or `participants`; blank gives `titles`, otherwise the trimmed text; anything else is the `scope` validation error |
| SearchActions.ParseInbox | internal/server/search_actions.go:663-666 | blank, `primary`, `low-priority` or `archive` |
| SearchActions.ParseChatType | internal/server/search_actions.go:667-673 | accepted exactly when the trimmed text is blank, `any`, `single` or `group`; blank gives `any`, otherwise the trimmed text; anything else is the `type` validation error |
| SearchActions.ParseSearchChatsParams | internal/server/search_actions.go:635-696 | an accepted search has a valid direction, scope, inbox, type and limit in range, with blank limit, unreadOnly and includeMuted at their defaults; an invalid direction is the error |
| SearchActions.CombineChatSearch | internal/server/search_actions.go:635-696 | the early returns over the parsed parameters: a search exactly when every parameter parses, holding each parsed value, the trimmed query and the account IDs |
| SearchActions.SearchChatsFirstError | internal/server/search_actions.go:636-681 | for each parameter in the handler's order, when every earlier one parses and it does not, its error is the result |
| SearchActions.SearchChatsAccepted | internal/server/search_actions.go:682-695 | a chat search is accepted exactly when all ten parameters parse, and then each field is its parser's value |
| SearchActions.ParseMessageChatType | internal/server/search_actions.go:719-722 | accepted exactly when the trimmed text is blank, `single` or `group`, and then it is the trimmed text |
| SearchActions.CheckDateWindow | internal/server/search_actions.go:732-734 | when both ends are given, after must be strictly before before |
| SearchActions.ParseSearchMessagesParams | internal/server/search_actions.go:698-754 | an accepted search has a valid direction and chat type, a limit in range, an open date window and known media types, with blank limit and excludeLowPriority at their defaults; an invalid direction is the error |
| SearchActions.CombineMessageSearch | internal/server/search_actions.go:698-754 | the early returns over the parsed parameters, with the date window checked after both dates and before the media types: a search exactly when all parse and the window is open, holding each parsed value |
| SearchActions.SearchMessagesFirstError | internal/server/search_actions.go:699-738 | for each parameter in the handler's order, and for the date window, when everything earlier passes and it does not, its error is the result |
| SearchActions.SearchMessagesAccepted | internal/server/search_actions.go:739-753 | a message search is accepted exactly when every parameter parses and the date window is open, and then each field is its parser's value |
| SearchActions.Tokens | internal/server/search_actions.go:852-865 | the tokens are the lower-cased white-space separated words of the query |
| SearchActions.JoinEnds | internal/server/search_actions.go:852-865 | words joined by spaces start with the first word and end with the last |
| SearchActions.JoinLower | internal/server/search_actions.go:852-865 | lower-case words joined by spaces are already lower-case |
| SearchActions.TokenQueryMatches | internal/server/search_actions.go:852-865 | a query of lower-case words matches a text exactly when each word occurs in the lower-cased text |
| SearchActions.ParticipantParts | internal/server/search_actions.go:836-847 | each participant contributes its full name, user name and ID |
| SearchActions.ChatQueryIsTokenMatch | internal/server/search_actions.go:825-850 | a chat matches by tokens over title and network, or over the participants |
| SearchActions.TitleWordFindsChat | internal/server/search_actions.go:825-850 | a word of the title finds the chat in the titles scope |
| SearchActions.SenderFiltersPartition | internal/server/search_actions.go:867-879 | `me` and `others` split the messages: each passes exactly one of them |
| SearchActions.MediaListUnion | internal/server/search_actions.go:881-911 | a combined list matches exactly when either part matches |
| SearchActions.LinkIsAnyMedia | internal/server/search_actions.go:881-911 | a message with an http(s) link is found by `any` as well as by `link` |
| SearchActions.DateWindowNarrowing | internal/server/search_actions.go:913-927 | the bounds are strict, and a narrower window admits no more messages |
| SearchActions.FoundFacts | internal/server/search_actions.go:354-426 | every chat found passes the chat filters and is the chat of a room the room filters admit |
| SearchActions.CollectFound | internal/server/search_actions.go:367-426 | the loop holds the found chats of the rooms read so far, at most one past the limit |
| SearchActions.SearchChats | internal/server/search_actions.go:354-450 | at most `limit` found chats, `hasMore` exactly when more were found, and cursors at both ends |
| SearchActions.FetchLimit | internal/server/search_actions.go:471-477 | eight rows per requested message, at least one more than the limit, at most 1000 |
| SearchActions.FetchLimitBounds | internal/server/search_actions.go:471-477 | for every accepted limit the fetch leaves room for the extra row that tells whether more follow |
| SearchActions.LoadTimelineEventsGlobal | internal/server/search_actions.go:609-633 | the rows and `hasMore` exactly when they fill the limit; a failed query is an internal error |
| SearchActions.HitsPrefix | internal/server/search_actions.go:493-570 | hits of a prefix of the events are a prefix of the hits |
| SearchActions.HitsFacts | internal/server/search_actions.go:493-570 | every hit is the message of an event whose room passes the room filters, passes the message filters, and carries its timeline row |
| SearchActions.HitOfEvent | internal/server/search_actions.go:509-560 | a hit passes the message filters, its event's room passes the room filters, and the message keeps the event's ID |
| SearchActions.CollectHits | internal/server/search_actions.go:493-570 | the loop holds the hits of the events read so far, at most one past the limit |
| SearchActions.UsedChats | internal/server/search_actions.go:578-590 | the keys are exactly the IDs of the known rooms the hits came from, and each entry is the chat of such a room under its own ID |
| SearchActions.UsedChatsExactly | internal/server/search_actions.go:466-590 | with rooms keyed by their IDs, as the search builds them, a chat ID is present exactly when it is a known room some hit came from, and its entry is that room's chat |
| SearchActions.SearchMessages | internal/server/search_actions.go:452-607 | at most `limit` hits, `hasMore` when the query filled its limit or more hits were found, the first and last hit's rows as cursors, and the chats of the rooms of the hits collected before truncation (up to one past the limit) |
| SearchActions.MessagePageOf | internal/server/search_actions.go:591-606 | an empty page has no cursors; otherwise the newest cursor is the first item's row in decimal and the oldest the last item's |
| Messages.MapMessageType | internal/server/messages.go:479-499 | sticker events are STICKER whatever their msgtype; the known msgtypes map to their types; anything else is TEXT |
| Messages.MessageTypeTable | internal/server/messages.go:479-499 | outside sticker events, each known msgtype has its own type and every other msgtype reads as TEXT |
| Messages.MessageAttachment | internal/server/messages.go:501-547 | only image, video, audio, file and sticker content has an attachment; a sticker is an `img` marked as a sticker; the URL falls back to the encrypted file's |
| Messages.MessageTypeFromAttachment | internal/server/messages.go:631-648 | the sticker and voice-note hints win, then the image/video/audio MIME prefixes, else file |
| Messages.SentAttachmentReadsBack | internal/server/messages.go:631-648 | an attachment sent with the chosen msgtype reads back as an attachment of the matching kind under the uploaded URL |
| Messages.MessageSortKey | internal/server/messages.go:549-557 | the sort key is decimal text |
| Messages.SortKeyReadsBack | internal/server/messages.go:549-557 | the key reads back as the timeline row ID when non-zero, else the row ID when non-zero, else the time in ms |
| Messages.WholeSeconds | internal/server/messages.go:435 | a time formatted as RFC 3339 and read back is the whole second at or before it |
| Messages.MapEventToMessage | internal/server/messages.go:417-477 | a nil, redacted or edit event and any type but message, sticker or reaction are skipped; otherwise the message of the event |
| Messages.MessageOfEvent | internal/server/messages.go:417-477 | the message carries the event's IDs, sender, sender name, is-sender flag and reactions, at most one attachment and only for media |
| Messages.MemberNamesNonEmpty | internal/server/messages.go:344-365 | every named user has a non-empty ID and a non-empty name |
| Messages.ReactionsDistinct | internal/server/messages.go:380-413 | no two reactions of an event share an ID |
| Messages.ReactionsSources | internal/server/messages.go:380-413 | each reaction comes from a shown event, so its key is non-blank, and it is an emoji exactly when its key has at most two code points |
| Messages.ReactionsComplete | internal/server/messages.go:380-413 | every shown reaction event is represented by a reaction with its ID |
| Messages.CollectReactions | internal/server/messages.go:389-409 | the de-duplicating loop returns the specified reactions of one event |
| Messages.ReactionMapFacts | internal/server/messages.go:380-413 | every event in the map has reactions taken from its entries, and every entry with reactions has its event in the map |
| Messages.LoadReactionMap | internal/server/messages.go:367-415 | no events give an empty map, a failed query an internal error, otherwise the events with their reactions |
| Messages.LoadTimelineEvents | internal/server/messages.go:306-337 | the rows, re-sorted newest first for `after`, with `hasMore` exactly when the query filled the limit |
| Messages.PageOfEvents | internal/server/messages.go:75-77 | the kept events are the first min(n, 20) of the loaded ones |
| Messages.ListMessagesHasMore | internal/server/messages.go:71-77 | more messages are reported exactly when more than a page of events lies past the cursor; one row past a page is loaded, and the kept page is the first min(n, 20) loaded events, for `before` the first of those past the cursor |
| Messages.RemovalKey | internal/server/messages.go:264-267 | the body's trimmed key, else the query's trimmed key |
| Messages.ToRedactFacts | internal/server/messages.go:278-291 | exactly the caller's own unredacted reactions with the key are redacted |
| Messages.CollectRedactions | internal/server/messages.go:278-291 | the collecting loop returns exactly the specified event IDs |
| Manage.ManagePage | internal/server/manage.go:28-35 | the page is served exactly at `/manage` and `/manage/`; any other path is not found |
| Manage.NotInitialized | internal/server/manage.go:319-325 | a 500 saying the gomuks runtime is not initialized |
| Manage.GetManageState | internal/server/manage.go:45-59 | without a client it fails; with no homeserver URL it reports an empty host; otherwise it reports the trimmed, lower-cased host and whether isAllowedBeeperHomeserverHost (a parameter) accepts it |
| Manage.StateAgreesWithHomeserverCheck | internal/server/manage.go:45-59 | if isAllowedBeeperHomeserverHost is the allow-list of the Beeper-only endpoints, the state reports a Beeper homeserver exactly when those endpoints admit the session |
| Manage.FieldRequired | internal/server/manage.go:131-141 | a validation error naming the field with "<field> is required" |
| Manage.RequiredField | internal/server/manage.go:131-141 | the trimmed value when non-blank, else the field's required error |
| Manage.RequiredFieldTrimsOnly | internal/server/manage.go:131-141 | an accepted value keeps its inner text; only white space at the ends is dropped |
| Manage.ValidatePasswordLogin | internal/server/manage.go:131-141 | homeserverURL, username, then password are required, in order; the first two are trimmed, the password is taken as given |
| Manage.PasswordIsNotTrimmed | internal/server/manage.go:139-141 | a white-space password is accepted and passed on untouched |
| Manage.ValidateCustomLogin | internal/server/manage.go:177-183 | homeserverURL, then a non-blank request type, reported under `request` |
| Manage.HiErrorMessageFacts | internal/server/manage.go:342-352 | an error reply's message is never empty and comes from the decoded string when it can |
| Manage.RunHiCommand | internal/server/manage.go:327-366 | success exactly when encoding works, the reply is a success and the output decodes; every failure is a 500 |
| Manage.SuccessWithoutOutIgnoresData | internal/server/manage.go:353-360 | a success without an output target succeeds whatever data it carries |
| Manage.TolerateLoggedIn | internal/server/manage.go:157-161 | an "already logged in" error is dropped, any other passes unchanged |
| Manage.Login | internal/server/manage.go:122-167 | validation, then the runtime check, then the login command, then the client state |
| Manage.ContainsLowerInside | internal/server/manage.go:157-161 | lower-case text stays found after lower-casing a longer text around it |
| Manage.AlreadyLoggedInIsSuccess | internal/server/manage.go:157-161 | an error saying "already logged in" in any letter case is answered with the client state as a success |
| Manage.OtherLoginErrorsSurface | internal/server/manage.go:198-202 | any other command failure reaches the caller unchanged |
| Manage.NormalizeBeeperDomain | internal/server/manage.go:404-417 | accepted results are only beeper.com, beeper-staging.com and beeper-dev.com |
| Manage.AcceptedDomainIsFixed | internal/server/manage.go:404-417 | an accepted domain is left as it is by every step |
| Manage.NormalizeIdempotent | internal/server/manage.go:404-417 | normalising a normalised domain changes nothing |
| Manage.AcceptedSpellings | internal/server/manage.go:404-417 | any letter case and surrounding white space, an optional `https://` or `http://`, `matrix.`, `api.` or `matrix.api.`, and an optional trailing slash around an accepted domain all normalise to that domain |
| Manage.SchemeStripped | internal/server/manage.go:406-407 | the scheme steps remove `https://` or `http://` and nothing else |
| Manage.HostStripped | internal/server/manage.go:408-409 | the host steps remove `matrix.`, `api.` or `matrix.api.` in front of the domain |
| Manage.SlashStripped | internal/server/manage.go:410 | the last step removes one trailing slash |
| Manage.ApiThenMatrixRefused | internal/server/manage.go:408-409 | `api.` is stripped once and only after `matrix.`, so `api.matrix.` in front of any accepted domain is refused |
| Manage.BeeperPost | internal/server/manage.go:368-380 | a bad domain is a validation error on `domain`; otherwise the URL is `https://api.` + domain + endpoint |
| Manage.StartLoginCall | internal/server/manage.go:242-257 | an empty object posted to `/user/login` |
| Manage.RequestCodeCall | internal/server/manage.go:259-287 | request and email are required, then the domain is checked |
| Manage.SubmitCodeCall | internal/server/manage.go:289-317 | request and response are required, and every space is removed from the trimmed response before it is sent |
| Manage.SubmittedCodeHasNoSpaces | internal/server/manage.go:308 | the sent code has no spaces and keeps the other characters in order |
| Manage.RemoveSpaceKeepsOthers | internal/server/manage.go:308 | a space-free code is sent as entered, and grouped digits are joined |
| Manage.ResponseData | internal/server/manage.go:393-401 | an empty body and a `null` document give no data; otherwise the decoded object, or the text under `raw` |
| Manage.ReadLimited | internal/server/manage.go:393 | exactly the first 1 MiB of the body's bytes is read, or all of a shorter body |
| Manage.RelayBeeper | internal/server/manage.go:251-256 | a transport failure is a 500; a status of 300 or more is passed on with the data or, when there is none (an empty or `null` body), an error object; otherwise 200 with the data or `{}` |
| Manage.RelayedBody | internal/server/manage.go:419-424 | an object body is relayed as itself, a body that is no object and not `null` as raw text; an empty or `null` failure becomes an error object, an empty or `null` success `{}` |
| Auth.Get | internal/auth/auth.go:61-75 | the first value of a key, or "" when there is none |
| Auth.Set | internal/auth/auth.go:77-82 | the key now holds the one value; every other key is unchanged |
| Auth.ParseToken | internal/auth/auth.go:61-75 | a `Bearer ` Authorization header wins, then X-Beeper-Access-Token, then the query parameter when allowed; the token is trimmed and "" means none |
| Auth.QueryIgnoredUnlessBothAllow | internal/auth/auth.go:49 | unless both flags are set, the query has no say in the token, and no token is found exactly when both headers are blank |
| Auth.BlankBearerHidesOtherSources | internal/auth/auth.go:61-75 | a bare `Bearer ` header yields no token, and the other sources are not consulted |
| Auth.WithBearerToken | internal/auth/auth.go:77-82 | the copy's Authorization is `Bearer ` + token; every other header, the query, host and TLS are the original's |
| Auth.BearerTokenReadsBack | internal/auth/auth.go:61-82 | a trimmed token put on a request reads back unchanged, whatever the other headers say |
| Auth.Forwarded | internal/auth/auth.go:48-52 | a request with a token is handed on with it in the Authorization header, and one without is handed on unchanged |
| Auth.ForwardedKeepsToken | internal/auth/auth.go:48-52 | downstream the handed-on request yields the same token from its header alone |
| Auth.Verify | internal/auth/auth.go:29-46 | the static token gets read and write for ten years; a provider token is accepted with ten years when it has no expiry; anything else is invalid |
| Auth.AcceptedTokensExpire | internal/auth/auth.go:29-46 | every accepted token carries a real, non-zero expiry |
| Auth.MetadataURL | internal/auth/auth.go:84-101 | the bare path when there is no host, else scheme://host followed by the well-known path |
| Auth.MetadataHost | internal/auth/auth.go:84-101 | the first forwarded host, else the trimmed Host; blank exactly when both are blank |
| Auth.MetadataURLShape | internal/auth/auth.go:84-101 | the URL always ends with the well-known path, and is absolute exactly when a host is known |
| Assets.Base | internal/server/assets.go:101-104 | "." for "", "/" for slashes only, else the last path element: the slash-free suffix of the path without trailing slashes that starts at its beginning or right after a slash |
| Assets.Ext | internal/server/assets.go:105-107 | empty exactly when the last element holds no dot; otherwise the suffix of the path from the last dot of that element |
| Assets.StoredFileName | internal/server/assets.go:98-104 | the stored name is non-empty, not ".", and holds no `/` |
| Assets.StoredFileNameDropsDirectories | internal/server/assets.go:98-104 | a name with directories keeps only its last element |
| Assets.StoredMimeType | internal/server/assets.go:105-110 | the given type, else the extension's, else application/octet-stream |
| Assets.ReadAtMost | internal/server/assets.go:159-160 | the first `limit` bytes |
| Assets.ParseMultipartUpload | internal/server/assets.go:149-176 | the file is read to one byte past the limit and refused when larger; the form fields win over the part's own name and type |
| Assets.ParseBase64Upload | internal/server/assets.go:178-194 | padded decoding first, then unpadded, else an error; the name and type come from the body |
| Assets.UploadAsset | internal/server/assets.go:77-111 | the parser is chosen by Content-Type and its error is the reply; a parsed upload over 500 MiB is `Upload too large`; one within the limit is stored with its data, the stored file name and the MIME type fallback |
| Assets.OversizedBase64Refused | internal/server/assets.go:86-97 | a base64 upload over 500 MiB decodes but is refused before anything is written |
| Assets.CheckUploadID | internal/server/assets.go:274-277 | an ID is accepted exactly when it is non-empty and uses only letters, digits, `_` and `-` |
| Assets.UploadIDStaysInRoot | internal/server/assets.go:274-277 | an accepted ID has no separator and is not a dot entry |
| Assets.HexIDsAccepted | internal/server/assets.go:338-342 | every lower-case hex ID the server hands out is accepted |
| Assets.InsideRootsAllowed | internal/server/assets.go:321-336 | anything below the upload root or the asset cache may be served |
| Assets.RootsAndSiblingsRefused | internal/server/assets.go:334-335 | the roots themselves are refused, and so is a sibling whose name only starts with a root's name |
| Assets.NormalizeAssetURL | internal/server/assets.go:216-223 | the URL is trimmed, and `localmxc://` is rewritten to `mxc://` |
| Assets.LocalAndRemoteAgree | internal/server/assets.go:216-223 | a local and a remote spelling of the same media normalise alike |
| Assets.NormalizeAssetURLIdempotent | internal/server/assets.go:216-223 | normalising twice is normalising once |
| Assets.CheckAssetURL | internal/server/assets.go:215-230 | only a valid `mxc://` URI passes; anything else is refused with the scheme message |
| Assets.ResolveServePath | internal/server/assets.go:196-213 | a `file://` URL that does not parse is a validation error; its path is served exactly when it lies inside the roots, and is forbidden otherwise; any other URL is resolved as media, a failure being a 404 |
| Assets.ServeAsset | internal/server/assets.go:61-75 | the trimmed `url` query value is required, then resolved |

## Left out

- Transport and runtime: HTTP routing, JSON encoding of replies, the WebSocket accept, read limits, pings and write timeouts, goroutines and locks. The hub is modelled single-threaded. The queue's consumer loop is modelled one event at a time (`RunStep`).
- The hydration of `message.upserted` entries (`hydrateMessagesForWSEvent`, `toCompatRecord`) is a parameter of the hub.
- Go map iteration order is an input: the sync batch's rooms, the registry's clients, the lookup's bridges of equal length, and the collected message IDs before sorting.
- The database (rooms, events, members, room state) is an input, in the order the server's queries return it. Room order is not re-proved here: sorting timestamp descending, then room ID ascending.
- gomuks itself (logins, JSON commands, `SubscribeEvents`) is a parameter: its reply, its command names and the hostname of its homeserver URL.
- Random tokens, SHA-256, base64 and base64url, RFC 3339 parsing, `url.Parse`, `filepath.Abs`/`Clean`, `mime.TypeByExtension` and the validation of mxc URIs are parameters.
- The cursor codec is also a parameter (internal/cursor/cursor.go). `cursor.Encode` is assumed never to fail.
- The file system is left out: the OAuth state file, uploads and their metadata, the asset cache with its SHA-256 names, and `writeAtomicFile`. A state file arrives already decoded; persisting returns the document to write.
- Float parts are left out: media durations and image dimensions.
- Time is whole milliseconds; sub-millisecond precision is not modelled.
- Endpoints with no decision logic named in the core are left out: `info`, the OpenAPI routes, the authorization-server metadata, `oauthUserInfo`, `oauthIntrospect`, `deeplink` and the HTML pages. So are `manageDiscoverHomeserver`, `manageLoginFlows`, `manageVerify` (beyond their required fields), `downloadAsset`, `focusApp`, `createChat`, `archiveChat`, the reminders, `sendMessage`, `editMessage`, `addReaction`, `buildAttachmentMessageContent` and `getChat`.
- `beeperAPIPost`'s HTTP request and the private Beeper authorization header are not modelled. Only the URL, the payload and how the answer is relayed are.
- `internal/config`, `internal/gomuksruntime` and `cmd/` are not part of this model.
- OAuthEndpoints.BodyValue: JSON numbers are integers in the model. `strconv.FormatFloat` of a fractional number is not modelled.
- Text.ToLower: only ASCII letters are lower-cased, unlike Go's Unicode `strings.ToLower`. `strings.EqualFold` on MIME types is modelled the same way.
- Auth.Get: HTTP header names are not canonicalised; the model looks names up as given.
- Auth.Verify: `subtle.ConstantTimeCompare` is modelled as plain equality. So an empty configured token matches an empty bearer token, as it does in Go, and the timing property is not modelled.
- Assets.StoredFileName: the name `..` can still come out of `filepath.Base`, as in the code. The contract excludes only `/`, "" and ".".
- Assets.ParseMultipartUpload: the 32 MiB in-memory limit of `ParseMultipartForm` is part of the form parser, which is a parameter.
- AccountsChats.ChatOfFacts: the message preview of a chat is not modelled. Neither is the unread count beyond copying it.
- AccountsChats.LoadRoomParticipants: the user name of a participant is never set by the code, so it is always "", and search sees it as such.
- SearchActions.SearchChats and AccountsChats.ListChats use the millisecond cursor `PageCursor` (see Findings). The code derives the cursor from the second-precision RFC 3339 text.
- SearchActions.SearchMessages: `usedRooms` also counts the room of the extra hit that truncation drops, as the code does. The search's chat state argument to `mapRoomToChat` is not modelled (the call passes six arguments where the function takes five).
- SearchActions.SearchMessages: a message timestamp is an instant in whole seconds. The code formats it as RFC 3339 text in one place and reads it as a `time.Time` in another.
- OAuthEndpoints.Token: the code calls `popAuthorizationCode` expecting three results, but it returns two. The model follows the two-result definition: the code, and whether it was found and live.
- OAuthState.OAuthStore.Load: the state struct the loader writes is not declared on the server type. The model stores into the server's own maps. The persisted subject is not restored on load.
- `auth.Middleware.Wrap` is called with two arguments but declares three. `SetExtraValidator`, which the server calls, is not defined. The model follows the definitions in internal/auth/auth.go.
- Reaction and member-name lookups in messages are functions of the room, not caches.
- WsHub.Hub.DropDuplicate debounces on the corrected fingerprint (`WsFingerprint.Fingerprint`, see Findings). With `buildWSFingerprint` as written, the same message hydrated at two different timestamps is delivered twice, where the model drops the repeat inside 250 ms.
- WsHub.Hub.ProcessEvent inherits the same choice: its duplicate test is the corrected fingerprint, not the one the code computes.
- AccountsChats.NetworkFromBridgeID: only an ASCII first letter is modelled. Go upper-cases the first byte (`bridgeID[:1]`), so for a bridge ID starting with a multi-byte character it gives U+FFFD followed by the character's stray continuation bytes, where the model keeps the character; its contract is stated for an ASCII first character only.
- Manage.GetManageState: `isAllowedBeeperHomeserverHost` is called but defined in no source file, so it is a parameter; Manage.StateAgreesWithHomeserverCheck holds under the hypothesis that it is the allow-list of `requireBeeperHomeserver`.

## Findings

| source | as written | input that shows it | evidently intended | confidence | as-written member | corrected member |
|---|---|---|---|---|---|---|
| internal/server/ws_events.go:691-722 | hydrated entries are a `[]compatRecord`; each element has the named type `compatRecord`, which the `map[string]any` case does not match, so each record falls to the default case and keeps its `ts`/`timestamp` keys | the same message hydrated twice: entries `[{"id":"$a","timestamp":1}]` and `[{"id":"$a","timestamp":2}]` | volatile keys are removed at every depth, so the repeat is debounced | not executed | WsFingerprint.AsWrittenKeepsTimestamp | WsFingerprint.FingerprintIgnoresVolatile |
| internal/server/accounts_chats.go:247-258 | the page cursors take their timestamp from `LastActivity`, RFC 3339 text with whole seconds, while rooms are compared in milliseconds | the last chat of a page has sorting timestamp 5500 ms, and the next room has 5200 ms: the cursor says 5000 ms, so the next `before` page skips that room | the cursor carries the room's sorting timestamp in milliseconds, so the next page starts right after the last chat | not executed | AccountsChats.AsWrittenCursorSkipsSameSecond | AccountsChats.OldestCursorContinuesPage |
