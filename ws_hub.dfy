/**
 * The realtime hub behind `/v1/ws` (internal/server/ws_events.go:85-291,
 * 398-507): a registry from connection to {seq, chatIDs}, a cache from event
 * fingerprint to the time it was last sent, a bounded queue between the sync
 * pipeline and the hub, and the delivery loop.
 *
 * The hub is modelled single-threaded. What leaves the hub is recorded in
 * `outbox` in write order; a write that fails (the connections in `broken`)
 * closes and unregisters its connection instead. Times are milliseconds; the
 * clock, the hydration of message entries and the outcome of subscribing to
 * the sync pipeline are parameters.
 */
module WsHub {
  import opened Wrappers
  import opened Clock
  import opened Text
  import opened Sorting
  import opened JsonValues
  import opened WsSubscriptions
  import opened WsMapper
  import opened WsFingerprint
  import opened WsCommands

  const DuplicateEventDebounceMs: int := 250
  const FingerprintRetentionMs: int := 30_000
  const FingerprintPruneIntervalMs: int := 5_000
  const EventQueueSize: nat := 512
  const ReadyVersion: int := 1

  type ConnId = nat

  datatype ClientState = ClientState(sequence: int, chatIDs: seq<string>)

  /** The messages the hub writes to a connection. */
  datatype Outbound =
    | ReadyMsg(version: int, chatIDs: seq<string>)
    | ErrorMsg(requestID: string, code: string, message: string)
    | SubscriptionsUpdatedMsg(requestID: string, chatIDs: seq<string>)
    | EventMsg(eventType: string, sequence: int, ts: int, chatID: string, ids: seq<string>, entries: seq<map<string, Json>>)

  /** What the sync pipeline hands the hub; only completed syncs are processed. */
  datatype QueuedEvent = SyncEvent(sync: SyncComplete) | OtherEvent

  type Entries = seq<map<string, Json>>

  /** Hydration of `message.upserted` ids into records; `None` is an error. */
  type Hydrator = (string, seq<string>) -> Option<Entries>

  /** A subscription list as the hub stores it: normalised, with `*` only alone. */
  predicate NormalizedList(ids: seq<string>)
  {
    StrictlySorted(ids)
    && (forall i :: 0 <= i < |ids| ==> IsCleanID(ids[i]))
    && (Wildcard in ids ==> ids == [Wildcard])
  }

  /* ---------- the fingerprint cache, as functions of its state ---------- */

  /** The entries kept by a prune: those seen no more than the retention period ago. */
  function Pruned(recent: map<Json, int>, now: int): map<Json, int>
  {
    map k | k in recent && now - recent[k] <= FingerprintRetentionMs :: recent[k]
  }

  /** pruneFingerprintsLocked: at most one prune per interval. */
  function PruneState(recent: map<Json, int>, last: int, now: int): (map<Json, int>, int)
  {
    if now - last < FingerprintPruneIntervalMs then (recent, last) else (Pruned(recent, now), now)
  }

  /** The duplicate test of dropDuplicate, against the cache before the event is recorded. */
  predicate IsDuplicate(recent: map<Json, int>, fp: Json, now: int)
  {
    fp in recent && now - recent[fp] < DuplicateEventDebounceMs
  }

  /** The cache after dropDuplicate records `fp` at `now`. */
  function AfterRecord(recent: map<Json, int>, last: int, fp: Json, now: int): (map<Json, int>, int)
  {
    PruneState(recent[fp := now], last, now)
  }

  /** A prune only removes entries, and keeps the time of each it keeps. */
  lemma PruneOnlyRemoves(recent: map<Json, int>, last: int, now: int)
    ensures var (r, l) := PruneState(recent, last, now);
      r.Keys <= recent.Keys && (forall k :: k in r ==> r[k] == recent[k])
      && (l == last || l == now)
  {
  }

  /** When a prune runs it removes exactly the entries older than the retention period. */
  lemma PruneRemovesStale(recent: map<Json, int>, last: int, now: int, k: Json)
    requires now - last >= FingerprintPruneIntervalMs
    requires k in recent
    ensures k in PruneState(recent, last, now).0 <==> now - recent[k] <= FingerprintRetentionMs
    ensures PruneState(recent, last, now).1 == now
  {
  }

  /** Within the prune interval the cache is left as it is. */
  lemma PruneRateLimited(recent: map<Json, int>, last: int, now: int)
    requires now - last < FingerprintPruneIntervalMs
    ensures PruneState(recent, last, now) == (recent, last)
  {
  }

  /** After recording, the fingerprint is in the cache with the current time, whatever the prune does. */
  lemma RecordedSurvivesPrune(recent: map<Json, int>, last: int, fp: Json, now: int)
    ensures var (r, _) := AfterRecord(recent, last, fp, now);
      fp in r && r[fp] == now
  {
  }

  /** The same fingerprint again less than 250 ms later is a duplicate; 250 ms or more later, or never seen, it is not. */
  lemma DebounceWindow(recent: map<Json, int>, last: int, fp: Json, t1: int, t2: int)
    ensures var (r, _) := AfterRecord(recent, last, fp, t1);
      IsDuplicate(r, fp, t2) <==> t2 - t1 < DuplicateEventDebounceMs
  {
    RecordedSurvivesPrune(recent, last, fp, t1);
  }

  lemma UnseenIsNotDuplicate(recent: map<Json, int>, fp: Json, now: int)
    requires fp !in recent
    ensures !IsDuplicate(recent, fp, now)
  {
  }

  /* ---------- delivery, as functions of the registry ---------- */

  /** Some registered connection's list matches the chat. */
  ghost predicate HasSubscriber(clients: map<ConnId, ClientState>, chatID: string)
  {
    exists c :: c in clients && IsSubscribed(clients[c].chatIDs, chatID)
  }

  /** The event needs no entries, or its hydration succeeded with at least one. */
  predicate HydrationOk(ev: DomainEvent, hydrate: Hydrator)
  {
    ev.kind != MessageUpserted || (hydrate(ev.chatID, ev.ids).Some? && |hydrate(ev.chatID, ev.ids).value| > 0)
  }

  /**
   * Every connection of `cur` was in `start` with the same list, the event
   * seqs written to it in `out` count up by one from its seq in `start`, and
   * its seq in `cur` is the last of them.
   */
  ghost predicate SeqsAccounted(start: map<ConnId, ClientState>, cur: map<ConnId, ClientState>, out: seq<(ConnId, Outbound)>)
  {
    forall c :: c in cur ==>
      c in start && cur[c].chatIDs == start[c].chatIDs
      && Consecutive(SeqsTo(out, c), start[c].sequence)
      && cur[c].sequence == start[c].sequence + |SeqsTo(out, c)|
  }

  /** A delivery keeps the seq accounting: each target that stays gets exactly the next seq. */
  lemma SeqsAccountedStep(start: map<ConnId, ClientState>, cur: map<ConnId, ClientState>, out: seq<(ConnId, Outbound)>,
                          targets: seq<ConnId>, broken: set<ConnId>, ev: DomainEvent, now: int, entries: Entries)
    requires SeqsAccounted(start, cur, out)
    requires NoDuplicates(targets) && forall i :: 0 <= i < |targets| ==> targets[i] in cur
    ensures SeqsAccounted(start, Bumped(cur, targets, broken), out + EventWrites(cur, targets, broken, ev, now, entries))
  {
    var w := EventWrites(cur, targets, broken, ev, now, entries);
    var next := Bumped(cur, targets, broken);
    forall c | c in next
      ensures c in start && next[c].chatIDs == start[c].chatIDs
      ensures Consecutive(SeqsTo(out + w, c), start[c].sequence)
      ensures next[c].sequence == start[c].sequence + |SeqsTo(out + w, c)|
    {
      SeqsAccountedOne(start, cur, out, targets, broken, ev, now, entries, c);
    }
  }

  /** The seq accounting of one connection that stays after a delivery. */
  lemma SeqsAccountedOne(start: map<ConnId, ClientState>, cur: map<ConnId, ClientState>, out: seq<(ConnId, Outbound)>,
                         targets: seq<ConnId>, broken: set<ConnId>, ev: DomainEvent, now: int, entries: Entries, c: ConnId)
    requires SeqsAccounted(start, cur, out)
    requires NoDuplicates(targets) && forall i :: 0 <= i < |targets| ==> targets[i] in cur
    requires c in Bumped(cur, targets, broken)
    ensures var next := Bumped(cur, targets, broken);
      var seqs := SeqsTo(out + EventWrites(cur, targets, broken, ev, now, entries), c);
      c in start && next[c].chatIDs == start[c].chatIDs
      && Consecutive(seqs, start[c].sequence)
      && next[c].sequence == start[c].sequence + |seqs|
  {
    var w := EventWrites(cur, targets, broken, ev, now, entries);
    SeqsToAppend(out, w, c);
    SeqsToEventWrites(cur, targets, broken, ev, now, entries, c);
    var before := SeqsTo(out, c);
    assert c in cur && Consecutive(before, start[c].sequence);
    if c in targets && c !in broken {
      assert SeqsTo(out + w, c) == before + [cur[c].sequence + 1];
    } else {
      assert SeqsTo(out + w, c) == before + [];
      assert before + [] == before;
    }
  }

  /** What one event's processing reads and changes: the registry, the fingerprint cache and the outbox. */
  datatype HubState = HubState(
    clients: map<ConnId, ClientState>,
    recent: map<Json, int>,
    lastPrune: int,
    outbox: seq<(ConnId, Outbound)>)

  /** One event's processing: the state before, the connections it was written to, its entries, and the state after. */
  datatype Delivery = Delivery(before: HubState, targets: seq<ConnId>, entries: Entries, after: HubState)
  {
    predicate Registered()
    {
      forall j :: 0 <= j < |targets| ==> targets[j] in before.clients
    }
  }

  /**
   * One iteration of processSyncComplete. An event nobody subscribes to, or a
   * `message.upserted` whose hydration fails or is empty, is skipped and
   * leaves the cache alone; otherwise its fingerprint is recorded, and it is
   * delivered exactly when it is not a duplicate of one sent less than 250 ms
   * earlier. A delivery goes to every subscribed connection, each once; each
   * target's seq rises by one and the event is written with it, and a target
   * whose write fails is unregistered.
   */
  ghost predicate EventProcessed(ev: DomainEvent, hydrate: Hydrator, now: int, broken: set<ConnId>, d: Delivery)
  {
    var before := d.before;
    var after := d.after;
    NoDuplicates(d.targets) && d.Registered()
    && (|d.targets| > 0 ==> forall c :: c in d.targets <==>
          c in before.clients && IsSubscribed(before.clients[c].chatIDs, ev.chatID))
    && (|d.targets| > 0 ==> HydrationOk(ev, hydrate))
    && (ev.kind == MessageUpserted && HasSubscriber(before.clients, ev.chatID) && HydrationOk(ev, hydrate) ==>
          d.entries == hydrate(ev.chatID, ev.ids).value)
    && (ev.kind != MessageUpserted ==> d.entries == [])
    && (!(HasSubscriber(before.clients, ev.chatID) && HydrationOk(ev, hydrate)) ==>
          d.targets == [] && after.recent == before.recent && after.lastPrune == before.lastPrune)
    && (HasSubscriber(before.clients, ev.chatID) && HydrationOk(ev, hydrate) ==>
          (after.recent, after.lastPrune) == AfterRecord(before.recent, before.lastPrune, Fingerprint(ev, d.entries), now)
          && (|d.targets| > 0 <==> !IsDuplicate(before.recent, Fingerprint(ev, d.entries), now)))
    && after.outbox == before.outbox + EventWrites(before.clients, d.targets, broken, ev, now, d.entries)
    && after.clients == Bumped(before.clients, d.targets, broken)
  }

  /**
   * processSyncComplete's loop so far: the i-th step is the i-th event
   * processed at `clock(i)`, with the writes to `broken(i)` failing, each step starting from the state the previous
   * one left, from `start` to `end`.
   */
  ghost predicate Batch(events: seq<DomainEvent>, hydrate: Hydrator, clock: nat -> int, broken: nat -> set<ConnId>,
                        start: HubState, steps: seq<Delivery>, end: HubState)
  {
    |steps| <= |events|
    && if |steps| == 0 then end == start
    else
      var k := |steps| - 1;
      Batch(events, hydrate, clock, broken, start, steps[..k], steps[k].before)
      && EventProcessed(events[k], hydrate, clock(k), broken(k), steps[k]) && steps[k].after == end
  }

  /** Every step of a batch is the processing of the event at its own index, at that index's time. */
  lemma {:induction false} BatchEventAt(events: seq<DomainEvent>, hydrate: Hydrator, clock: nat -> int, broken: nat -> set<ConnId>,
                                        start: HubState, steps: seq<Delivery>, end: HubState, i: nat)
    requires Batch(events, hydrate, clock, broken, start, steps, end)
    requires i < |steps|
    ensures EventProcessed(events[i], hydrate, clock(i), broken(i), steps[i])
    decreases |steps|
  {
    var k := |steps| - 1;
    if i < k {
      BatchEventAt(events, hydrate, clock, broken, start, steps[..k], steps[k].before, i);
      assert steps[..k][i] == steps[i];
    }
  }

  /** A batch's first step starts from `start`. */
  lemma {:induction false} BatchStarts(events: seq<DomainEvent>, hydrate: Hydrator, clock: nat -> int, broken: nat -> set<ConnId>,
                                       start: HubState, steps: seq<Delivery>, end: HubState)
    requires Batch(events, hydrate, clock, broken, start, steps, end)
    requires |steps| > 0
    ensures steps[0].before == start
    decreases |steps|
  {
    var k := |steps| - 1;
    if k > 0 {
      BatchStarts(events, hydrate, clock, broken, start, steps[..k], steps[k].before);
    }
  }

  /** Each step of a batch starts from the state the previous one left. */
  lemma {:induction false} BatchLinked(events: seq<DomainEvent>, hydrate: Hydrator, clock: nat -> int, broken: nat -> set<ConnId>,
                                       start: HubState, steps: seq<Delivery>, end: HubState, i: nat)
    requires Batch(events, hydrate, clock, broken, start, steps, end)
    requires i + 1 < |steps|
    ensures steps[i].after == steps[i + 1].before
    decreases |steps|
  {
    var k := |steps| - 1;
    if i + 1 < k {
      BatchLinked(events, hydrate, clock, broken, start, steps[..k], steps[k].before, i);
      assert steps[..k][i] == steps[i] && steps[..k][i + 1] == steps[i + 1];
    } else {
      assert steps[..k][i] == steps[i];
    }
  }

  /** The event messages of a batch: each step's writes, in order. */
  function BatchWrites(events: seq<DomainEvent>, clock: nat -> int, broken: nat -> set<ConnId>, steps: seq<Delivery>): seq<(ConnId, Outbound)>
    requires |steps| <= |events|
  {
    if |steps| == 0 then []
    else
      var k := |steps| - 1;
      BatchWrites(events, clock, broken, steps[..k])
      + if steps[k].Registered()
        then EventWrites(steps[k].before.clients, steps[k].targets, broken(k), events[k], clock(k), steps[k].entries)
        else []
  }

  /** A batch grows by one processed event. */
  lemma BatchSnoc(events: seq<DomainEvent>, hydrate: Hydrator, clock: nat -> int, broken: nat -> set<ConnId>,
                  start: HubState, steps: seq<Delivery>, d: Delivery)
    requires Batch(events, hydrate, clock, broken, start, steps, d.before)
    requires |steps| < |events|
    requires EventProcessed(events[|steps|], hydrate, clock(|steps|), broken(|steps|), d)
    ensures Batch(events, hydrate, clock, broken, start, steps + [d], d.after)
  {
    assert (steps + [d])[..|steps|] == steps;
  }

  /** One more processed event extends a batch, its writes and its failed connections. */
  lemma BatchStep(events: seq<DomainEvent>, hydrate: Hydrator, clock: nat -> int, broken: nat -> set<ConnId>,
                  start: HubState, steps: seq<Delivery>, d: Delivery)
    requires Batch(events, hydrate, clock, broken, start, steps, d.before)
    requires d.before.outbox == start.outbox + BatchWrites(events, clock, broken, steps)
    requires |steps| < |events|
    requires EventProcessed(events[|steps|], hydrate, clock(|steps|), broken(|steps|), d)
    ensures Batch(events, hydrate, clock, broken, start, steps + [d], d.after)
    ensures d.after.outbox == start.outbox + BatchWrites(events, clock, broken, steps + [d])
    ensures FailedUpTo(broken, |steps| + 1) == FailedUpTo(broken, |steps|) + broken(|steps|)
  {
    var i := |steps|;
    BatchSnoc(events, hydrate, clock, broken, start, steps, d);
    StepOutbox(events[i], hydrate, clock(i), broken(i), d);
    BatchWritesSnoc(events, clock, broken, steps, d);
    AppendAssoc(start.outbox, BatchWrites(events, clock, broken, steps),
      EventWrites(d.before.clients, d.targets, broken(i), events[i], clock(i), d.entries));
  }

  /** The writes of a batch grown by one step are the batch's, then that step's. */
  lemma BatchWritesSnoc(events: seq<DomainEvent>, clock: nat -> int, broken: nat -> set<ConnId>, steps: seq<Delivery>, d: Delivery)
    requires |steps| < |events|
    requires d.Registered()
    ensures BatchWrites(events, clock, broken, steps + [d]) ==
      BatchWrites(events, clock, broken, steps) + EventWrites(d.before.clients, d.targets, broken(|steps|), events[|steps|], clock(|steps|), d.entries)
  {
    assert (steps + [d])[..|steps|] == steps;
  }

  /** The connections whose write failed during the first `n` events of a batch. */
  function FailedUpTo(broken: nat -> set<ConnId>, n: nat): set<ConnId>
  {
    if n == 0 then {} else FailedUpTo(broken, n - 1) + broken(n - 1)
  }

  /** One event's processing writes its event messages after what the outbox held. */
  lemma StepOutbox(ev: DomainEvent, hydrate: Hydrator, now: int, broken: set<ConnId>, d: Delivery)
    requires EventProcessed(ev, hydrate, now, broken, d)
    ensures d.Registered()
    ensures d.after.outbox == d.before.outbox + EventWrites(d.before.clients, d.targets, broken, ev, now, d.entries)
  {
  }

  lemma AppendAssoc<T>(a: seq<T>, b: seq<T>, c: seq<T>)
    ensures (a + b) + c == a + (b + c)
  {
  }

  lemma AppendSlices<T>(a: seq<T>, b: seq<T>)
    ensures |a| <= |a + b| && (a + b)[..|a|] == a && (a + b)[|a|..] == b
  {
  }

  /** The message the handler writes for a reply. */
  function ReplyMessage(reply: Reply): Outbound
  {
    match reply
    case ErrorReply(rid, code, message) => ErrorMsg(rid, code, message)
    case Updated(rid, ids) => SubscriptionsUpdatedMsg(rid, ids)
  }

  /** The event messages one delivery writes, in target order: each target whose write succeeds gets its next seq. */
  function EventWrites(clients: map<ConnId, ClientState>, targets: seq<ConnId>, broken: set<ConnId>, ev: DomainEvent, now: int, entries: Entries): (r: seq<(ConnId, Outbound)>)
    requires forall i :: 0 <= i < |targets| ==> targets[i] in clients
    ensures |r| <= |targets|
  {
    if |targets| == 0 then []
    else
      var t := targets[|targets| - 1];
      EventWrites(clients, targets[..|targets| - 1], broken, ev, now, entries)
      + (if t in broken then [] else [(t, EventMsg(ev.kind.Wire(), clients[t].sequence + 1, now, ev.chatID, ev.ids, entries))])
  }

  /** The registry after one target's delivery: its seq one higher, or gone when its write failed. */
  function BumpOne(clients: map<ConnId, ClientState>, t: ConnId, fails: bool): map<ConnId, ClientState>
    requires t in clients
  {
    var bumped := clients[t := clients[t].(sequence := clients[t].sequence + 1)];
    if fails then bumped - {t} else bumped
  }

  /** The registry after a delivery: each target's seq is one higher, a target whose write failed is gone. */
  function Bumped(clients: map<ConnId, ClientState>, targets: seq<ConnId>, broken: set<ConnId>): map<ConnId, ClientState>
  {
    map c | c in clients && !(c in targets && c in broken) ::
      if c in targets then clients[c].(sequence := clients[c].sequence + 1) else clients[c]
  }

  /** The seqs of the event messages written to `c`, in order. */
  function SeqsTo(out: seq<(ConnId, Outbound)>, c: ConnId): seq<int>
  {
    if |out| == 0 then []
    else
      var last := out[|out| - 1];
      SeqsTo(out[..|out| - 1], c) + (if last.0 == c && last.1.EventMsg? then [last.1.sequence] else [])
  }

  /** `s` counts up by one from `start + 1`. */
  predicate Consecutive(s: seq<int>, start: int)
  {
    forall k :: 0 <= k < |s| ==> s[k] == start + 1 + k
  }

  lemma {:induction false} SeqsToAppend(a: seq<(ConnId, Outbound)>, b: seq<(ConnId, Outbound)>, c: ConnId)
    ensures SeqsTo(a + b, c) == SeqsTo(a, c) + SeqsTo(b, c)
    decreases |b|
  {
    if |b| > 0 {
      var b' := b[..|b| - 1];
      assert (a + b)[..|a + b| - 1] == a + b';
      SeqsToAppend(a, b', c);
    } else {
      assert a + b == a;
    }
  }

  /** One delivery writes at most one event to each connection: the next seq for a target, nothing to others. */
  lemma {:induction false} SeqsToEventWrites(clients: map<ConnId, ClientState>, targets: seq<ConnId>, broken: set<ConnId>, ev: DomainEvent, now: int, entries: Entries, c: ConnId)
    requires forall i :: 0 <= i < |targets| ==> targets[i] in clients
    requires NoDuplicates(targets)
    ensures SeqsTo(EventWrites(clients, targets, broken, ev, now, entries), c) ==
      (if c in targets && c !in broken then [clients[c].sequence + 1] else [])
    decreases |targets|
  {
    if |targets| > 0 {
      var init := targets[..|targets| - 1];
      var t := targets[|targets| - 1];
      var w0 := EventWrites(clients, init, broken, ev, now, entries);
      LastNotInInit(targets);
      SeqsToEventWrites(clients, init, broken, ev, now, entries, c);
      var before := if c in init && c !in broken then [clients[c].sequence + 1] else [];
      assert SeqsTo(w0, c) == before;
      if t !in broken {
        var x := (t, EventMsg(ev.kind.Wire(), clients[t].sequence + 1, now, ev.chatID, ev.ids, entries));
        SeqsToSnoc(w0, x, c, before);
      } else {
        assert w0 + [] == w0;
      }
    }
  }

  /** One more write adds its seq to `c`'s, when it is an event for `c`. */
  lemma SeqsToSnoc(w: seq<(ConnId, Outbound)>, x: (ConnId, Outbound), c: ConnId, before: seq<int>)
    requires SeqsTo(w, c) == before
    ensures SeqsTo(w + [x], c) == before + if x.0 == c && x.1.EventMsg? then [x.1.sequence] else []
  {
    assert (w + [x])[..|w|] == w;
  }

  /** Dropping the last of distinct elements leaves distinct elements that do not include it. */
  lemma LastNotInInit<T>(s: seq<T>)
    requires |s| > 0 && NoDuplicates(s)
    ensures NoDuplicates(s[..|s| - 1]) && s[|s| - 1] !in s[..|s| - 1]
    ensures forall x :: x in s <==> x in s[..|s| - 1] || x == s[|s| - 1]
  {
    assert s == s[..|s| - 1] + [s[|s| - 1]];
  }

  /** The hub. */
  class Hub {
    var clients: map<ConnId, ClientState>
    var recentFingerprints: map<Json, int>
    var lastFingerprintPrune: int
    var eventQueue: seq<QueuedEvent>
    /** The `sync.Once` guard of ensureSubscription, and what it recorded. */
    var subscribeDone: bool
    var subscribeErr: Option<string>
    var running: bool
    var outbox: seq<(ConnId, Outbound)>

    /** The queue never holds more than its capacity; every stored list is normalised. */
    predicate Valid()
      reads this
    {
      |eventQueue| <= EventQueueSize
      && (forall c :: c in clients ==> NormalizedList(clients[c].chatIDs) && clients[c].sequence >= 0)
      && (!subscribeDone ==> subscribeErr.None? && !running)
    }

    /** The part of the hub that processing an event reads and changes. */
    function State(): HubState
      reads this
    {
      HubState(clients, recentFingerprints, lastFingerprintPrune, outbox)
    }

    /** newWSHub. */
    constructor ()
      ensures Valid()
      ensures clients == map[] && recentFingerprints == map[] && eventQueue == [] && outbox == []
      ensures lastFingerprintPrune == ZeroTimeMs
      ensures !subscribeDone && subscribeErr.None? && !running
    {
      clients := map[];
      recentFingerprints := map[];
      lastFingerprintPrune := ZeroTimeMs;
      eventQueue := [];
      subscribeDone := false;
      subscribeErr := None;
      running := false;
      outbox := [];
    }

    /** register: the connection now has `state`, replacing any earlier one. */
    method Register(conn: ConnId, state: ClientState)
      requires Valid()
      modifies this
      ensures clients == old(clients)[conn := state]
      ensures NormalizedList(state.chatIDs) && state.sequence >= 0 ==> Valid()
      ensures recentFingerprints == old(recentFingerprints) && lastFingerprintPrune == old(lastFingerprintPrune)
      ensures eventQueue == old(eventQueue) && outbox == old(outbox)
      ensures subscribeDone == old(subscribeDone) && subscribeErr == old(subscribeErr) && running == old(running)
    {
      clients := clients[conn := state];
    }

    /** unregister: the connection is gone; removing an unknown one changes nothing. */
    method Unregister(conn: ConnId)
      requires Valid()
      modifies this
      ensures Valid()
      ensures clients == old(clients) - {conn}
      ensures recentFingerprints == old(recentFingerprints) && lastFingerprintPrune == old(lastFingerprintPrune)
      ensures eventQueue == old(eventQueue) && outbox == old(outbox)
      ensures subscribeDone == old(subscribeDone) && subscribeErr == old(subscribeErr) && running == old(running)
    {
      clients := clients - {conn};
    }

    /** setSubscriptions: only a registered connection's list changes; its seq stays. */
    method SetSubscriptions(conn: ConnId, chatIDs: seq<string>)
      requires Valid()
      modifies this
      ensures conn in old(clients) ==> clients == old(clients)[conn := old(clients)[conn].(chatIDs := chatIDs)]
      ensures conn !in old(clients) ==> clients == old(clients)
      ensures NormalizedList(chatIDs) ==> Valid()
      ensures recentFingerprints == old(recentFingerprints) && lastFingerprintPrune == old(lastFingerprintPrune)
      ensures eventQueue == old(eventQueue) && outbox == old(outbox)
      ensures subscribeDone == old(subscribeDone) && subscribeErr == old(subscribeErr) && running == old(running)
    {
      if conn in clients {
        clients := clients[conn := clients[conn].(chatIDs := chatIDs)];
      }
    }

    /** subscribedTargets: every registered connection whose list matches the chat, each once. */
    method SubscribedTargets(chatID: string) returns (targets: seq<ConnId>)
      ensures NoDuplicates(targets)
      ensures forall c :: c in targets <==> c in clients && IsSubscribed(clients[c].chatIDs, chatID)
    {
      targets := [];
      var rest := clients.Keys;
      while rest != {}
        invariant rest <= clients.Keys
        invariant NoDuplicates(targets)
        invariant forall c :: c in targets <==> c in clients && c !in rest && IsSubscribed(clients[c].chatIDs, chatID)
        decreases |rest|
      {
        var c :| c in rest;
        if IsSubscribed(clients[c].chatIDs, chatID) {
          assert c !in targets;
          targets := targets + [c];
        }
        rest := rest - {c};
      }
    }

    /** pruneFingerprintsLocked: the loop that deletes stale entries, at most once per interval. */
    method PruneFingerprints(now: int)
      modifies this
      ensures (recentFingerprints, lastFingerprintPrune) == PruneState(old(recentFingerprints), old(lastFingerprintPrune), now)
      ensures clients == old(clients) && eventQueue == old(eventQueue) && outbox == old(outbox)
      ensures subscribeDone == old(subscribeDone) && subscribeErr == old(subscribeErr) && running == old(running)
    {
      if now - lastFingerprintPrune < FingerprintPruneIntervalMs {
        return;
      }
      lastFingerprintPrune := now;
      ghost var start := recentFingerprints;
      var rest := recentFingerprints.Keys;
      while rest != {}
        invariant lastFingerprintPrune == now
        invariant clients == old(clients) && eventQueue == old(eventQueue) && outbox == old(outbox)
        invariant subscribeDone == old(subscribeDone) && subscribeErr == old(subscribeErr) && running == old(running)
        invariant rest <= start.Keys
        invariant recentFingerprints.Keys <= start.Keys
        invariant forall k :: k in recentFingerprints ==> recentFingerprints[k] == start[k]
        invariant forall k :: k in start ==> (k in recentFingerprints <==> k in rest || now - start[k] <= FingerprintRetentionMs)
        decreases |rest|
      {
        var k :| k in rest;
        if now - recentFingerprints[k] > FingerprintRetentionMs {
          recentFingerprints := recentFingerprints - {k};
        }
        rest := rest - {k};
      }
      assert recentFingerprints == Pruned(start, now);
    }

    /** dropDuplicate: record the fingerprint at `now`, prune, and report whether it was seen less than 250 ms ago. */
    method DropDuplicate(ev: DomainEvent, entries: Entries, now: int) returns (dup: bool)
      modifies this
      ensures dup == IsDuplicate(old(recentFingerprints), Fingerprint(ev, entries), now)
      ensures (recentFingerprints, lastFingerprintPrune) ==
        AfterRecord(old(recentFingerprints), old(lastFingerprintPrune), Fingerprint(ev, entries), now)
      ensures clients == old(clients) && eventQueue == old(eventQueue) && outbox == old(outbox)
      ensures subscribeDone == old(subscribeDone) && subscribeErr == old(subscribeErr) && running == old(running)
    {
      var fp := Fingerprint(ev, entries);
      var hasPrevious := fp in recentFingerprints;
      var previousAt := if hasPrevious then recentFingerprints[fp] else ZeroTimeMs;
      recentFingerprints := recentFingerprints[fp := now];
      PruneFingerprints(now);
      dup := hasPrevious && now - previousAt < DuplicateEventDebounceMs;
    }

    /** write: the message goes out, or the write fails and the connection is unregistered. */
    method Write(conn: ConnId, msg: Outbound, fails: bool)
      requires Valid()
      modifies this
      ensures Valid()
      ensures !fails ==> outbox == old(outbox) + [(conn, msg)] && clients == old(clients)
      ensures fails ==> outbox == old(outbox) && clients == old(clients) - {conn}
      ensures recentFingerprints == old(recentFingerprints) && lastFingerprintPrune == old(lastFingerprintPrune)
      ensures eventQueue == old(eventQueue)
      ensures subscribeDone == old(subscribeDone) && subscribeErr == old(subscribeErr) && running == old(running)
    {
      if fails {
        Unregister(conn);
      } else {
        outbox := outbox + [(conn, msg)];
      }
    }

    /** The send-or-drop of the sync callback: a full queue drops the event instead of blocking. */
    method Enqueue(evt: QueuedEvent) returns (accepted: bool)
      requires Valid()
      modifies this
      ensures Valid()
      ensures accepted <==> |old(eventQueue)| < EventQueueSize
      ensures eventQueue == if accepted then old(eventQueue) + [evt] else old(eventQueue)
      ensures clients == old(clients) && outbox == old(outbox)
      ensures recentFingerprints == old(recentFingerprints) && lastFingerprintPrune == old(lastFingerprintPrune)
      ensures subscribeDone == old(subscribeDone) && subscribeErr == old(subscribeErr) && running == old(running)
    {
      if |eventQueue| < EventQueueSize {
        eventQueue := eventQueue + [evt];
        accepted := true;
      } else {
        accepted := false;
      }
    }

    /**
     * ensureSubscription: the first call subscribes (`outcome` is the
     * subscription's error, if any) and starts the run loop on success; every
     * call returns the error the first call recorded.
     */
    method EnsureSubscription(outcome: Option<string>) returns (err: Option<string>)
      requires Valid()
      modifies this
      ensures Valid()
      ensures old(subscribeDone) ==> subscribeErr == old(subscribeErr) && running == old(running)
      ensures !old(subscribeDone) ==> subscribeErr == outcome && running == outcome.None?
      ensures subscribeDone && err == subscribeErr
      ensures clients == old(clients) && eventQueue == old(eventQueue) && outbox == old(outbox)
      ensures recentFingerprints == old(recentFingerprints) && lastFingerprintPrune == old(lastFingerprintPrune)
    {
      if !subscribeDone {
        subscribeDone := true;
        if outcome.Some? {
          subscribeErr := outcome;
        } else {
          running := true;
        }
      }
      err := subscribeErr;
    }

    /**
     * One iteration of processSyncComplete: skip an event nobody subscribes to,
     * and a `message.upserted` whose hydration fails or is empty; then drop a
     * duplicate; else raise each target's seq and write the event to it.
     */
    method ProcessEvent(ev: DomainEvent, hydrate: Hydrator, now: int, broken: set<ConnId>)
      returns (delivered: seq<ConnId>, entries: Entries)
      requires Valid()
      modifies this
      ensures Valid()
      ensures EventProcessed(ev, hydrate, now, broken, Delivery(old(State()), delivered, entries, State()))
      ensures eventQueue == old(eventQueue)
      ensures subscribeDone == old(subscribeDone) && subscribeErr == old(subscribeErr) && running == old(running)
    {
      entries := [];
      delivered := [];
      var targets := SubscribedTargets(ev.chatID);
      if |targets| == 0 {
        assert clients == Bumped(clients, [], broken);
        return;
      }
      assert HasSubscriber(clients, ev.chatID) by {
        assert targets[0] in targets;
      }
      if ev.kind == MessageUpserted {
        var hydrated := hydrate(ev.chatID, ev.ids);
        if hydrated.None? || |hydrated.value| == 0 {
          assert clients == Bumped(clients, [], broken);
          return;
        }
        entries := hydrated.value;
      }
      var dup := DropDuplicate(ev, entries, now);
      if dup {
        assert clients == Bumped(clients, [], broken);
        return;
      }
      DeliverToTargets(targets, ev, now, entries, broken);
      delivered := targets;
    }

    /**
     * processSyncComplete: map the batch to domain events and process each in
     * turn, the i-th at time `clock(i)` with the writes to `broken(i)` failing. `steps` records each event's
     * processing, from the hub as it was to the hub as it is. Every connection
     * that is still registered keeps its list and has received event seqs
     * counting up by one from its old seq, which its new seq equals the last of.
     */
    method ProcessSyncComplete(sync: SyncComplete, hydrate: Hydrator, clock: nat -> int, broken: nat -> set<ConnId>)
      returns (ghost steps: seq<Delivery>)
      requires Valid()
      modifies this
      ensures Valid()
      ensures |steps| == |DomainEventsOf(sync)|
      ensures Batch(DomainEventsOf(sync), hydrate, clock, broken, old(State()), steps, State())
      ensures outbox == old(outbox) + BatchWrites(DomainEventsOf(sync), clock, broken, steps)
      ensures forall c :: c in old(clients) && c !in clients ==> c in FailedUpTo(broken, |DomainEventsOf(sync)|)
      ensures |old(outbox)| <= |outbox| && outbox[..|old(outbox)|] == old(outbox)
      ensures SeqsAccounted(old(clients), clients, outbox[|old(outbox)|..])
      ensures eventQueue == old(eventQueue)
      ensures subscribeDone == old(subscribeDone) && subscribeErr == old(subscribeErr) && running == old(running)
    {
      var events := MapSyncComplete(sync);
      var i := 0;
      steps := [];
      assert old(outbox) + [] == old(outbox);
      while i < |events|
        invariant 0 <= i <= |events|
        invariant Valid()
        invariant |steps| == i
        invariant Batch(events, hydrate, clock, broken, old(State()), steps, State())
        invariant outbox == old(outbox) + BatchWrites(events, clock, broken, steps)
        invariant forall c :: c in old(clients) && c !in clients ==> c in FailedUpTo(broken, i)
        invariant SeqsAccounted(old(clients), clients, BatchWrites(events, clock, broken, steps))
        invariant eventQueue == old(eventQueue)
        invariant subscribeDone == old(subscribeDone) && subscribeErr == old(subscribeErr) && running == old(running)
      {
        var d := ProcessAccounted(events, i, hydrate, clock, broken, old(State()), steps);
        steps := steps + [d];
        i := i + 1;
      }
      AppendSlices(old(outbox), BatchWrites(events, clock, broken, steps));
    }

    /**
     * One iteration of processSyncComplete's loop, seen from the batch: the
     * next event is processed, extending the batch from `start` by one step,
     * and the seq accounting against the registry at the start of the batch
     * is kept.
     */
    method ProcessAccounted(events: seq<DomainEvent>, k: nat, hydrate: Hydrator, clock: nat -> int, broken: nat -> set<ConnId>,
                            ghost start: HubState, ghost steps: seq<Delivery>)
      returns (ghost d: Delivery)
      requires Valid()
      requires k == |steps| < |events|
      requires Batch(events, hydrate, clock, broken, start, steps, State())
      requires outbox == start.outbox + BatchWrites(events, clock, broken, steps)
      requires forall c :: c in start.clients && c !in clients ==> c in FailedUpTo(broken, |steps|)
      requires SeqsAccounted(start.clients, clients, BatchWrites(events, clock, broken, steps))
      modifies this
      ensures Valid()
      ensures d.before == old(State()) && d.after == State()
      ensures Batch(events, hydrate, clock, broken, start, steps + [d], State())
      ensures outbox == start.outbox + BatchWrites(events, clock, broken, steps + [d])
      ensures forall c :: c in start.clients && c !in clients ==> c in FailedUpTo(broken, |steps| + 1)
      ensures SeqsAccounted(start.clients, clients, BatchWrites(events, clock, broken, steps + [d]))
      ensures eventQueue == old(eventQueue)
      ensures subscribeDone == old(subscribeDone) && subscribeErr == old(subscribeErr) && running == old(running)
    {
      ghost var s1 := State();
      var delivered, entries := ProcessEvent(events[k], hydrate, clock(k), broken(k));
      d := Delivery(s1, delivered, entries, State());
      BatchStep(events, hydrate, clock, broken, start, steps, d);
      BatchWritesSnoc(events, clock, broken, steps, d);
      SeqsAccountedStep(start.clients, s1.clients, BatchWrites(events, clock, broken, steps), delivered, broken(k), events[k], clock(k), entries);
    }

    /** One frame of the read loop: interpret it, adopt an accepted list, and write the reply. */
    method HandleFrame(conn: ConnId, f: Frame, writeFails: bool) returns (reply: Reply)
      requires Valid()
      modifies this
      ensures Valid()
      ensures reply == CommandReply(f)
      ensures var adopted := if reply.Updated? && conn in old(clients)
          then old(clients)[conn := old(clients)[conn].(chatIDs := reply.chatIDs)]
          else old(clients);
        clients == if writeFails then adopted - {conn} else adopted
      ensures outbox == if writeFails then old(outbox) else old(outbox) + [(conn, ReplyMessage(reply))]
      ensures recentFingerprints == old(recentFingerprints) && lastFingerprintPrune == old(lastFingerprintPrune)
      ensures eventQueue == old(eventQueue)
      ensures subscribeDone == old(subscribeDone) && subscribeErr == old(subscribeErr) && running == old(running)
    {
      reply := InterpretCommand(f);
      if reply.Updated? {
        UpdatedListNormalized(f);
        SetSubscriptions(conn, reply.chatIDs);
      }
      Write(conn, ReplyMessage(reply), writeFails);
    }

    /**
     * The start of the `/v1/ws` handler: make sure the hub is subscribed, then
     * register the connection with seq 0 and no chats, and write `ready`.
     */
    method Connect(conn: ConnId, outcome: Option<string>, writeFails: bool) returns (err: Option<string>)
      requires Valid()
      modifies this
      ensures Valid()
      ensures err == subscribeErr
      ensures err.Some? ==> clients == old(clients) && outbox == old(outbox)
      ensures err.None? && !writeFails ==>
        clients == old(clients)[conn := ClientState(0, [])]
        && outbox == old(outbox) + [(conn, ReadyMsg(ReadyVersion, []))]
      ensures err.None? && writeFails ==> clients == old(clients) - {conn} && outbox == old(outbox)
      ensures eventQueue == old(eventQueue)
      ensures recentFingerprints == old(recentFingerprints) && lastFingerprintPrune == old(lastFingerprintPrune)
    {
      err := EnsureSubscription(outcome);
      if err.Some? {
        return;
      }
      Register(conn, ClientState(0, []));
      Write(conn, ReadyMsg(ReadyVersion, []), writeFails);
    }

    /** The end of the handler (a read error or a closed connection): the connection is unregistered. */
    method Disconnect(conn: ConnId)
      requires Valid()
      modifies this
      ensures Valid()
      ensures clients == old(clients) - {conn} && outbox == old(outbox)
      ensures eventQueue == old(eventQueue)
    {
      Unregister(conn);
    }

    /**
     * One turn of the run loop: take the oldest queued event and process it
     * if it is a completed sync, recording each of its events' processing in
     * `steps`.
     */
    method RunStep(hydrate: Hydrator, clock: nat -> int, broken: nat -> set<ConnId>)
      returns (taken: Option<QueuedEvent>, ghost steps: seq<Delivery>)
      requires Valid()
      modifies this
      ensures Valid()
      ensures old(eventQueue) == [] ==> taken.None? && eventQueue == [] && clients == old(clients) && outbox == old(outbox)
      ensures old(eventQueue) != [] ==> taken == Some(old(eventQueue)[0]) && eventQueue == old(eventQueue)[1..]
      ensures taken == Some(OtherEvent) ==> clients == old(clients) && outbox == old(outbox)
      ensures taken.Some? && taken.value.SyncEvent? ==>
        |steps| == |DomainEventsOf(taken.value.sync)|
        && Batch(DomainEventsOf(taken.value.sync), hydrate, clock, broken, old(State()), steps, State())
        && outbox == old(outbox) + BatchWrites(DomainEventsOf(taken.value.sync), clock, broken, steps)
      ensures taken.None? || taken == Some(OtherEvent) ==>
        recentFingerprints == old(recentFingerprints) && lastFingerprintPrune == old(lastFingerprintPrune)
      ensures subscribeDone == old(subscribeDone) && subscribeErr == old(subscribeErr) && running == old(running)
      ensures clients.Keys <= old(clients).Keys
    {
      steps := [];
      if |eventQueue| == 0 {
        return None, steps;
      }
      var evt := eventQueue[0];
      eventQueue := eventQueue[1..];
      taken := Some(evt);
      if evt.SyncEvent? {
        steps := ProcessSyncComplete(evt.sync, hydrate, clock, broken);
      }
    }

    /** One pass of the delivery loop: raise the target's seq, then write the event with it. */
    method DeliverTo(t: ConnId, ev: DomainEvent, now: int, entries: Entries, fails: bool)
      requires Valid() && t in clients
      modifies this
      ensures Valid()
      ensures clients == BumpOne(old(clients), t, fails)
      ensures outbox == old(outbox) + (if fails then []
        else [(t, EventMsg(ev.kind.Wire(), old(clients)[t].sequence + 1, now, ev.chatID, ev.ids, entries))])
      ensures recentFingerprints == old(recentFingerprints) && lastFingerprintPrune == old(lastFingerprintPrune)
      ensures eventQueue == old(eventQueue)
      ensures subscribeDone == old(subscribeDone) && subscribeErr == old(subscribeErr) && running == old(running)
    {
      clients := clients[t := clients[t].(sequence := clients[t].sequence + 1)];
      var msg := EventMsg(ev.kind.Wire(), clients[t].sequence, now, ev.chatID, ev.ids, entries);
      Write(t, msg, fails);
    }

    /** The inner loop of processSyncComplete: `seq++`, then write, for each target in turn. */
    method DeliverToTargets(targets: seq<ConnId>, ev: DomainEvent, now: int, entries: Entries, broken: set<ConnId>)
      requires Valid()
      requires NoDuplicates(targets)
      requires forall i :: 0 <= i < |targets| ==> targets[i] in clients
      modifies this
      ensures Valid()
      ensures outbox == old(outbox) + EventWrites(old(clients), targets, broken, ev, now, entries)
      ensures clients == Bumped(old(clients), targets, broken)
      ensures recentFingerprints == old(recentFingerprints) && lastFingerprintPrune == old(lastFingerprintPrune)
      ensures eventQueue == old(eventQueue)
      ensures subscribeDone == old(subscribeDone) && subscribeErr == old(subscribeErr) && running == old(running)
    {
      var i := 0;
      assert clients == Bumped(old(clients), targets[..0], broken);
      while i < |targets|
        invariant 0 <= i <= |targets|
        invariant Valid()
        invariant outbox == old(outbox) + EventWrites(old(clients), targets[..i], broken, ev, now, entries)
        invariant clients == Bumped(old(clients), targets[..i], broken)
        invariant recentFingerprints == old(recentFingerprints) && lastFingerprintPrune == old(lastFingerprintPrune)
        invariant eventQueue == old(eventQueue)
        invariant subscribeDone == old(subscribeDone) && subscribeErr == old(subscribeErr) && running == old(running)
      {
        var t := targets[i];
        BumpedStep(old(clients), targets, i, broken);
        EventWritesStep(old(clients), targets, i, broken, ev, now, entries);
        DeliverTo(t, ev, now, entries, t in broken);
        i := i + 1;
      }
      assert targets[..i] == targets;
    }
  }

  lemma EventWritesStep(clients: map<ConnId, ClientState>, targets: seq<ConnId>, i: nat, broken: set<ConnId>, ev: DomainEvent, now: int, entries: Entries)
    requires i < |targets|
    requires forall j :: 0 <= j < |targets| ==> targets[j] in clients
    ensures var t := targets[i];
      EventWrites(clients, targets[..i + 1], broken, ev, now, entries) == EventWrites(clients, targets[..i], broken, ev, now, entries)
      + (if t in broken then [] else [(t, EventMsg(ev.kind.Wire(), clients[t].sequence + 1, now, ev.chatID, ev.ids, entries))])
  {
    assert targets[..i + 1][..i] == targets[..i];
  }

  lemma BumpedStep(clients: map<ConnId, ClientState>, targets: seq<ConnId>, i: nat, broken: set<ConnId>)
    requires i < |targets| && NoDuplicates(targets)
    requires forall j :: 0 <= j < |targets| ==> targets[j] in clients
    ensures var t := targets[i];
      var cur := Bumped(clients, targets[..i], broken);
      t in cur && cur[t] == clients[t]
      && Bumped(clients, targets[..i + 1], broken) == BumpOne(cur, t, t in broken)
  {
    var t := targets[i];
    assert t !in targets[..i];
    assert targets[..i + 1] == targets[..i] + [t];
  }
}
