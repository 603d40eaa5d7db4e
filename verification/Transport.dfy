/**
 * Outbox, relays, topics and the consumer of `signal-updates`.
 *
 * A transaction leaves events in the outbox table. A relay locks a batch with
 * SKIP LOCKED, produces every row, and deletes the batch only when every delivery
 * was acknowledged. The serving consumer commits its database transaction first
 * and its offset second. Any process may stop between any two of these steps, so
 * every hop delivers at least once.
 */
module Transport {
  import opened Prelude
  import opened ServingSink

  datatype Reason = PriceStateChange | NewDocument | FlowUpdate | TargetPriceUpdate | MarketClose

  datatype Request = Request(symbol: Symbol, reason: Reason, eventTime: Time)

  datatype Event = UpdateEvent(update: Update) | RequestEvent(request: Request)

  /** Deterministic ids of updates, and the random ids of requests. */
  datatype EventId = UpdateId(moveId: MoveId, version: int) | RandomId(n: nat)

  type RelayId = nat

  const BATCH_SIZE := 100

  /** A relay between locking its batch and deleting it. */
  datatype Relay = Relay(batch: set<EventId>, acked: set<EventId>)

  /** The serving consumer: committed offset, and how far its transactions went. */
  datatype Sink = Sink(offset: nat, applied: nat, tables: Tables)

  datatype Bus = Bus(
    outbox: map<EventId, Event>,
    relays: map<RelayId, Relay>,
    updates: seq<Update>,     // topic signal-updates
    requests: seq<Request>,   // topic signal-requests
    sink: Sink,
    ghost committed: set<(EventId, Event)>,   // every outbox row ever committed
    ghost seen: set<Update>)                  // every update a sink transaction took

  ghost const START := Bus(map[], map[], [], [], Sink(0, 0, EMPTY), {}, {})

  datatype BusStep =
    | LockBatch(r: RelayId, batch: set<EventId>)
    | Produce(r: RelayId, id: EventId, ackLost: bool)
    | DeleteBatch(r: RelayId)
    | RelayStops(r: RelayId)
    | ArrivesLate(e: Event)   // a record in flight reaches its topic after its relay gave up, or once more
    | SinkTransaction
    | CommitOffset
    | SinkRestarts
    | SinkDuplicate(i: nat)

  /** One outbox row in the caller's transaction; a known id is left as it is. */
  ghost function Insert(b: Bus, id: EventId, e: Event): Bus {
    if id in b.outbox then b
    else b.(outbox := b.outbox[id := e], committed := b.committed + {(id, e)})
  }

  ghost function Append(b: Bus, e: Event): Bus {
    match e
    case UpdateEvent(u) => b.(updates := b.updates + [u])
    case RequestEvent(q) => b.(requests := b.requests + [q])
  }

  ghost predicate InTopic(b: Bus, e: Event) {
    match e
    case UpdateEvent(u) => u in b.updates
    case RequestEvent(q) => q in b.requests
  }

  ghost predicate Locked(b: Bus, id: EventId) {
    exists r :: r in b.relays && id in b.relays[r].batch
  }

  ghost predicate Enabled(b: Bus, s: BusStep) {
    match s
    case LockBatch(r, batch) =>
      && r !in b.relays && 0 < |batch| <= BATCH_SIZE && batch <= b.outbox.Keys
      && forall id :: id in batch ==> !Locked(b, id)
    case Produce(r, id, _) => r in b.relays && id in b.relays[r].batch && id in b.outbox
    case DeleteBatch(r) => r in b.relays && b.relays[r].acked == b.relays[r].batch
    case RelayStops(r) => r in b.relays
    case ArrivesLate(e) => WasCommitted(b, e)
    case SinkTransaction =>
      b.sink.applied == b.sink.offset && b.sink.offset < |b.updates| && Accepts(b.sink.tables, b.updates[b.sink.offset])
    case CommitOffset => b.sink.applied == b.sink.offset + 1
    case SinkRestarts => true
    case SinkDuplicate(i) => i < |b.updates|
  }

  ghost function Do(b: Bus, s: BusStep): Bus
    requires Enabled(b, s)
  {
    match s
    case LockBatch(r, batch) => b.(relays := b.relays[r := Relay(batch, {})])
    case Produce(r, id, ackLost) =>
      var sent := Append(b, b.outbox[id]);
      if ackLost then sent
      else sent.(relays := b.relays[r := b.relays[r].(acked := b.relays[r].acked + {id})])
    case DeleteBatch(r) => b.(outbox := b.outbox - b.relays[r].batch, relays := b.relays - {r})
    case RelayStops(r) => b.(relays := b.relays - {r})
    case ArrivesLate(e) => Append(b, e)
    case SinkTransaction =>
      b.(sink := TakenBy(b.sink, b.updates[b.sink.offset]), seen := b.seen + {b.updates[b.sink.offset]})
    case CommitOffset => b.(sink := b.sink.(offset := b.sink.applied))
    case SinkRestarts => b.(sink := b.sink.(applied := b.sink.offset))
    case SinkDuplicate(i) => Take(b, b.updates[i])
  }

  ghost function Take(b: Bus, u: Update): Bus {
    b.(sink := b.sink.(tables := Apply(b.sink.tables, u)), seen := b.seen + {u})
  }

  ghost function TakenBy(k: Sink, u: Update): Sink {
    k.(tables := Apply(k.tables, u), applied := k.offset + 1)
  }

  // ----- what every step keeps

  /** Nothing is lost: a committed row is in the outbox or its event is in its topic. */
  ghost predicate NoneLost(b: Bus) {
    forall c :: c in b.committed ==> (c.0 in b.outbox && b.outbox[c.0] == c.1) || InTopic(b, c.1)
  }

  ghost predicate WasCommitted(b: Bus, e: Event) {
    exists c :: c in b.committed && c.1 == e
  }

  /** Nothing is invented: outbox rows and topic records come from committed rows. */
  ghost predicate NoneInvented(b: Bus) {
    && (forall id :: id in b.outbox ==> (id, b.outbox[id]) in b.committed)
    && (forall u :: u in b.updates ==> WasCommitted(b, UpdateEvent(u)))
    && (forall q :: q in b.requests ==> WasCommitted(b, RequestEvent(q)))
  }

  /** Batches are disjoint sets of present rows, and an acknowledged row is in its topic. */
  ghost predicate RelaysSound(b: Bus) {
    && (forall r :: r in b.relays ==> b.relays[r].acked <= b.relays[r].batch <= b.outbox.Keys)
    && (forall r, q :: r in b.relays && q in b.relays && r != q ==> b.relays[r].batch !! b.relays[q].batch)
    && (forall r, id :: r in b.relays && id in b.relays[r].acked ==> InTopic(b, b.outbox[id]))
  }

  /** Every record below the committed offset was taken by a sink transaction. */
  ghost predicate OffsetSound(b: Bus) {
    && b.sink.offset <= b.sink.applied <= b.sink.offset + 1
    && b.sink.applied <= |b.updates|
    && (forall i :: 0 <= i < b.sink.applied ==> b.updates[i] in b.seen)
    && (forall u :: u in b.seen ==> u in b.updates)
  }

  ghost predicate BusInv(b: Bus) {
    NoneLost(b) && NoneInvented(b) && RelaysSound(b) && OffsetSound(b)
  }

  lemma TopicGrows(b: Bus, e: Event, d: Event)
    ensures InTopic(b, d) || d == e <==> InTopic(Append(b, e), d)
  {}

  lemma InsertKeepsBusInv(b: Bus, id: EventId, e: Event)
    requires BusInv(b)
    ensures BusInv(Insert(b, id, e))
  {
    var b' := Insert(b, id, e);
    forall c | c in b'.committed ensures (c.0 in b'.outbox && b'.outbox[c.0] == c.1) || InTopic(b', c.1) {
      assert c in b.committed || c == (id, e);
    }
    CommittedGrows(b, b');
  }

  lemma CommittedGrows(b: Bus, b': Bus)
    requires b.committed <= b'.committed && b.updates == b'.updates && b.requests == b'.requests
    requires forall u :: u in b.updates ==> WasCommitted(b, UpdateEvent(u))
    requires forall q :: q in b.requests ==> WasCommitted(b, RequestEvent(q))
    ensures forall u :: u in b'.updates ==> WasCommitted(b', UpdateEvent(u))
    ensures forall q :: q in b'.requests ==> WasCommitted(b', RequestEvent(q))
  {
    forall u | u in b'.updates ensures WasCommitted(b', UpdateEvent(u)) {
      var c :| c in b.committed && c.1 == UpdateEvent(u);
      assert c in b'.committed;
    }
    forall q | q in b'.requests ensures WasCommitted(b', RequestEvent(q)) {
      var c :| c in b.committed && c.1 == RequestEvent(q);
      assert c in b'.committed;
    }
  }

  lemma StepKeepsBusInv(b: Bus, s: BusStep)
    requires BusInv(b) && Enabled(b, s)
    ensures BusInv(Do(b, s))
  {
    match s
    case LockBatch(r, batch) => LockKeepsBusInv(b, r, batch);
    case Produce(r, id, ackLost) => ProduceKeepsBusInv(b, r, id, ackLost);
    case DeleteBatch(r) => DeleteKeepsBusInv(b, r);
    case RelayStops(r) =>
    case ArrivesLate(e) => AppendKeepsBusInv(b, e);
    case SinkTransaction =>
    case CommitOffset =>
    case SinkRestarts =>
    case SinkDuplicate(i) =>
  }

  lemma LockKeepsBusInv(b: Bus, r: RelayId, batch: set<EventId>)
    requires BusInv(b) && Enabled(b, LockBatch(r, batch))
    ensures BusInv(Do(b, LockBatch(r, batch)))
  {
    forall q | q in b.relays ensures b.relays[q].batch !! batch {
      forall id | id in batch ensures id !in b.relays[q].batch {
        assert !Locked(b, id);
      }
    }
  }

  /** A committed event may reach its topic at any time and any number of times. */
  lemma AppendKeepsBusInv(b: Bus, e: Event)
    requires BusInv(b) && WasCommitted(b, e)
    ensures BusInv(Append(b, e)) && InTopic(Append(b, e), e)
  {
    var b' := Append(b, e);
    forall d ensures InTopic(b, d) || d == e <==> InTopic(b', d) {
      TopicGrows(b, e, d);
    }
    forall d: Event | WasCommitted(b, d) ensures WasCommitted(b', d) {
      var c :| c in b.committed && c.1 == d;
      assert c in b'.committed;
    }
    forall u | u in b'.updates ensures WasCommitted(b', UpdateEvent(u)) {
      assert u in b.updates || UpdateEvent(u) == e;
    }
    forall q | q in b'.requests ensures WasCommitted(b', RequestEvent(q)) {
      assert q in b.requests || RequestEvent(q) == e;
    }
  }

  lemma ProduceKeepsBusInv(b: Bus, r: RelayId, id: EventId, ackLost: bool)
    requires BusInv(b) && Enabled(b, Produce(r, id, ackLost))
    ensures BusInv(Do(b, Produce(r, id, ackLost)))
  {
    assert (id, b.outbox[id]) in b.committed;
    AppendKeepsBusInv(b, b.outbox[id]);
  }

  lemma DeleteKeepsBusInv(b: Bus, r: RelayId)
    requires BusInv(b) && Enabled(b, DeleteBatch(r))
    ensures BusInv(Do(b, DeleteBatch(r)))
  {
    var b' := Do(b, DeleteBatch(r));
    forall c | c in b.committed ensures (c.0 in b'.outbox && b'.outbox[c.0] == c.1) || InTopic(b', c.1) {
      if !InTopic(b, c.1) {
        assert c.0 in b.outbox && b.outbox[c.0] == c.1;
        assert c.0 !in b.relays[r].acked;
      }
    }
    CommittedGrows(b, b');
  }

  /** The sink tables stay what the taken updates stand for, whatever was redelivered. */
  ghost predicate TablesSettled(b: Bus) { Settled(b.sink.tables, b.seen) }

  lemma TakeSettles(b: Bus, s: BusStep, all: set<Update>)
    requires BusInv(b) && TablesSettled(b) && Enabled(b, s)
    requires Elems(b.updates) <= all && AllStorable(all) && KeyConsistent(all) && NoStraddle(all)
    ensures TablesSettled(Do(b, s))
  {
    if s.SinkTransaction? || s.SinkDuplicate? {
      TakenSettles(b, if s.SinkTransaction? then b.sink.offset else s.i, all);
    }
  }

  lemma TakenSettles(b: Bus, i: nat, all: set<Update>)
    requires OffsetSound(b) && TablesSettled(b) && i < |b.updates|
    requires Elems(b.updates) <= all && AllStorable(all) && KeyConsistent(all) && NoStraddle(all)
    ensures Settled(Apply(b.sink.tables, b.updates[i]), b.seen + {b.updates[i]})
  {
    assert b.updates[i] in Elems(b.updates);
    SubsetIsConsistent(b.seen + {b.updates[i]}, all);
    ApplySettles(b.sink.tables, b.seen, b.updates[i]);
  }

  // ----- at rest

  ghost predicate AtRest(b: Bus) {
    b.outbox == map[] && b.sink.offset == |b.updates|
  }

  ghost function CommittedUpdates(b: Bus): set<Update> {
    set c | c in b.committed && c.1.UpdateEvent? :: c.1.update
  }

  /** With an empty outbox and the offset at the end, the sink took exactly the committed updates. */
  lemma RestMeansAllTaken(b: Bus)
    requires BusInv(b) && AtRest(b)
    ensures b.seen == Elems(b.updates) == CommittedUpdates(b)
    ensures forall c :: c in b.committed ==> InTopic(b, c.1)
  {
    forall c | c in b.committed ensures InTopic(b, c.1) {
      assert c.0 !in b.outbox;
    }
    forall u | u in b.updates ensures u in b.seen && u in CommittedUpdates(b) {
      assert WasCommitted(b, UpdateEvent(u));
    }
    forall u | u in CommittedUpdates(b) ensures u in b.updates {
      var c :| c in b.committed && c.1.UpdateEvent? && c.1.update == u;
      assert InTopic(b, c.1);
    }
  }
}
