/**
 * One turn of the outbox relay: lock a batch of rows, produce each of them, wait for
 * the acknowledgements, and delete the batch only when every record was acknowledged.
 */
module OutboxRelay {
  import opened Prelude
  import opened Transport

  /** What becomes of one produced record: whether the topic has it, and what the producer hears. */
  datatype Report = Acknowledged | Failed(arrived: bool) | InFlight(arrived: bool)

  predicate Arrives(r: Report) {
    r.Acknowledged? || r.arrived
  }

  /** A selected row, how often the producer's buffer is full before it takes the record, and the report. */
  datatype Record = Record(id: EventId, event: Event, refusals: nat, report: Report)

  /** Every record was acknowledged. */
  predicate AllHeard(records: seq<Record>) {
    forall i :: 0 <= i < |records| ==> records[i].report.Acknowledged?
  }

  function Ids(records: seq<Record>): set<EventId> {
    if records == [] then {} else Ids(records[..|records| - 1]) + {records[|records| - 1].id}
  }

  /** One record: it may reach its topic, and the producer may hear of it. */
  ghost function SentOne(b: Bus, name: RelayId, r: Record): (after: Bus)
    requires name in b.relays
    ensures after.relays.Keys == b.relays.Keys && after.outbox == b.outbox && after.sink == b.sink
    ensures after.relays[name].batch == b.relays[name].batch
  {
    if !Arrives(r.report) then b
    else
      var sent := Append(b, r.event);
      if r.report.Acknowledged? then sent.(relays := b.relays[name := b.relays[name].(acked := b.relays[name].acked + {r.id})]) else sent
  }

  ghost function Sent(b: Bus, name: RelayId, records: seq<Record>): (after: Bus)
    requires name in b.relays
    ensures after.relays.Keys == b.relays.Keys && after.outbox == b.outbox && after.sink == b.sink
    ensures after.relays[name].batch == b.relays[name].batch
  {
    if records == [] then b else SentOne(Sent(b, name, records[..|records| - 1]), name, records[|records| - 1])
  }

  /** The records are rows of the locked batch. */
  ghost predicate OfBatch(b: Bus, name: RelayId, records: seq<Record>) {
    && name in b.relays
    && forall i :: 0 <= i < |records| ==>
         records[i].id in b.relays[name].batch && records[i].id in b.outbox && b.outbox[records[i].id] == records[i].event
  }

  lemma SentOneIsAStep(b: Bus, name: RelayId, r: Record)
    requires BusInv(b) && name in b.relays && r.id in b.relays[name].batch && r.id in b.outbox && b.outbox[r.id] == r.event
    ensures BusInv(SentOne(b, name, r))
    ensures Arrives(r.report) ==> var step := Produce(name, r.id, !r.report.Acknowledged?);
              Enabled(b, step) && SentOne(b, name, r) == Do(b, step)
  {
    if Arrives(r.report) {
      StepKeepsBusInv(b, Produce(name, r.id, !r.report.Acknowledged?));
    }
  }

  /** However the producer fares, nothing but topics and this relay's acknowledgements change, and everything stays sound. */
  lemma {:induction false} SentIsSound(b: Bus, name: RelayId, records: seq<Record>)
    requires BusInv(b) && OfBatch(b, name, records)
    ensures BusInv(Sent(b, name, records))
    ensures forall q :: q in b.relays && q != name ==> Sent(b, name, records).relays[q] == b.relays[q]
  {
    if records != [] {
      SentIsSound(b, name, records[..|records| - 1]);
      SentOneIsAStep(Sent(b, name, records[..|records| - 1]), name, records[|records| - 1]);
    }
  }

  lemma {:induction false} AllAcknowledged(b: Bus, name: RelayId, records: seq<Record>)
    requires name in b.relays && b.relays[name].acked == {}
    requires AllHeard(records)
    ensures Sent(b, name, records).relays[name].acked == Ids(records)
  {
    if records != [] {
      AllAcknowledged(b, name, records[..|records| - 1]);
    }
  }

  lemma SentSnoc(b: Bus, name: RelayId, records: seq<Record>, i: nat)
    requires name in b.relays && i < |records|
    ensures Sent(b, name, records[..i + 1]) == SentOne(Sent(b, name, records[..i]), name, records[i])
  {
    assert records[..i + 1][..i] == records[..i];
  }

  /** The rows a relay may select: present, unlocked, distinct, and no more than a batch. */
  ghost predicate Selectable(b: Bus, records: seq<Record>) {
    && |records| <= 100
    && (forall i :: 0 <= i < |records| ==>
          records[i].id in b.outbox && b.outbox[records[i].id] == records[i].event && !Locked(b, records[i].id))
    && forall i, j :: 0 <= i < j < |records| ==> records[i].id != records[j].id
  }

  class OutboxRelay {
    const name: RelayId
    ghost var bus: Bus

    constructor (name: RelayId, bus: Bus)
      ensures this.name == name && this.bus == bus
    {
      this.name, this.bus := name, bus;
    }

    /** Produce and flush; true only when every record was acknowledged. */
    method SendRecords(records: seq<Record>) returns (ok: bool)
      requires name in bus.relays
      modifies this`bus
      ensures bus == Sent(old(bus), name, records)
      ensures ok <==> AllHeard(records)
    {
      var delivered, failures, inFlight := 0, 0, 0;
      for i := 0 to |records|
        invariant delivered + failures + inFlight == i && delivered >= 0 && failures >= 0 && inFlight >= 0
        invariant delivered == i <==> AllHeard(records[..i])
        invariant bus == Sent(old(bus), name, records[..i])
      {
        var refused := 0;
        while refused < records[i].refusals {
          refused := refused + 1;
        }
        SentSnoc(old(bus), name, records, i);
        assert records[..i + 1] == records[..i] + [records[i]];
        bus := SentOne(bus, name, records[i]);
        match records[i].report
        case Acknowledged => delivered := delivered + 1;
        case Failed(_) => failures := failures + 1;
        case InFlight(_) => inFlight := inFlight + 1;
      }
      assert records[..|records|] == records;
      ok := !(inFlight > 0 || failures > 0 || delivered != |records|);
    }

    /** One turn. The rows leave the outbox only when all of them are in their topics; otherwise all stay. */
    method RelayOnce(records: seq<Record>) returns (sent: Option<nat>)
      requires BusInv(bus) && name !in bus.relays && Selectable(bus, records)
      modifies this`bus
      ensures BusInv(bus) && bus.relays == old(bus).relays && bus.sink == old(bus).sink
      ensures sent.Some? <==> AllHeard(records)
      ensures sent.Some? ==> sent.value == |records| && bus.outbox == old(bus).outbox - Ids(records)
      ensures sent.Some? ==> forall i :: 0 <= i < |records| ==> InTopic(bus, records[i].event)
      ensures sent.None? ==> bus.outbox == old(bus).outbox
    {
      if records == [] {
        return Some(0);
      }
      ghost var before := bus;
      LockIsSound(before, name, records);
      bus := LockedFor(before, name, records);
      var ok := SendRecords(records);
      if ok {
        TurnIsSound(before, name, records);
        bus := bus.(outbox := bus.outbox - Ids(records), relays := bus.relays - {name});
        return Some(|records|);
      } else {
        StoppedTurnIsSound(before, name, records);
        bus := bus.(relays := bus.relays - {name});
        return None;
      }
    }
  }

  ghost function LockedFor(b: Bus, name: RelayId, records: seq<Record>): Bus {
    b.(relays := b.relays[name := Relay(Ids(records), {})])
  }

  lemma LockIsSound(b: Bus, name: RelayId, records: seq<Record>)
    requires BusInv(b) && name !in b.relays && records != [] && Selectable(b, records)
    ensures Enabled(b, LockBatch(name, Ids(records))) && LockedFor(b, name, records) == Do(b, LockBatch(name, Ids(records)))
    ensures BusInv(LockedFor(b, name, records)) && OfBatch(LockedFor(b, name, records), name, records)
  {
    LockIsEnabled(b, name, records);
    StepKeepsBusInv(b, LockBatch(name, Ids(records)));
    forall i | 0 <= i < |records| ensures records[i].id in Ids(records) {
      IdsHold(records, i);
    }
  }

  lemma OthersKeepTheirLocks(b: Bus, name: RelayId, records: seq<Record>)
    requires BusInv(b) && name !in b.relays && records != [] && Selectable(b, records)
    ensures Sent(LockedFor(b, name, records), name, records).relays - {name} == b.relays
  {
    LockIsSound(b, name, records);
    SentIsSound(LockedFor(b, name, records), name, records);
  }

  /** A turn that is not fully acknowledged is a locked batch, some productions and a stop. */
  lemma StoppedTurnIsSound(b: Bus, name: RelayId, records: seq<Record>)
    requires BusInv(b) && name !in b.relays && records != [] && Selectable(b, records)
    ensures var sent := Sent(LockedFor(b, name, records), name, records);
            BusInv(sent.(relays := sent.relays - {name})) && sent.relays - {name} == b.relays
  {
    LockIsSound(b, name, records);
    SentIsSound(LockedFor(b, name, records), name, records);
    OthersKeepTheirLocks(b, name, records);
    StepKeepsBusInv(Sent(LockedFor(b, name, records), name, records), RelayStops(name));
  }

  /** A fully acknowledged turn may delete its batch: every row is in its topic. */
  lemma TurnIsSound(b: Bus, name: RelayId, records: seq<Record>)
    requires BusInv(b) && name !in b.relays && records != [] && Selectable(b, records) && AllHeard(records)
    ensures var sent := Sent(LockedFor(b, name, records), name, records);
            && BusInv(sent.(outbox := sent.outbox - Ids(records), relays := sent.relays - {name}))
            && sent.relays - {name} == b.relays
            && forall i :: 0 <= i < |records| ==> InTopic(sent, records[i].event)
  {
    LockIsSound(b, name, records);
    SentIsSound(LockedFor(b, name, records), name, records);
    OthersKeepTheirLocks(b, name, records);
    AllAcknowledged(LockedFor(b, name, records), name, records);
    AcknowledgedAreInTopic(Sent(LockedFor(b, name, records), name, records), name, records);
    StepKeepsBusInv(Sent(LockedFor(b, name, records), name, records), DeleteBatch(name));
  }

  lemma {:induction false} IdsHold(records: seq<Record>, i: nat)
    requires i < |records|
    ensures records[i].id in Ids(records)
  {
    if i < |records| - 1 {
      IdsHold(records[..|records| - 1], i);
    }
  }

  lemma {:induction false} IdsCome(records: seq<Record>, id: EventId)
    requires id in Ids(records)
    ensures exists i :: 0 <= i < |records| && records[i].id == id
  {
    var front, last := records[..|records| - 1], records[|records| - 1];
    if last.id != id {
      IdsCome(front, id);
      var i :| 0 <= i < |front| && front[i].id == id;
      assert records[i].id == id;
    }
  }

  lemma {:induction false} IdsAreFew(records: seq<Record>)
    ensures |Ids(records)| <= |records|
    ensures records != [] ==> |Ids(records)| > 0
  {
    if records != [] {
      IdsAreFew(records[..|records| - 1]);
    }
  }

  lemma LockIsEnabled(b: Bus, name: RelayId, records: seq<Record>)
    requires name !in b.relays && records != [] && Selectable(b, records)
    ensures Enabled(b, LockBatch(name, Ids(records)))
  {
    IdsAreFew(records);
    forall id | id in Ids(records) ensures id in b.outbox && !Locked(b, id) {
      IdsCome(records, id);
    }
  }

  lemma AcknowledgedAreInTopic(b: Bus, name: RelayId, records: seq<Record>)
    requires BusInv(b) && name in b.relays && b.relays[name].acked == Ids(records)
    requires forall i :: 0 <= i < |records| ==> records[i].id in b.outbox && b.outbox[records[i].id] == records[i].event
    ensures forall i :: 0 <= i < |records| ==> InTopic(b, records[i].event)
  {
    forall i | 0 <= i < |records| ensures InTopic(b, records[i].event) {
      IdsHold(records, i);
    }
  }
}
