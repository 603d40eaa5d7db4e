/**
 * The move table and its two writers: the sink for `price-moves`, and the job
 * that later fills contributions that were missing on arrival.
 */
module MoveSink {
  import opened Prelude
  import opened ServingSink
  import opened Generation
  import opened Transport

  datatype MoveRecord = MoveRecord(
    moveId: MoveId, moveType: MoveType, symbol: Symbol, windowStart: Time, windowEnd: Time,
    returnPct: real, priceState: PriceState, version: int)

  datatype MoveRow = MoveRow(
    moveType: MoveType, symbol: Symbol, windowStart: Time, windowEnd: Time,
    returnPct: real, priceState: PriceState, contributions: Option<Contributions>, version: int)

  type Rows = map<MoveId, MoveRow>

  /** What the sink reads besides the record: the symbol's gate, the previous close, and
      the decomposition the market data allows at this moment. */
  datatype Delivery = Delivery(
    record: MoveRecord, gate: Option<bool>, previousClose: Option<Time>, decomposition: Option<Contributions>)

  function NewRow(d: Delivery): MoveRow {
    MoveRow(d.record.moveType, d.record.symbol, if d.previousClose.Some? then d.previousClose.value else d.record.windowStart,
            d.record.windowEnd, d.record.returnPct, d.record.priceState,
            if d.record.moveType.Daily? then d.decomposition else None, d.record.version)
  }

  /** The stored row is newer, or the same version already decomposed. */
  predicate Stale(rows: Rows, d: Delivery) {
    d.record.moveId in rows
    && (rows[d.record.moveId].version > d.record.version
        || (rows[d.record.moveId].version == d.record.version && rows[d.record.moveId].contributions.Some?))
  }

  predicate IsTransition(rows: Rows, d: Delivery) {
    d.record.moveId !in rows || rows[d.record.moveId].version < d.record.version
  }

  /** INSERT ... ON CONFLICT DO UPDATE with the version guard; type and symbol are kept. */
  function Upsert(rows: Rows, d: Delivery): Rows {
    var id, new' := d.record.moveId, NewRow(d);
    if id !in rows then rows[id := new']
    else if rows[id].version < new'.version || (rows[id].version == new'.version && rows[id].contributions.None?)
    then rows[id := new'.(moveType := rows[id].moveType, symbol := rows[id].symbol)]
    else rows
  }

  function Deliver(rows: Rows, d: Delivery): Rows {
    if d.gate.None? || Stale(rows, d) then rows else Upsert(rows, d)
  }

  function RequestOf(rows: Rows, d: Delivery): Option<Request> {
    if d.gate == Some(true) && !Stale(rows, d) && IsTransition(rows, d) && d.record.symbol != ""
    then Some(Request(d.record.symbol, PriceStateChange, d.record.windowEnd)) else None
  }

  /** UPDATE ... WHERE version = :version AND contrib_idio IS NULL, for a row read earlier. */
  function Fill(rows: Rows, id: MoveId, version: int, c: Contributions): Rows {
    if id in rows && rows[id].version == version && rows[id].contributions.None?
    then rows[id := rows[id].(contributions := Some(c))] else rows
  }

  class MoveTable {
    var rows: Rows
    var requests: seq<Request>

    constructor ()
      ensures rows == map[] && requests == []
    {
      rows, requests := map[], [];
    }

    /** One `price-moves` message in one transaction. */
    method HandleMove(d: Delivery)
      modifies this
      ensures rows == Deliver(old(rows), d)
      ensures requests == old(requests) + match RequestOf(old(rows), d) case None => [] case Some(q) => [q]
    {
      if d.gate.None? {
        return;
      }
      var id := d.record.moveId;
      var stored := if id in rows then Some(rows[id]) else None;
      if stored.Some? && (stored.value.version > d.record.version
                          || (stored.value.version == d.record.version && stored.value.contributions.Some?)) {
        return;
      }
      rows := Upsert(rows, d);
      var transition := stored.None? || stored.value.version < d.record.version;
      if !(transition && d.gate.value) {
        return;
      }
      if d.record.symbol != "" {
        requests := requests + [Request(d.record.symbol, PriceStateChange, d.record.windowEnd)];
      }
    }

    /** Fill every DAILY row without contributions whose market data is loaded by now. */
    method CompletePending(decompose: (Symbol, Time) -> Option<Contributions>) returns (filled: nat)
      modifies this`rows
      ensures rows.Keys == old(rows).Keys
      ensures forall id :: id in rows ==>
                var before := old(rows)[id];
                rows[id] == if before.moveType.Daily? && before.contributions.None?
                            then before.(contributions := decompose(before.symbol, before.windowEnd))
                            else before
      ensures filled == |set id | id in rows && rows[id] != old(rows)[id]|
    {
      var pending := set id | id in rows && rows[id].moveType.Daily? && rows[id].contributions.None?;
      ghost var changed: set<MoveId> := {};
      filled := 0;
      var left := pending;
      while left != {}
        invariant left <= pending && rows.Keys == old(rows).Keys
        invariant forall id :: id in rows ==>
                    rows[id] == if id in pending && id !in left
                                then old(rows)[id].(contributions := decompose(old(rows)[id].symbol, old(rows)[id].windowEnd))
                                else old(rows)[id]
        invariant filled == |changed| && changed !! left
        invariant changed == set id | id in rows && rows[id] != old(rows)[id]
        decreases left
      {
        var id :| id in left;
        left := left - {id};
        var d := decompose(rows[id].symbol, rows[id].windowEnd);
        if d.Some? {
          rows := Fill(rows, id, rows[id].version, d.value);
          filled := filled + 1;
          changed := changed + {id};
        }
      }
    }
  }

  // ----- whole runs, with deliveries in any order and the filler interleaved

  datatype MoveStep = Delivered(d: Delivery) | Filled(id: MoveId, version: int, c: Contributions)

  function StepRows(rows: Rows, s: MoveStep): Rows {
    match s
    case Delivered(d) => Deliver(rows, d)
    case Filled(id, version, c) => Fill(rows, id, version, c)
  }

  function After(steps: seq<MoveStep>): Rows {
    if steps == [] then map[] else StepRows(After(steps[..|steps| - 1]), steps[|steps| - 1])
  }

  /** Step `s` delivers version `v` of move `id` for a known symbol. */
  ghost predicate Delivers(s: MoveStep, id: MoveId, v: int) {
    s.Delivered? && s.d.gate.Some? && s.d.record.moveId == id && s.d.record.version == v
  }

  ghost predicate EverDelivered(steps: seq<MoveStep>, id: MoveId, v: int) {
    exists i :: 0 <= i < |steps| && Delivers(steps[i], id, v)
  }

  lemma EverDeliveredSnoc(steps: seq<MoveStep>, s: MoveStep, id: MoveId, v: int)
    ensures EverDelivered(steps + [s], id, v) <==> EverDelivered(steps, id, v) || Delivers(s, id, v)
  {
    var more := steps + [s];
    assert more[|steps|] == s;
    if i :| 0 <= i < |steps| && Delivers(steps[i], id, v) {
      assert Delivers(more[i], id, v);
    }
  }

  /** The stored version is the maximum delivered, whatever the order and repetition. */
  lemma {:induction false} StoredIsMaximum(steps: seq<MoveStep>, id: MoveId)
    ensures id in After(steps) ==> EverDelivered(steps, id, After(steps)[id].version)
    ensures forall v :: EverDelivered(steps, id, v) ==> id in After(steps) && v <= After(steps)[id].version
  {
    if steps != [] {
      var front, last := steps[..|steps| - 1], steps[|steps| - 1];
      assert steps == front + [last];
      StoredIsMaximum(front, id);
      forall v ensures EverDelivered(steps, id, v) <==> EverDelivered(front, id, v) || Delivers(last, id, v) {
        EverDeliveredSnoc(front, last, id, v);
      }
    }
  }

  /** The request published by step `i` of a run. */
  function PublishedAt(steps: seq<MoveStep>, i: nat): Option<Request>
    requires i < |steps|
  {
    if steps[i].Delivered? then RequestOf(After(steps[..i]), steps[i].d) else None
  }

  /** A step publishes a request exactly when it delivers a new running maximum of an enabled symbol. */
  lemma RequestPerRunningMaximum(steps: seq<MoveStep>, i: nat)
    requires i < |steps|
    ensures PublishedAt(steps, i).Some? <==>
            && steps[i].Delivered? && steps[i].d.gate == Some(true) && steps[i].d.record.symbol != ""
            && forall v :: EverDelivered(steps[..i], steps[i].d.record.moveId, v) ==> v < steps[i].d.record.version
    ensures PublishedAt(steps, i).Some? ==>
              PublishedAt(steps, i).value == Request(steps[i].d.record.symbol, PriceStateChange, steps[i].d.record.windowEnd)
  {
    if steps[i].Delivered? {
      var id := steps[i].d.record.moveId;
      StoredIsMaximum(steps[..i], id);
      if id in After(steps[..i]) {
        assert EverDelivered(steps[..i], id, After(steps[..i])[id].version);
      }
    }
  }

  /** No version of a move is requested twice. */
  lemma OneRequestPerVersion(steps: seq<MoveStep>, i: nat, j: nat)
    requires i < j < |steps| && PublishedAt(steps, i).Some? && PublishedAt(steps, j).Some?
    requires steps[i].d.record.moveId == steps[j].d.record.moveId
    ensures steps[i].d.record.version < steps[j].d.record.version
  {
    RequestPerRunningMaximum(steps, i);
    RequestPerRunningMaximum(steps, j);
    assert steps[..j][i] == steps[i];
    assert EverDelivered(steps[..j], steps[i].d.record.moveId, steps[i].d.record.version);
  }

  /** Contributions once present are kept for as long as their version is stored. */
  lemma {:induction false} ContributionsStay(before: seq<MoveStep>, more: seq<MoveStep>, id: MoveId)
    requires id in After(before)
    ensures id in After(before + more) && After(before + more)[id].version >= After(before)[id].version
    ensures After(before)[id].contributions.Some? && After(before + more)[id].version == After(before)[id].version
            ==> After(before + more)[id].contributions == After(before)[id].contributions
    decreases |more|
  {
    if more == [] {
      assert before + more == before;
    } else {
      var front, last := more[..|more| - 1], more[|more| - 1];
      ContributionsStay(before, front, id);
      assert (before + more)[..|before + more| - 1] == before + front;
      assert (before + more)[|before + more| - 1] == last;
    }
  }

  // ----- what one delivery and one fill store

  /** The columns of a stored move, its type and symbol from its first delivery. */
  ghost predicate StoredFrom(row: MoveRow, d: Delivery, before: Option<MoveRow>) {
    && row.moveType == (if before.Some? then before.value.moveType else d.record.moveType)
    && row.symbol == (if before.Some? then before.value.symbol else d.record.symbol)
    && row.windowStart == (if d.previousClose.Some? then d.previousClose.value else d.record.windowStart)
    && row.windowEnd == d.record.windowEnd && row.returnPct == d.record.returnPct && row.priceState == d.record.priceState
    && row.contributions == (if d.record.moveType == Daily then d.decomposition else None)
    && row.version == d.record.version
  }

  /** A delivery is stored unless its symbol has no gate, or the stored move is newer, or is the same version and already
      decomposed; the same version without contributions is stored again. No other move changes. */
  lemma DeliverIs(rows: Rows, d: Delivery)
    ensures var id, rows' := d.record.moveId, Deliver(rows, d);
            && rows' - {id} == rows - {id}
            && if d.gate == None || (id in rows && d.record.version < rows[id].version)
                  || (id in rows && d.record.version == rows[id].version && rows[id].contributions != None)
               then rows' == rows
               else id in rows' && StoredFrom(rows'[id], d, if id in rows then Some(rows[id]) else None)
  {}

  /** A request goes out for a version above the stored one of an enabled symbol with a name, as of the window's end. */
  lemma RequestIs(rows: Rows, d: Delivery)
    ensures var id := d.record.moveId;
            RequestOf(rows, d) == if d.gate == Some(true) && d.record.symbol != "" && (id in rows ==> rows[id].version < d.record.version)
                                  then Some(Request(d.record.symbol, PriceStateChange, d.record.windowEnd)) else None
  {}

  /** A fill reaches only the version it was computed for, and only missing contributions. */
  lemma FillIs(rows: Rows, id: MoveId, version: int, c: Contributions)
    ensures Fill(rows, id, version, c) - {id} == rows - {id} && (id in rows <==> id in Fill(rows, id, version, c))
    ensures id in rows ==>
              Fill(rows, id, version, c)[id] == if rows[id].version == version && rows[id].contributions == None
                                                then rows[id].(contributions := Some(c)) else rows[id]
  {}
}
