/**
 * When a signal would be rewritten: one trigger per price state change, and within
 * a state one per batch of documents that report new events, a cooldown apart.
 * Times are milliseconds.
 */
module Cooldown {
  import opened Prelude

  const COOLDOWN := 600_000
  const MINUTE := 60_000
  const PROB_MIN := 0.7

  const TRIGGER_RELEVANCE := {"DIRECT", "COMPETITOR"}
  const EXCLUDED_EVENT_TYPES := {"SCHEDULE", "OTHER"}

  /** A judged document; `subject` is already stripped. */
  datatype Judgement = Judgement(direction: int, probability: real, infoType: string, subject: string, eventType: string,
                                 object': string, relevance: string)

  datatype Doc = Doc(id: string, at: int, judged: Option<Judgement>, event: Option<nat>)

  // ----- grouping into events

  datatype Identity = Plain(subject: string, eventType: string) | Flow(subject: string, eventType: string, direction: int)

  function IdentityOf(v: Judgement): Identity {
    if v.infoType == "FLOW" then Flow(v.subject, v.eventType, v.direction) else Plain(v.subject, v.eventType)
  }

  datatype Event = Event(key: Identity, objects: seq<string>, docs: seq<string>)

  /** The events made of the first `n` documents: consistent numbers, and each event's documents in order. */
  ghost predicate Grouped(docs: seq<Doc>, n: nat, ids: seq<Option<nat>>, events: seq<Event>)
    requires n <= |docs|
  {
    && |ids| == n
    && (forall i :: 0 <= i < n ==> ids[i].Some? == docs[i].judged.Some?)
    && (forall i :: 0 <= i < n && ids[i].Some? ==>
          ids[i].value < |events| && events[ids[i].value].key == IdentityOf(docs[i].judged.value))
    && (forall e, e' :: 0 <= e < e' < |events| ==> events[e].key != events[e'].key)
    && (forall e :: 0 <= e < |events| ==> events[e].docs == MembersOf(docs, ids, e) && events[e].docs != [])
  }

  /** The look-up table knows exactly the keys of the events. */
  ghost predicate Indexed(byKey: map<Identity, nat>, events: seq<Event>) {
    && (forall key :: key in byKey ==> byKey[key] < |events| && events[byKey[key]].key == key)
    && (forall e :: 0 <= e < |events| ==> events[e].key in byKey)
  }

  lemma IndexedNew(byKey: map<Identity, nat>, events: seq<Event>, event: Event)
    requires Indexed(byKey, events) && event.key !in byKey
    ensures Indexed(byKey[event.key := |events|], events + [event])
    ensures forall e :: 0 <= e < |events| ==> events[e].key != event.key
  {}

  lemma IndexedJoin(byKey: map<Identity, nat>, events: seq<Event>, at: nat, joined: Event)
    requires Indexed(byKey, events) && at < |events| && joined.key == events[at].key
    ensures Indexed(byKey, events[at := joined])
  {}

  function MembersOf(docs: seq<Doc>, ids: seq<Option<nat>>, e: nat): seq<string>
    requires |ids| <= |docs|
  {
    if ids == [] then []
    else MembersOf(docs, ids[..|ids| - 1], e) + if ids[|ids| - 1] == Some(e) then [docs[|ids| - 1].id] else []
  }

  /** One judged document joins the event of its identity, or opens a new one. */
  method Assign(byKey: map<Identity, nat>, events: seq<Event>, d: Doc) returns (byKey': map<Identity, nat>, events': seq<Event>, e: nat)
    requires Indexed(byKey, events) && d.judged.Some?
    ensures Indexed(byKey', events') && e < |events'|
    ensures Assigned(events, events', e, d)
  {
    var v := d.judged.value;
    var key := IdentityOf(v);
    if key !in byKey {
      e := |events|;
      IndexedNew(byKey, events, Event(key, [v.object'], [d.id]));
      return byKey[key := e], events + [Event(key, [v.object'], [d.id])], e;
    }
    e := byKey[key];
    var was := events[e];
    var joined := Event(key, if v.object' in was.objects then was.objects else was.objects + [v.object'], was.docs + [d.id]);
    IndexedJoin(byKey, events, e, joined);
    return byKey, events[e := joined], e;
  }

  /** Document `d` is the last one of event `e`, which is new or had its identity before. */
  ghost predicate Assigned(events: seq<Event>, events': seq<Event>, e: nat, d: Doc)
    requires d.judged.Some? && e < |events'|
  {
    && events'[e].key == IdentityOf(d.judged.value)
    && if e < |events|
       then events' == events[e := events'[e]] && events[e].key == events'[e].key && events'[e].docs == events[e].docs + [d.id]
            && events'[e].objects == WithObject(events[e].objects, d)
       else e == |events| && events' == events + [events'[e]] && events'[e].docs == [d.id]
            && events'[e].objects == WithObject([], d)
            && forall k :: 0 <= k < |events| ==> events[k].key != events'[e].key
  }

  /** The objects named so far, with those of one more document. */
  ghost function WithObject(objects: seq<string>, d: Doc): seq<string> {
    if d.judged.None? || d.judged.value.object' in objects then objects else objects + [d.judged.value.object']
  }

  /** The objects that the documents of an event name, each once, in order. */
  ghost function ObjectsOf(docs: seq<Doc>, ids: seq<Option<nat>>, e: nat): seq<string>
    requires |ids| <= |docs|
  {
    if ids == [] then []
    else
      var front := ObjectsOf(docs, ids[..|ids| - 1], e);
      if ids[|ids| - 1] == Some(e) then WithObject(front, docs[|ids| - 1]) else front
  }

  ghost predicate ObjectsListed(docs: seq<Doc>, ids: seq<Option<nat>>, events: seq<Event>)
    requires |ids| <= |docs|
  {
    forall e :: 0 <= e < |events| ==> events[e].objects == ObjectsOf(docs, ids, e)
  }

  /** Events are numbered in the order in which the documents report them first. */
  ghost predicate NumberedInOrder(ids: seq<Option<nat>>) {
    forall i, e :: 0 <= i < |ids| && ids[i].Some? && 0 <= e < ids[i].value ==> Used(ids[..i], e)
  }

  ghost predicate Used(ids: seq<Option<nat>>, e: nat) { Some(e) in ids }

  lemma {:induction false} NoObjectsYet(docs: seq<Doc>, ids: seq<Option<nat>>, e: nat)
    requires |ids| <= |docs| && Some(e) !in ids
    ensures ObjectsOf(docs, ids, e) == []
  {
    if ids != [] {
      assert ids[|ids| - 1] in ids;
      NoObjectsYet(docs, ids[..|ids| - 1], e);
    }
  }

  lemma EveryNumberIsUsed(docs: seq<Doc>, n: nat, ids: seq<Option<nat>>, events: seq<Event>, e: nat)
    requires n <= |docs| && Grouped(docs, n, ids, events) && e < |events|
    ensures Used(ids, e)
  {
    if Some(e) !in ids {
      forall i | 0 <= i < |ids| ensures ids[i] != Some(e) {
        assert ids[i] in ids;
      }
      NoMembersYet(docs, ids, e);
    }
  }

  lemma NumbersStayInOrder(docs: seq<Doc>, n: nat, ids: seq<Option<nat>>, events: seq<Event>, event: Option<nat>)
    requires n <= |docs| && Grouped(docs, n, ids, events) && NumberedInOrder(ids) && (event.Some? ==> event.value <= |events|)
    ensures NumberedInOrder(ids + [event])
  {
    var all := ids + [event];
    forall i, e | 0 <= i < |all| && all[i].Some? && 0 <= e < all[i].value ensures Used(all[..i], e) {
      if i < |ids| {
        assert all[..i] == ids[..i];
      } else {
        assert all[..i] == ids;
        EveryNumberIsUsed(docs, n, ids, events, e);
      }
    }
  }

  lemma ObjectsStayListed(docs: seq<Doc>, n: nat, ids: seq<Option<nat>>, events: seq<Event>, events': seq<Event>, event: Option<nat>)
    requires n < |docs| && Grouped(docs, n, ids, events) && ObjectsListed(docs, ids, events)
    requires event.Some? == docs[n].judged.Some? && (event.None? ==> events' == events)
    requires event.Some? ==> event.value < |events'| && Assigned(events, events', event.value, docs[n])
    ensures ObjectsListed(docs, ids + [event], events')
  {
    var all := ids + [event];
    assert all[..|ids|] == ids;
    forall e | 0 <= e < |events'| ensures events'[e].objects == ObjectsOf(docs, all, e) {
      if e >= |events| {
        NoObjectsYet(docs, ids, e);
      }
    }
  }

  lemma AssignedKeepsGrouped(docs: seq<Doc>, n: nat, ids: seq<Option<nat>>, events: seq<Event>, events': seq<Event>, e: nat)
    requires n < |docs| && Grouped(docs, n, ids, events) && docs[n].judged.Some? && e < |events'|
    requires Assigned(events, events', e, docs[n])
    ensures Grouped(docs, n + 1, ids + [Some(e)], events')
  {
    if e < |events| {
      GroupedJoin(docs, n, ids, events, e, events'[e]);
    } else {
      GroupedNew(docs, n, ids, events, events'[e]);
    }
  }

  lemma PlacedKeepsGrouped(docs: seq<Doc>, n: nat, ids: seq<Option<nat>>, events: seq<Event>, events': seq<Event>, event: Option<nat>)
    requires n < |docs| && Grouped(docs, n, ids, events) && event.Some? == docs[n].judged.Some?
    requires event.None? ==> events' == events
    requires event.Some? ==> event.value < |events'| && Assigned(events, events', event.value, docs[n])
    ensures Grouped(docs, n + 1, ids + [event], events')
  {
    if event.None? {
      GroupedSkip(docs, n, ids, events);
    } else {
      AssignedKeepsGrouped(docs, n, ids, events, events', event.value);
    }
  }

  function EventIds(docs: seq<Doc>): (ids: seq<Option<nat>>)
    ensures |ids| == |docs| && forall i :: 0 <= i < |docs| ==> ids[i] == docs[i].event
  {
    seq(|docs|, i requires 0 <= i < |docs| => docs[i].event)
  }

  /** The numbers of the first documents are those of the whole list so far. */
  lemma EventIdsAre(docs: seq<Doc>, ids: seq<Option<nat>>)
    requires |ids| == |docs| && forall i :: 0 <= i < |docs| ==> docs[i].event == ids[i]
    ensures EventIds(docs) == ids
  {}

  /** Every judged document gets the number of the one event with its identity. */
  method GroupEvents(docs: seq<Doc>) returns (out: seq<Doc>, events: seq<Event>)
    ensures |out| == |docs|
    ensures forall i :: 0 <= i < |docs| ==> out[i] == docs[i].(event := out[i].event)
    ensures Grouped(docs, |docs|, EventIds(out), events)
    ensures NumberedInOrder(EventIds(out)) && ObjectsListed(docs, EventIds(out), events)
  {
    events := [];
    out := [];
    var byKey: map<Identity, nat> := map[];
    ghost var ids: seq<Option<nat>> := [];
    for i := 0 to |docs|
      invariant |out| == |ids| == i
      invariant forall k :: 0 <= k < i ==> out[k] == docs[k].(event := ids[k])
      invariant Grouped(docs, i, ids, events)
      invariant NumberedInOrder(ids) && ObjectsListed(docs, ids, events)
      invariant Indexed(byKey, events)
    {
      ghost var before := events;
      var event: Option<nat> := None;
      if docs[i].judged.Some? {
        var e;
        byKey, events, e := Assign(byKey, events, docs[i]);
        event := Some(e);
      }
      PlacedKeepsGrouped(docs, i, ids, before, events, event);
      ObjectsStayListed(docs, i, ids, before, events, event);
      NumbersStayInOrder(docs, i, ids, before, event);
      out, ids := out + [docs[i].(event := event)], ids + [event];
    }
    EventIdsAre(out, ids);
  }

  lemma MembersSnoc(docs: seq<Doc>, ids: seq<Option<nat>>, id: Option<nat>, e: nat)
    requires |ids| < |docs|
    ensures MembersOf(docs, ids + [id], e) == MembersOf(docs, ids, e) + if id == Some(e) then [docs[|ids|].id] else []
  {
    assert (ids + [id])[..|ids|] == ids;
  }

  lemma GroupedSkip(docs: seq<Doc>, n: nat, ids: seq<Option<nat>>, events: seq<Event>)
    requires n < |docs| && Grouped(docs, n, ids, events) && docs[n].judged.None?
    ensures Grouped(docs, n + 1, ids + [None], events)
  {
    forall e | 0 <= e < |events| ensures events[e].docs == MembersOf(docs, ids + [None], e) {
      MembersSnoc(docs, ids, None, e);
    }
  }

  lemma GroupedNew(docs: seq<Doc>, n: nat, ids: seq<Option<nat>>, events: seq<Event>, event: Event)
    requires n < |docs| && Grouped(docs, n, ids, events) && docs[n].judged.Some?
    requires event.key == IdentityOf(docs[n].judged.value) && event.docs == [docs[n].id]
    requires forall e :: 0 <= e < |events| ==> events[e].key != event.key
    ensures Grouped(docs, n + 1, ids + [Some(|events|)], events + [event])
  {
    var all := events + [event];
    NoMembersYet(docs, ids, |events|);
    forall e | 0 <= e < |all| ensures all[e].docs == MembersOf(docs, ids + [Some(|events|)], e) {
      MembersSnoc(docs, ids, Some(|events|), e);
    }
  }

  lemma {:induction false} NoMembersYet(docs: seq<Doc>, ids: seq<Option<nat>>, e: nat)
    requires |ids| <= |docs| && forall i :: 0 <= i < |ids| ==> ids[i] != Some(e)
    ensures MembersOf(docs, ids, e) == []
  {
    if ids != [] {
      NoMembersYet(docs, ids[..|ids| - 1], e);
    }
  }

  lemma GroupedJoin(docs: seq<Doc>, n: nat, ids: seq<Option<nat>>, events: seq<Event>, at: nat, joined: Event)
    requires n < |docs| && Grouped(docs, n, ids, events) && docs[n].judged.Some?
    requires at < |events| && events[at].key == IdentityOf(docs[n].judged.value) == joined.key
    requires joined.docs == events[at].docs + [docs[n].id]
    ensures Grouped(docs, n + 1, ids + [Some(at)], events[at := joined])
  {
    var all := events[at := joined];
    forall e | 0 <= e < |all| ensures all[e].docs == MembersOf(docs, ids + [Some(at)], e) {
      MembersSnoc(docs, ids, Some(at), e);
    }
  }

  /** Two judged documents share an event number exactly when their identities agree. */
  lemma SameEventIff(docs: seq<Doc>, ids: seq<Option<nat>>, events: seq<Event>, i: nat, j: nat)
    requires Grouped(docs, |docs|, ids, events) && i < |docs| && j < |docs|
    requires docs[i].judged.Some? && docs[j].judged.Some?
    ensures var v, w := docs[i].judged.value, docs[j].judged.value;
            ids[i] == ids[j] <==>
              && v.subject == w.subject && v.eventType == w.eventType
              && (v.infoType == "FLOW" <==> w.infoType == "FLOW")
              && (v.infoType == "FLOW" ==> v.direction == w.direction)
  {
    var a, b := ids[i].value, ids[j].value;
    assert a != b ==> events[a].key != events[b].key;
  }

  // ----- triggers

  datatype Reason = PriceStateChange | NewDocument

  datatype State = State(start: int, name: string, direction: int)

  datatype Trigger = Trigger(at: int, reason: Reason, state: string, docs: seq<Doc>)

  predicate Eligible(d: Doc, direction: int) {
    && d.judged.Some?
    && direction != 0
    && d.judged.value.infoType == "NEW_FACT"
    && d.judged.value.relevance in TRIGGER_RELEVANCE
    && d.judged.value.eventType !in EXCLUDED_EVENT_TYPES
    && d.judged.value.probability >= PROB_MIN
    && d.judged.value.direction == direction
    && d.event.Some?
  }

  function PriorDocs(docs: seq<Doc>, start: int, direction: int): seq<Doc> {
    if docs == [] then []
    else (if docs[0].at < start && Eligible(docs[0], direction) then [docs[0]] else []) + PriorDocs(docs[1..], start, direction)
  }

  lemma {:induction false} PriorMembers(docs: seq<Doc>, start: int, direction: int)
    ensures forall d :: d in PriorDocs(docs, start, direction) <==> d in docs && d.at < start && Eligible(d, direction)
  {
    if docs != [] {
      PriorMembers(docs[1..], start, direction);
      assert docs == [docs[0]] + docs[1..];
    }
  }

  function EventsOf(docs: seq<Doc>): set<Option<nat>> {
    set d | d in docs :: d.event
  }

  /** The running variables of one state's scan. */
  datatype Scan = Scan(triggers: seq<Trigger>, last: int, pending: seq<Doc>, reflected: set<Option<nat>>)

  /** One state of the day, up to `end`. */
  datatype Span = Span(state: State, end: int)

  function StartScan(docs: seq<Doc>, span: Span): Scan {
    var prior := PriorDocs(docs, span.state.start, span.state.direction);
    Scan([Trigger(span.state.start, PriceStateChange, span.state.name, prior)], span.state.start, [], EventsOf(prior))
  }

  function Flush(scan: Scan, span: Span): Scan {
    Scan(scan.triggers + [Trigger(scan.last + COOLDOWN, NewDocument, span.state.name, scan.pending)],
         scan.last + COOLDOWN, [], scan.reflected)
  }

  function Consider(scan: Scan, d: Doc, span: Span): Scan {
    if !Eligible(d, span.state.direction) || d.event in scan.reflected then scan
    else if d.at - scan.last >= COOLDOWN then
      Scan(scan.triggers + [Trigger(d.at, NewDocument, span.state.name, [d])], d.at, scan.pending, scan.reflected + {d.event})
    else scan.(pending := scan.pending + [d], reflected := scan.reflected + {d.event})
  }

  predicate During(d: Doc, span: Span) {
    span.state.start <= d.at < span.end
  }

  function ScanDoc(scan: Scan, d: Doc, span: Span): Scan {
    if !During(d, span) then scan
    else Consider(if scan.pending != [] && scan.last + COOLDOWN <= d.at then Flush(scan, span) else scan, d, span)
  }

  function ScanDocs(docs: seq<Doc>, n: nat, span: Span): Scan
    requires n <= |docs|
  {
    if n == 0 then StartScan(docs, span) else ScanDoc(ScanDocs(docs, n - 1, span), docs[n - 1], span)
  }

  /** The state's triggers, and the documents left without one when it ends. */
  function Finish(scan: Scan, span: Span): Scan {
    if scan.pending != [] && scan.last + COOLDOWN < span.end then Flush(scan, span) else scan
  }

  function SpanScan(docs: seq<Doc>, span: Span): Scan {
    Finish(ScanDocs(docs, |docs|, span), span)
  }

  function DayEnd(docs: seq<Doc>): int
    requires docs != []
  {
    MaxAt(docs) + MINUTE
  }

  function MaxAt(docs: seq<Doc>): int
    requires docs != []
  {
    if |docs| == 1 then docs[0].at
    else
      var rest := MaxAt(docs[..|docs| - 1]);
      if rest < docs[|docs| - 1].at then docs[|docs| - 1].at else rest
  }

  function SpanOf(states: seq<State>, i: nat, dayEnd: int): Span
    requires i < |states|
  {
    Span(states[i], if i + 1 < |states| then states[i + 1].start else dayEnd)
  }

  function AllTriggers(docs: seq<Doc>, states: seq<State>, n: nat, dayEnd: int): seq<Trigger>
    requires n <= |states|
  {
    if n == 0 then [] else AllTriggers(docs, states, n - 1, dayEnd) + SpanScan(docs, SpanOf(states, n - 1, dayEnd)).triggers
  }

  /** The scan of one state. */
  method SimulateState(state: State, end: int, docs: seq<Doc>) returns (triggers: seq<Trigger>)
    ensures triggers != [] && triggers[0].reason == PriceStateChange && triggers[0].at == state.start
    ensures triggers == SpanScan(docs, Span(state, end)).triggers
  {
    var start, direction := state.start, state.direction;
    ghost var span := Span(state, end);
    var prior := PriorDocs(docs, start, direction);
    var reflected := EventsOf(prior);
    triggers := [Trigger(start, PriceStateChange, state.name, prior)];
    var last := start;
    var pending: seq<Doc> := [];
    for j := 0 to |docs|
      invariant triggers != [] && triggers[0].reason == PriceStateChange && triggers[0].at == start
      invariant ScanDocs(docs, j, span) == Scan(triggers, last, pending, reflected)
    {
      var d := docs[j];
      if start <= d.at < end {
        if pending != [] && last + COOLDOWN <= d.at {
          triggers := triggers + [Trigger(last + COOLDOWN, NewDocument, state.name, pending)];
          last, pending := last + COOLDOWN, [];
        }
        if Eligible(d, direction) && d.event !in reflected {
          reflected := reflected + {d.event};
          if d.at - last >= COOLDOWN {
            triggers := triggers + [Trigger(d.at, NewDocument, state.name, [d])];
            last := d.at;
          } else {
            pending := pending + [d];
          }
        }
      }
    }
    if pending != [] && last + COOLDOWN < end {
      triggers := triggers + [Trigger(last + COOLDOWN, NewDocument, state.name, pending)];
    }
  }

  /** The scan of all states, one after the other. */
  method Simulate(states: seq<State>, docs: seq<Doc>) returns (triggers: seq<Trigger>)
    requires docs != []
    ensures |triggers| >= |states|
    ensures triggers == AllTriggers(docs, states, |states|, DayEnd(docs))
  {
    var dayEnd := DayEnd(docs);
    triggers := [];
    for i := 0 to |states|
      invariant |triggers| >= i
      invariant triggers == AllTriggers(docs, states, i, dayEnd)
    {
      var end := if i + 1 < |states| then states[i + 1].start else dayEnd;
      var added := SimulateState(states[i], end, docs);
      triggers := triggers + added;
    }
  }

  // ----- what a scan keeps

  ghost predicate Sorted(docs: seq<Doc>) {
    forall i, j :: 0 <= i < j < |docs| ==> docs[i].at <= docs[j].at
  }

  /** The state change first, then new documents inside the state, each a cooldown after the trigger before. */
  ghost predicate WellSpaced(triggers: seq<Trigger>, span: Span) {
    && triggers != [] && triggers[0].reason == PriceStateChange && triggers[0].at == span.state.start
    && (forall k :: 0 < k < |triggers| ==> span.state.start <= triggers[k].at < span.end)
    && (forall k :: 0 < k < |triggers| ==>
          triggers[k].reason == NewDocument && triggers[k - 1].at + 600_000 <= triggers[k].at)
  }

  ghost predicate Inside(triggers: seq<Trigger>, span: Span) {
    forall k :: 0 <= k < |triggers| ==> span.state.start <= triggers[k].at < span.end
  }

  ghost predicate Prompt(t: Trigger) {
    t.docs != [] && forall d :: d in t.docs ==> d.at <= t.at <= d.at + 600_000
  }

  /** A new document fires no earlier than its documents and at most a cooldown later. */
  ghost predicate AllPrompt(triggers: seq<Trigger>) {
    forall k :: 0 < k < |triggers| ==> Prompt(triggers[k])
  }

  /** The documents of the new-document triggers, in order. */
  function Collected(triggers: seq<Trigger>): seq<Doc> {
    if |triggers| <= 1 then [] else Collected(triggers[..|triggers| - 1]) + triggers[|triggers| - 1].docs
  }

  /** Document `k` is the first of its event in this state, and no earlier state reported the event. */
  ghost predicate Fresh(docs: seq<Doc>, k: nat, span: Span)
    requires k < |docs|
  {
    && span.state.start <= docs[k].at < span.end && Eligible(docs[k], span.state.direction)
    && !Reported(docs, k, span, docs[k].event)
  }

  ghost predicate Reported(docs: seq<Doc>, n: nat, span: Span, event: Option<nat>)
    requires n <= |docs|
  {
    || (exists d :: d in docs && d.at < span.state.start && Eligible(d, span.state.direction) && d.event == event)
    || (exists j :: 0 <= j < n && span.state.start <= docs[j].at < span.end && Eligible(docs[j], span.state.direction) && docs[j].event == event)
  }

  ghost function FreshDocs(docs: seq<Doc>, n: nat, span: Span): seq<Doc>
    requires n <= |docs|
  {
    if n == 0 then [] else FreshDocs(docs, n - 1, span) + if Fresh(docs, n - 1, span) then [docs[n - 1]] else []
  }

  ghost predicate Waiting(scan: Scan) {
    forall d :: d in scan.pending ==> scan.last <= d.at < scan.last + COOLDOWN
  }

  ghost predicate Ahead(scan: Scan, docs: seq<Doc>, n: nat, span: Span)
    requires n <= |docs|
  {
    forall k :: n <= k < |docs| && span.state.start <= docs[k].at ==> scan.last <= docs[k].at
  }

  /** A trigger of new documents fires with one of them when the cooldown is over, and else at its end with all that
      came before. */
  ghost predicate Due(t: Trigger, before: Trigger) {
    || (|t.docs| == 1 && t.at == t.docs[0].at)
    || (t.at == before.at + 600_000 && forall d :: d in t.docs ==> before.at <= d.at < t.at)
  }

  ghost predicate AllDue(triggers: seq<Trigger>, name: string) {
    && (forall k :: 0 < k < |triggers| ==> Due(triggers[k], triggers[k - 1]))
    && (forall k :: 0 <= k < |triggers| ==> triggers[k].state == name)
  }

  ghost predicate TimesKept(scan: Scan, span: Span) {
    && WellSpaced(scan.triggers, span) && AllPrompt(scan.triggers) && Waiting(scan) && AllDue(scan.triggers, span.state.name)
    && scan.triggers[|scan.triggers| - 1].at == scan.last
  }

  lemma FlushKeepsTimes(scan: Scan, span: Span)
    requires TimesKept(scan, span) && scan.pending != [] && scan.last + COOLDOWN < span.end
    ensures TimesKept(Flush(scan, span), span)
  {
    SnocIsWellSpaced(scan.triggers, Trigger(scan.last + COOLDOWN, NewDocument, span.state.name, scan.pending), span);
  }

  lemma ConsiderKeepsTimes(scan: Scan, d: Doc, span: Span)
    requires TimesKept(scan, span) && During(d, span) && scan.last <= d.at
    requires scan.pending != [] ==> d.at < scan.last + COOLDOWN
    ensures TimesKept(Consider(scan, d, span), span) && Consider(scan, d, span).last <= d.at
  {
    var after := Consider(scan, d, span);
    if after.last != scan.last {
      assert after.triggers == scan.triggers + [Trigger(d.at, NewDocument, span.state.name, [d])];
      SnocIsWellSpaced(scan.triggers, after.triggers[|scan.triggers|], span);
    }
  }

  lemma SnocIsWellSpaced(triggers: seq<Trigger>, t: Trigger, span: Span)
    requires WellSpaced(triggers, span) && AllPrompt(triggers)
    requires t.reason == NewDocument && t.at < span.end && triggers[|triggers| - 1].at + COOLDOWN <= t.at && Prompt(t)
    requires AllDue(triggers, span.state.name) && Due(t, triggers[|triggers| - 1]) && t.state == span.state.name
    ensures WellSpaced(triggers + [t], span) && AllPrompt(triggers + [t]) && AllDue(triggers + [t], span.state.name)
  {}

  lemma {:induction false} ScanKeepsTimes(docs: seq<Doc>, n: nat, span: Span)
    requires n <= |docs| && Sorted(docs)
    ensures TimesKept(ScanDocs(docs, n, span), span) && Ahead(ScanDocs(docs, n, span), docs, n, span)
  {
    if n > 0 {
      ScanKeepsTimes(docs, n - 1, span);
      var scan, d := ScanDocs(docs, n - 1, span), docs[n - 1];
      if During(d, span) {
        if scan.pending != [] && scan.last + COOLDOWN <= d.at {
          FlushKeepsTimes(scan, span);
          ConsiderKeepsTimes(Flush(scan, span), d, span);
        } else {
          ConsiderKeepsTimes(scan, d, span);
        }
      }
    }
  }

  lemma CollectedSnoc(triggers: seq<Trigger>, t: Trigger)
    requires triggers != []
    ensures Collected(triggers + [t]) == Collected(triggers) + t.docs
  {
    assert (triggers + [t])[..|triggers|] == triggers;
  }

  lemma FlushKeepsDocs(scan: Scan, span: Span)
    requires scan.triggers != []
    ensures Collected(Flush(scan, span).triggers) + Flush(scan, span).pending == Collected(scan.triggers) + scan.pending
  {
    CollectedSnoc(scan.triggers, Trigger(scan.last + COOLDOWN, NewDocument, span.state.name, scan.pending));
  }

  lemma ConsiderKeepsDocs(scan: Scan, d: Doc, span: Span)
    requires scan.triggers != []
    requires scan.pending != [] ==> d.at < scan.last + COOLDOWN
    ensures var after := Consider(scan, d, span);
            Collected(after.triggers) + after.pending
            == Collected(scan.triggers) + scan.pending
               + if Eligible(d, span.state.direction) && d.event !in scan.reflected then [d] else []
  {
    CollectedSnoc(scan.triggers, Trigger(d.at, NewDocument, span.state.name, [d]));
  }

  ghost predicate ReflectsReported(reflected: set<Option<nat>>, docs: seq<Doc>, n: nat, span: Span)
    requires n <= |docs|
  {
    forall event :: event in reflected <==> Reported(docs, n, span, event)
  }

  lemma ReportedSnoc(docs: seq<Doc>, n: nat, span: Span, event: Option<nat>)
    requires n < |docs|
    ensures Reported(docs, n + 1, span, event) <==>
              Reported(docs, n, span, event) || (During(docs[n], span) && Eligible(docs[n], span.state.direction) && docs[n].event == event)
  {}

  /** Nothing is lost on the way: what has fired and what waits are the fresh documents so far. */
  lemma {:induction false} ScanKeepsDocs(docs: seq<Doc>, n: nat, span: Span)
    requires n <= |docs|
    ensures var scan := ScanDocs(docs, n, span);
            && scan.triggers != []
            && Collected(scan.triggers) + scan.pending == FreshDocs(docs, n, span)
            && ReflectsReported(scan.reflected, docs, n, span)
  {
    if n == 0 {
      StartReflects(docs, span);
    } else {
      ScanKeepsDocs(docs, n - 1, span);
      StepKeepsDocs(docs, n - 1, span, ScanDocs(docs, n - 1, span));
    }
  }

  lemma StartReflects(docs: seq<Doc>, span: Span)
    ensures ReflectsReported(StartScan(docs, span).reflected, docs, 0, span)
  {
    PriorMembers(docs, span.state.start, span.state.direction);
    forall event ensures event in StartScan(docs, span).reflected <==> Reported(docs, 0, span, event) {}
  }

  lemma StepKeepsDocs(docs: seq<Doc>, n: nat, span: Span, scan: Scan)
    requires n < |docs| && scan.triggers != []
    requires Collected(scan.triggers) + scan.pending == FreshDocs(docs, n, span)
    requires ReflectsReported(scan.reflected, docs, n, span)
    ensures var after := ScanDoc(scan, docs[n], span);
            && after.triggers != []
            && Collected(after.triggers) + after.pending == FreshDocs(docs, n + 1, span)
            && ReflectsReported(after.reflected, docs, n + 1, span)
  {
    var d := docs[n];
    assert d.event in scan.reflected <==> Reported(docs, n, span, d.event);
    if During(d, span) {
      FlushKeepsDocs(scan, span);
      ConsiderKeepsDocs(if scan.pending != [] && scan.last + COOLDOWN <= d.at then Flush(scan, span) else scan, d, span);
    }
    StepReflects(docs, n, span, scan);
  }

  lemma StepReflects(docs: seq<Doc>, n: nat, span: Span, scan: Scan)
    requires n < |docs| && ReflectsReported(scan.reflected, docs, n, span)
    ensures ReflectsReported(ScanDoc(scan, docs[n], span).reflected, docs, n + 1, span)
  {
    forall event ensures event in ScanDoc(scan, docs[n], span).reflected <==> Reported(docs, n + 1, span, event) {
      ReportedSnoc(docs, n, span, event);
    }
  }

  // ----- main results

  /** Spacing and promptness of every trigger of a state; all of them are inside the state exactly when it starts
      before it ends. */
  lemma TriggersAreSpaced(docs: seq<Doc>, span: Span)
    requires Sorted(docs)
    ensures WellSpaced(SpanScan(docs, span).triggers, span) && AllPrompt(SpanScan(docs, span).triggers)
    ensures AllDue(SpanScan(docs, span).triggers, span.state.name)
    ensures Inside(SpanScan(docs, span).triggers, span) <==> span.state.start < span.end
  {
    ScanKeepsTimes(docs, |docs|, span);
    var scan := ScanDocs(docs, |docs|, span);
    if scan.pending != [] && scan.last + COOLDOWN < span.end {
      FlushKeepsTimes(scan, span);
    }
    assert SpanScan(docs, span).triggers[0].at == span.state.start;
  }

  /** The last state starts a minute after the last document: its change fires outside it. */
  lemma LateStateFiresOutside()
    ensures var docs, states := [Doc("a", 0, None, None)], [State(0, "POSITIVE", 1), State(MINUTE, "NEGATIVE", -1)];
            var span := SpanOf(states, 1, DayEnd(docs));
            && span.state.start == span.end
            && AllTriggers(docs, states, 2, DayEnd(docs))
               == [Trigger(0, PriceStateChange, "POSITIVE", []), Trigger(MINUTE, PriceStateChange, "NEGATIVE", [])]
            && !Inside(SpanScan(docs, span).triggers, span)
  {
    var d := Doc("a", 0, None, None);
    var docs, states := [d], [State(0, "POSITIVE", 1), State(MINUTE, "NEGATIVE", -1)];
    LoneUnjudged(d, SpanOf(states, 0, DayEnd(docs)));
    LoneUnjudged(d, SpanOf(states, 1, DayEnd(docs)));
    assert AllTriggers(docs, states, 1, DayEnd(docs)) == [] + SpanScan(docs, SpanOf(states, 0, DayEnd(docs))).triggers;
    assert SpanScan(docs, SpanOf(states, 1, DayEnd(docs))).triggers[0].at == MINUTE;
  }

  lemma LoneUnjudged(d: Doc, span: Span)
    requires d.judged.None?
    ensures SpanScan([d], span).triggers == [Trigger(span.state.start, PriceStateChange, span.state.name, [])]
  {
    assert PriorDocs([d], span.state.start, span.state.direction) == [];
    assert ScanDocs([d], 0, span) == StartScan([d], span);
    assert ScanDocs([d], 1, span) == ScanDoc(StartScan([d], span), d, span);
  }

  lemma {:induction false} LastIsOfLastTrigger(docs: seq<Doc>, n: nat, span: Span)
    requires n <= |docs|
    ensures var scan := ScanDocs(docs, n, span); scan.triggers != [] && scan.triggers[|scan.triggers| - 1].at == scan.last
  {
    if n > 0 {
      LastIsOfLastTrigger(docs, n - 1, span);
    }
  }

  /** The fresh documents are exactly those that fire and those lost, and some are lost only when the state ends
      within a cooldown of its last trigger. */
  lemma FreshDocumentsFireOrAreLost(docs: seq<Doc>, span: Span)
    ensures var scan := SpanScan(docs, span);
            && Collected(scan.triggers) + scan.pending == FreshDocs(docs, |docs|, span)
            && (scan.pending != [] ==> scan.triggers != [] && span.end <= scan.triggers[|scan.triggers| - 1].at + 600_000)
  {
    LastIsOfLastTrigger(docs, |docs|, span);
    ScanKeepsDocs(docs, |docs|, span);
    FlushKeepsDocs(ScanDocs(docs, |docs|, span), span);
  }

  lemma {:induction false} FreshEventsAreDistinct(docs: seq<Doc>, n: nat, span: Span)
    requires n <= |docs|
    ensures forall d :: d in FreshDocs(docs, n, span) ==> Reported(docs, n, span, d.event)
    ensures forall i, j :: 0 <= i < j < |FreshDocs(docs, n, span)| ==> FreshDocs(docs, n, span)[i].event != FreshDocs(docs, n, span)[j].event
    ensures forall d :: d in FreshDocs(docs, n, span) ==> d.event !in EventsOf(PriorDocs(docs, span.state.start, span.state.direction))
  {
    if n > 0 {
      FreshEventsAreDistinct(docs, n - 1, span);
      var front := FreshDocs(docs, n - 1, span);
      PriorMembers(docs, span.state.start, span.state.direction);
      forall i | 0 <= i < |front| ensures Fresh(docs, n - 1, span) ==> front[i].event != docs[n - 1].event {
        assert front[i] in front;
      }
    }
  }

  /** No event repeats across the new-document triggers of a state, nor one reported before it. */
  lemma EventsDoNotRepeat(docs: seq<Doc>, span: Span)
    ensures var fired := Collected(SpanScan(docs, span).triggers);
            && (forall i, j :: 0 <= i < j < |fired| ==> fired[i].event != fired[j].event)
            && (forall d :: d in fired ==> d.event !in EventsOf(PriorDocs(docs, span.state.start, span.state.direction)))
  {
    FreshDocumentsFireOrAreLost(docs, span);
    FreshEventsAreDistinct(docs, |docs|, span);
    var scan := SpanScan(docs, span);
    var fired, all := Collected(scan.triggers), FreshDocs(docs, |docs|, span);
    assert forall i :: 0 <= i < |fired| ==> fired[i] == all[i];
    assert forall d :: d in fired ==> d in all;
  }

  ghost predicate Ascending(triggers: seq<Trigger>) {
    forall i, j :: 0 <= i < j < |triggers| ==> triggers[i].at < triggers[j].at
  }

  lemma {:induction false} SpacedAscends(triggers: seq<Trigger>, span: Span, i: nat, j: nat)
    requires WellSpaced(triggers, span) && i < j < |triggers|
    ensures triggers[i].at + COOLDOWN <= triggers[j].at
  {
    assert triggers[j - 1].at + COOLDOWN <= triggers[j].at;
    if i < j - 1 {
      SpacedAscends(triggers, span, i, j - 1);
    }
  }

  ghost predicate StatesAscend(states: seq<State>) {
    forall i, j :: 0 <= i < j < |states| ==> states[i].start < states[j].start
  }

  lemma {:induction false} StatesAscending(docs: seq<Doc>, states: seq<State>, n: nat, dayEnd: int)
    requires n <= |states| && Sorted(docs) && StatesAscend(states)
    ensures Ascending(AllTriggers(docs, states, n, dayEnd))
    ensures n < |states| ==> forall t :: t in AllTriggers(docs, states, n, dayEnd) ==> t.at < states[n].start
    ensures n == |states| > 0 ==> forall t :: t in AllTriggers(docs, states, n, dayEnd) ==> t.at <= states[n - 1].start || t.at < dayEnd
  {
    if n > 0 {
      var span := SpanOf(states, n - 1, dayEnd);
      StatesAscending(docs, states, n - 1, dayEnd);
      TriggersAreSpaced(docs, span);
      var front, back := AllTriggers(docs, states, n - 1, dayEnd), SpanScan(docs, span).triggers;
      assert forall i :: 0 <= i < |front| ==> front[i] in front;
      forall i, j | 0 <= i < j < |back| ensures back[i].at < back[j].at {
        SpacedAscends(back, span, i, j);
      }
      forall j | 0 <= j < |back| ensures states[n - 1].start <= back[j].at {}
    }
  }

  /** Where the change of state `i` stands among the triggers of the day. */
  lemma {:induction false} ChangeIsPlaced(docs: seq<Doc>, states: seq<State>, n: nat, dayEnd: int, i: nat)
    requires i < n <= |states| && Sorted(docs)
    ensures var at := |AllTriggers(docs, states, i, dayEnd)|;
            at < |AllTriggers(docs, states, n, dayEnd)| && AllTriggers(docs, states, n, dayEnd)[at].at == states[i].start
  {
    TriggersAreSpaced(docs, SpanOf(states, n - 1, dayEnd));
    if i < n - 1 {
      ChangeIsPlaced(docs, states, n - 1, dayEnd, i);
    }
  }

  /** Over a whole day the triggers come in strict time order exactly when the states do, and then all of them lie
      before the day's end exactly when the last state starts before it. */
  lemma TheDayAscends(docs: seq<Doc>, states: seq<State>, dayEnd: int)
    requires Sorted(docs)
    ensures Ascending(AllTriggers(docs, states, |states|, dayEnd)) <==> StatesAscend(states)
    ensures StatesAscend(states) && states != [] ==>
              ((forall t :: t in AllTriggers(docs, states, |states|, dayEnd) ==> t.at < dayEnd) <==> states[|states| - 1].start < dayEnd)
  {
    var all := AllTriggers(docs, states, |states|, dayEnd);
    if StatesAscend(states) {
      StatesAscending(docs, states, |states|, dayEnd);
      if states != [] {
        ChangeIsPlaced(docs, states, |states|, dayEnd, |states| - 1);
        assert all[|AllTriggers(docs, states, |states| - 1, dayEnd)|] in all;
      }
    } else {
      var i, j :| 0 <= i < j < |states| && states[i].start >= states[j].start;
      ChangeIsPlaced(docs, states, |states|, dayEnd, i);
      ChangeIsPlaced(docs, states, |states|, dayEnd, j);
      ChangeIsPlaced(docs, states, j, dayEnd, i);
    }
  }

  // ----- what counts, and which documents a state starts with

  /** Which documents can fire: a probable new fact of the state's direction, about the company or a competitor, of an
      event that is grouped and is neither scheduled nor of no kind; and no document in a state without direction. */
  lemma EligibleIs(d: Doc, direction: int)
    requires d.judged.Some?
    ensures var v := d.judged.value;
            !Eligible(d, direction) <==>
              || direction == 0 || v.direction != direction || d.event == None
              || v.infoType != "NEW_FACT" || (v.relevance != "DIRECT" && v.relevance != "COMPETITOR")
              || v.eventType == "SCHEDULE" || v.eventType == "OTHER" || v.probability < 0.7
  {}

  lemma UnjudgedNeverFires(d: Doc, direction: int)
    requires d.judged.None?
    ensures !Eligible(d, direction)
  {}

  /** `some` are the documents of `docs` that meet `p`, in order. */
  ghost predicate Selected(docs: seq<Doc>, some: seq<Doc>, p: Doc -> bool) {
    if docs == [] then some == []
    else if p(docs[0]) then some != [] && some[0] == docs[0] && Selected(docs[1..], some[1..], p)
    else Selected(docs[1..], some, p)
  }

  lemma {:induction false} PriorIsSelected(docs: seq<Doc>, start: int, direction: int)
    ensures Selected(docs, PriorDocs(docs, start, direction), (d: Doc) => d.at < start && Eligible(d, direction))
  {
    if docs != [] {
      PriorIsSelected(docs[1..], start, direction);
      var rest := PriorDocs(docs[1..], start, direction);
      if docs[0].at < start && Eligible(docs[0], direction) {
        assert ([docs[0]] + rest)[1..] == rest;
      } else {
        assert [] + rest == rest;
      }
    }
  }

  lemma {:induction false} ScanKeepsFirst(docs: seq<Doc>, n: nat, span: Span)
    requires n <= |docs|
    ensures ScanDocs(docs, n, span).triggers != [] && ScanDocs(docs, n, span).triggers[0] == StartScan(docs, span).triggers[0]
  {
    if n > 0 {
      ScanKeepsFirst(docs, n - 1, span);
    }
  }

  /** The state change comes with the documents that could have fired before it, in order. */
  lemma ChangeReportsEarlierDocuments(docs: seq<Doc>, span: Span)
    ensures SpanScan(docs, span).triggers != []
    ensures var first := SpanScan(docs, span).triggers;
            && first[0].at == span.state.start && first[0].reason == PriceStateChange
            && first[0].state == span.state.name
            && Selected(docs, first[0].docs, (d: Doc) => d.at < span.state.start && Eligible(d, span.state.direction))
  {
    ScanKeepsFirst(docs, |docs|, span);
    PriorIsSelected(docs, span.state.start, span.state.direction);
  }

  lemma {:induction false} DayEndIs(docs: seq<Doc>)
    requires docs != []
    ensures forall d :: d in docs ==> d.at + 60_000 <= DayEnd(docs)
    ensures exists d :: d in docs && d.at + 60_000 == DayEnd(docs)
  {
    if |docs| > 1 {
      DayEndIs(docs[..|docs| - 1]);
      assert docs == docs[..|docs| - 1] + [docs[|docs| - 1]];
    } else {
      assert docs[0] in docs;
    }
  }

  /** The day is its states one after the other, each until the next one starts and the last until the day ends. */
  lemma DayIsItsStates(docs: seq<Doc>, states: seq<State>, i: nat, dayEnd: int)
    requires i < |states|
    ensures AllTriggers(docs, states, 0, dayEnd) == []
    ensures AllTriggers(docs, states, i + 1, dayEnd)
            == AllTriggers(docs, states, i, dayEnd)
               + SpanScan(docs, Span(states[i], if i == |states| - 1 then dayEnd else states[i + 1].start)).triggers
  {}
}
