/**
 * Desired and acknowledged subscriptions of one KIS session, and the control
 * operations that are still to be acknowledged.
 */
module SubscriptionPool {

  datatype Sub = Sub(trId: string, symbol: string)

  datatype Operation = Subscribe | Unsubscribe

  /** The subscription after a switch from one feed to another. */
  function Switched(s: Sub, old': string, new': string): Sub {
    if s.trId == old' then Sub(new', s.symbol) else s
  }

  lemma {:induction false} ImageIsSmaller(a: set<Sub>, old': string, new': string)
    ensures |set s | s in a :: Switched(s, old', new')| <= |a|
    decreases a
  {
    if a != {} {
      var x :| x in a;
      ImageIsSmaller(a - {x}, old', new');
      var rest, all := set s | s in a - {x} :: Switched(s, old', new'), set s | s in a :: Switched(s, old', new');
      assert all == rest + {Switched(x, old', new')};
    }
  }

  /** A switch relabels the subscriptions of one feed and leaves the others. */
  lemma SwitchedAre(desired: set<Sub>, old': string, new': string)
    ensures forall s: Sub :: s in (set d | d in desired :: Switched(d, old', new')) <==>
              (s.trId != old' && s in desired) || (s.trId == new' && Sub(old', s.symbol) in desired)
  {
    var all := set d | d in desired :: Switched(d, old', new');
    forall s: Sub | (s.trId != old' && s in desired) || (s.trId == new' && Sub(old', s.symbol) in desired) ensures s in all {
      if s.trId != old' && s in desired {
        assert Switched(s, old', new') == s;
      } else {
        assert Switched(Sub(old', s.symbol), old', new') == s;
      }
    }
  }

  class KISSubscriptionPool {
    const cap: nat
    var desired: set<Sub>
    var actual: set<Sub>

    /** The cap always holds. */
    ghost predicate Valid()
      reads this
    {
      |desired| <= cap
    }

    constructor (cap: nat)
      ensures Valid() && this.cap == cap && desired == {} && actual == {}
    {
      this.cap, desired, actual := cap, {}, {};
    }

    /** Replace the symbols of one feed; over the cap the request is refused and nothing changes. */
    method SetDesired(symbols: set<string>, trId: string) returns (accepted: bool)
      requires Valid()
      modifies this`desired
      ensures Valid()
      ensures accepted <==> |Replaced(old(desired), symbols, trId)| <= cap
      ensures desired == if accepted then Replaced(old(desired), symbols, trId) else old(desired)
      ensures accepted ==> forall s: Sub :: s in desired <==> if s.trId == trId then s.symbol in symbols else s in old(desired)
      ensures forall t: Subs :: t.desired == old(desired) ==> SubsAfter(t, Wants(symbols, trId, cap)) == t.(desired := desired)
    {
      var next := (set s | s in desired && s.trId != trId) + set symbol | symbol in symbols :: Sub(trId, symbol);
      if |next| > cap {
        return false;
      }
      desired := next;
      return true;
    }

    method SwitchMarket(oldTrId: string, newTrId: string)
      requires Valid()
      modifies this`desired
      ensures Valid() && desired == set s | s in old(desired) :: Switched(s, oldTrId, newTrId)
      ensures forall s: Sub :: s in desired <==>
                (s.trId != oldTrId && s in old(desired)) || (s.trId == newTrId && Sub(oldTrId, s.symbol) in old(desired))
      ensures forall t: Subs :: t.desired == old(desired) ==> SubsAfter(t, Switches(oldTrId, newTrId)) == t.(desired := desired)
    {
      ImageIsSmaller(desired, oldTrId, newTrId);
      SwitchedAre(desired, oldTrId, newTrId);
      desired := set s | s in desired :: Switched(s, oldTrId, newTrId);
    }

    method ConfirmSubscribed(s: Sub)
      modifies this`actual
      ensures actual == old(actual) + {s}
    {
      actual := actual + {s};
    }

    method ConfirmUnsubscribed(s: Sub)
      modifies this`actual
      ensures actual == old(actual) - {s}
    {
      actual := actual - {s};
    }

    method ClearActual()
      modifies this`actual
      ensures actual == {}
    {
      actual := {};
    }
  }

  function Replaced(desired: set<Sub>, symbols: set<string>, trId: string): set<Sub> {
    (set s | s in desired && s.trId != trId) + set symbol | symbol in symbols :: Sub(trId, symbol)
  }

  // ----- reconciling with the server

  /** The subscription state: what is wanted, what has been acknowledged, what is under way, and what the
      current socket has acknowledged. */
  datatype Subs = Subs(desired: set<Sub>, actual: set<Sub>, pending: map<Sub, Operation>, onSocket: set<Sub>)

  /** Where the acknowledged set is heading once everything under way is acknowledged. */
  function Heading(acknowledged: set<Sub>, pending: map<Sub, Operation>): set<Sub> {
    (acknowledged - set s | s in pending && pending[s] == Unsubscribe) + set s | s in pending && pending[s] == Subscribe
  }

  function Differences(desired: set<Sub>, actual: set<Sub>): map<Sub, Operation> {
    map s | s in (desired - actual) + (actual - desired) :: if s in desired then Subscribe else Unsubscribe
  }

  /** What is asked for on a socket: a subscription for what is wanted and not recorded, its end for what is recorded and
      not wanted, and nothing else. */
  lemma DifferencesAre(desired: set<Sub>, actual: set<Sub>, s: Sub)
    ensures s in Differences(desired, actual) <==> (s in desired) != (s in actual)
    ensures s in desired && s !in actual ==> Differences(desired, actual)[s] == Subscribe
    ensures s !in desired && s in actual ==> Differences(desired, actual)[s] == Unsubscribe
  {}

  /** After the control messages for all differences the acknowledged set is heading for the desired one. */
  lemma DifferencesHeadHome(desired: set<Sub>, actual: set<Sub>)
    ensures Heading(actual, Differences(desired, actual)) == desired
    ensures Heading({}, Differences(desired, actual)) == desired - actual
  {}

  /** The outcome of one acknowledgement. */
  function Acknowledge(s: Subs, sub: Sub, op: Operation): Subs {
    s.(pending := s.pending - {sub},
       actual := if op == Subscribe then s.actual + {sub} else s.actual - {sub},
       onSocket := if op == Subscribe then s.onSocket + {sub} else s.onSocket - {sub})
  }

  /** An acknowledgement is no longer under way, and is recorded on both sides; nothing else changes. */
  lemma AcknowledgeIs(s: Subs, sub: Sub, op: Operation, x: Sub)
    ensures var t := Acknowledge(s, sub, op);
            && t.desired == s.desired && sub !in t.pending
            && (sub in t.actual <==> op == Subscribe) && (sub in t.onSocket <==> op == Subscribe)
            && (x != sub ==>
                  && (x in t.actual <==> x in s.actual) && (x in t.onSocket <==> x in s.onSocket)
                  && (x in t.pending <==> x in s.pending) && (x in s.pending ==> t.pending[x] == s.pending[x]))
  {}

  predicate InKind(s: Subs, sub: Sub, op: Operation) {
    sub in s.pending && s.pending[sub] == op
  }

  datatype Ack = Ack(sub: Sub, op: Operation)

  function AfterAcks(s: Subs, acks: seq<Ack>): Subs {
    if acks == [] then s else Acknowledge(AfterAcks(s, acks[..|acks| - 1]), acks[|acks| - 1].sub, acks[|acks| - 1].op)
  }

  ghost predicate AllInKind(s: Subs, acks: seq<Ack>) {
    forall i :: 0 <= i < |acks| ==> InKind(AfterAcks(s, acks[..i]), acks[i].sub, acks[i].op)
  }

  /** Acknowledgements in kind do not change where the two acknowledged sets are heading. */
  lemma {:induction false} AcksKeepHeading(s: Subs, acks: seq<Ack>)
    requires AllInKind(s, acks)
    ensures var t := AfterAcks(s, acks);
            && t.desired == s.desired
            && Heading(t.actual, t.pending) == Heading(s.actual, s.pending)
            && Heading(t.onSocket, t.pending) == Heading(s.onSocket, s.pending)
  {
    if acks != [] {
      var front, last := acks[..|acks| - 1], acks[|acks| - 1];
      forall i | 0 <= i < |front| ensures InKind(AfterAcks(s, front[..i]), front[i].sub, front[i].op) {
        assert front[..i] == acks[..i];
      }
      AcksKeepHeading(s, front);
      AckKeepsHeading(AfterAcks(s, front), last.sub, last.op);
    }
  }

  lemma AckKeepsHeading(s: Subs, sub: Sub, op: Operation)
    requires InKind(s, sub, op)
    ensures var t := Acknowledge(s, sub, op);
            && Heading(t.actual, t.pending) == Heading(s.actual, s.pending)
            && Heading(t.onSocket, t.pending) == Heading(s.onSocket, s.pending)
  {
    var t := Acknowledge(s, sub, op);
    forall x ensures x in Heading(t.actual, t.pending) <==> x in Heading(s.actual, s.pending) {}
    forall x ensures x in Heading(t.onSocket, t.pending) <==> x in Heading(s.onSocket, s.pending) {}
  }

  /** State right after all differences were sent on a new socket. */
  function Requested(desired: set<Sub>, actual: set<Sub>): Subs {
    Subs(desired, actual, Differences(desired, actual), {})
  }

  /** Once everything sent is acknowledged in kind, the acknowledged set is the desired one; the socket itself
      carries all of it exactly when nothing desired was still recorded from an earlier socket. */
  lemma AcknowledgedMeansDesired(desired: set<Sub>, actual: set<Sub>, acks: seq<Ack>)
    requires AllInKind(Requested(desired, actual), acks) && AfterAcks(Requested(desired, actual), acks).pending == map[]
    ensures AfterAcks(Requested(desired, actual), acks).actual == desired
    ensures AfterAcks(Requested(desired, actual), acks).onSocket == desired - actual
    ensures AfterAcks(Requested(desired, actual), acks).onSocket == desired <==> actual !! desired
  {
    AcksKeepHeading(Requested(desired, actual), acks);
    DifferencesHeadHome(desired, actual);
    var t := AfterAcks(Requested(desired, actual), acks);
    assert Heading(t.actual, map[]) == t.actual && Heading(t.onSocket, map[]) == t.onSocket;
    assert forall s :: s in desired - actual <==> s in desired && s !in actual;
    if actual !! desired {
      assert desired - actual == desired;
    } else {
      var s :| s in actual && s in desired;
      assert s !in desired - actual;
    }
  }

  // ----- whole runs

  /** The subscription state with its bookkeeping: what was wanted when the differences were last sent, and what was
      recorded from an earlier socket at that time. */
  datatype Link = Link(subs: Subs, asked: set<Sub>, stale: set<Sub>, live: bool)

  datatype LinkStep =
    | Connects
    | Reconnects
    | BreaksOff(sent: set<Sub>)          // a new socket on which only part of the differences was sent
    | Stops
    | Wants(symbols: set<string>, trId: string, cap: nat)
    | Switches(oldTrId: string, newTrId: string)
    | Acks(sub: Sub, op: Operation)

  /** Acknowledgements are in kind, and none arrives without a socket. */
  predicate Allowed(l: Link, s: LinkStep) {
    s.Acks? ==> l.live && InKind(l.subs, s.sub, s.op)
  }

  function SubsAfter(t: Subs, s: LinkStep): Subs {
    match s
    case Connects => Requested(t.desired, t.actual)
    case Reconnects => Requested(t.desired, {})
    case BreaksOff(sent) => Subs(t.desired, {}, Restricted(Differences(t.desired, {}), sent), {})
    case Stops => t.(pending := map[])
    case Wants(symbols, trId, cap) =>
      var next := Replaced(t.desired, symbols, trId);
      if |next| > cap then t else t.(desired := next)
    case Switches(oldTrId, newTrId) => t.(desired := set d | d in t.desired :: Switched(d, oldTrId, newTrId))
    case Acks(sub, op) => Acknowledge(t, sub, op)
  }

  function LinkAfter(l: Link, s: LinkStep): Link {
    var t, next := l.subs, SubsAfter(l.subs, s);
    match s
    case Connects => Link(next, t.desired, t.actual, true)
    case Reconnects => Link(next, t.desired, {}, true)
    case BreaksOff(sent) => Link(next, t.desired * sent, {}, true)
    case Stops => l.(subs := next, live := false)
    case _ => l.(subs := next)
  }

  /** The subscription state after steps, taken from the first. */
  function RunFrom(t: Subs, steps: seq<LinkStep>): Subs
    decreases |steps|
  {
    if steps == [] then t else RunFrom(SubsAfter(t, steps[0]), steps[1..])
  }

  lemma {:induction false} RunOn(t: Subs, first: seq<LinkStep>, second: seq<LinkStep>)
    ensures RunFrom(t, first + second) == RunFrom(RunFrom(t, first), second)
    decreases |first|
  {
    if first == [] {
      assert first + second == second;
    } else {
      RunOn(SubsAfter(t, first[0]), first[1..], second);
      assert (first + second)[1..] == first[1..] + second;
    }
  }

  lemma {:induction false} LinkRunIsRun(l: Link, steps: seq<LinkStep>)
    ensures LinkRun(l, steps).subs == RunFrom(l.subs, steps)
  {
    if steps != [] {
      var front, last := steps[..|steps| - 1], steps[|steps| - 1];
      LinkRunIsRun(l, front);
      assert steps == front + [last];
      RunOn(l.subs, front, [last]);
      assert [last][1..] == [];
    }
  }

  function Restricted(m: map<Sub, Operation>, part: set<Sub>): map<Sub, Operation> {
    map s | s in m && s in part :: m[s]
  }

  function LinkRun(l: Link, steps: seq<LinkStep>): Link {
    if steps == [] then l else LinkAfter(LinkRun(l, steps[..|steps| - 1]), steps[|steps| - 1])
  }

  ghost predicate AllAllowed(l: Link, steps: seq<LinkStep>) {
    steps != [] ==>
      AllAllowed(l, steps[..|steps| - 1]) && Allowed(LinkRun(l, steps[..|steps| - 1]), steps[|steps| - 1])
  }

  /** On a live socket both acknowledged sets are heading for what was asked, the socket's own without the stale part. */
  ghost predicate Heads(l: Link) {
    l.live ==> Heading(l.subs.actual, l.subs.pending) == l.asked && Heading(l.subs.onSocket, l.subs.pending) == l.asked - l.stale
  }

  lemma StepHeads(l: Link, s: LinkStep)
    requires Heads(l) && Allowed(l, s)
    ensures Heads(LinkAfter(l, s))
  {
    match s
    case Connects => DifferencesHeadHome(l.subs.desired, l.subs.actual);
    case Reconnects => DifferencesHeadHome(l.subs.desired, {});
    case Acks(sub, op) => AckKeepsHeading(l.subs, sub, op);
    case _ =>
  }

  lemma {:induction false} RunHeads(l: Link, steps: seq<LinkStep>)
    requires Heads(l) && AllAllowed(l, steps)
    ensures Heads(LinkRun(l, steps))
  {
    if steps != [] {
      RunHeads(l, steps[..|steps| - 1]);
      StepHeads(LinkRun(l, steps[..|steps| - 1]), steps[|steps| - 1]);
    }
  }

  const UNLINKED := Link(Subs({}, {}, map[], {}), {}, {}, false)

  /** Over any run with acknowledgements in kind: once nothing is under way on a live socket, the acknowledged set is
      what was wanted when the differences were last sent. So it is the desired one exactly when nothing was wanted
      otherwise since, and the socket carries all of it exactly when, besides, none of it was recorded before. */
  lemma SettledLinks(steps: seq<LinkStep>)
    requires AllAllowed(UNLINKED, steps)
    requires LinkRun(UNLINKED, steps).live && LinkRun(UNLINKED, steps).subs.pending == map[]
    ensures var l := LinkRun(UNLINKED, steps);
            && l.subs.actual == l.asked && l.subs.onSocket == l.asked - l.stale
            && (l.subs.actual == l.subs.desired <==> l.subs.desired == l.asked)
            && (l.subs.desired == l.asked ==> (l.subs.onSocket == l.subs.desired <==> l.stale !! l.subs.desired))
  {
    RunHeads(UNLINKED, steps);
    var l := LinkRun(UNLINKED, steps);
    assert Heading(l.subs.actual, map[]) == l.subs.actual && Heading(l.subs.onSocket, map[]) == l.subs.onSocket;
    if l.stale !! l.asked {
      assert l.asked - l.stale == l.asked;
    } else {
      var s :| s in l.stale && s in l.asked;
      assert s !in l.asked - l.stale;
    }
  }

  /** Connect, acknowledge, stop, connect: everything is recorded as acknowledged and the new socket carries nothing. */
  lemma SecondConnectAsksForNothing(sub: Sub)
    ensures var steps := [Wants({sub.symbol}, sub.trId, 40), Connects, Acks(sub, Subscribe), Stops, Connects];
            var l := LinkRun(UNLINKED, steps);
            && AllAllowed(UNLINKED, steps) && l.live && l.subs.pending == map[]
            && l.subs.desired == {sub} == l.subs.actual && l.subs.onSocket == {}
  {
    var run3 := [Wants({sub.symbol}, sub.trId, 40), Connects, Acks(sub, Subscribe)];
    FirstConnectSettles(sub);
    var stopped := LinkRunSnoc(UNLINKED, run3, Stops);
    var again := LinkRunSnoc(UNLINKED, run3 + [Stops], Connects);
    assert run3 + [Stops] + [Connects] == [Wants({sub.symbol}, sub.trId, 40), Connects, Acks(sub, Subscribe), Stops, Connects];
    assert Differences({sub}, {sub}) == map[];
  }

  lemma FirstConnectSettles(sub: Sub)
    ensures var run3 := [Wants({sub.symbol}, sub.trId, 40), Connects, Acks(sub, Subscribe)];
            AllAllowed(UNLINKED, run3) && LinkRun(UNLINKED, run3) == Link(Subs({sub}, {sub}, map[], {sub}), {sub}, {}, true)
  {
    var wants := Wants({sub.symbol}, sub.trId, 40);
    assert [] + [wants] == [wants] && [wants] + [Connects] == [wants, Connects];
    assert [wants, Connects] + [Acks(sub, Subscribe)] == [wants, Connects, Acks(sub, Subscribe)];
    var a := LinkRunSnoc(UNLINKED, [], wants);
    assert Replaced({}, {sub.symbol}, sub.trId) == {sub};
    var b := LinkRunSnoc(UNLINKED, [wants], Connects);
    assert Differences({sub}, {}) == map[sub := Subscribe];
    var c := LinkRunSnoc(UNLINKED, [wants, Connects], Acks(sub, Subscribe));
    assert c.subs == Subs({sub}, {sub}, map[], {sub});
  }

  lemma LinkRunSnoc(l: Link, steps: seq<LinkStep>, s: LinkStep) returns (after: Link)
    ensures after == LinkRun(l, steps + [s]) == LinkAfter(LinkRun(l, steps), s)
    ensures AllAllowed(l, steps + [s]) <==> AllAllowed(l, steps) && Allowed(LinkRun(l, steps), s)
  {
    assert (steps + [s])[..|steps|] == steps;
    after := LinkRun(l, steps + [s]);
  }
}
