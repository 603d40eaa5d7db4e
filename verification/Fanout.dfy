/**
 * Handling of one alert event: record it, create a pending notification per watcher,
 * then try each pending one. The process may stop between any two atomic actions, and
 * the event is then delivered again.
 */
module Fanout {

  /** The reserved identifier that is always refused. */
  const NIL_ALERT := 0

  /** A notification is identified by its user and its alert (a unique pair in the table). */
  datatype Key = Key(user: int, alert: int)

  datatype Status = Pending | Sent | Failed(reason: string)

  datatype Note = Note(id: int, symbol: string, status: Status)

  /** The tables, and how often a send was begun for each notification. */
  datatype Board = Board(alerts: map<int, string>, notes: map<Key, Note>, sends: map<Key, nat>)

  /** What the connection registry answers for one user: no connection, or the number of sockets reached. */
  datatype Answer = Offline | Online(sent: nat)

  /** One delivery of an alert: the watchers found, fresh identifiers, the registry's answers,
      and the number of atomic actions before the process stops. */
  datatype Delivery = Delivery(alert: int, symbol: string, users: seq<int>, ids: int -> int, answers: nat -> Answer, actions: nat)

  datatype Outcome = Outcome(board: Board, completed: bool)

  // ----- atomic actions

  function Upsert(b: Board, alert: int, symbol: string): Board {
    if alert in b.alerts then b else b.(alerts := b.alerts[alert := symbol])
  }

  function CreatePending(b: Board, alert: int, symbol: string, users: seq<int>, ids: int -> int): Board {
    if users == [] then b
    else
      var rest := CreatePending(b, alert, symbol, users[..|users| - 1], ids);
      var user := users[|users| - 1];
      var key := Key(user, alert);
      if key in rest.notes then rest
      else rest.(notes := rest.notes[key := Note(ids(user), symbol, Pending)])
  }

  function PendingOf(b: Board, alert: int, users: seq<int>): seq<int> {
    if users == [] then []
    else
      var key := Key(users[0], alert);
      (if key in b.notes && b.notes[key].status == Pending then [users[0]] else []) + PendingOf(b, alert, users[1..])
  }

  function Mark(b: Board, key: Key, status: Status): Board {
    if key in b.notes then b.(notes := b.notes[key := b.notes[key].(status := status)]) else b
  }

  function SendsOf(b: Board, key: Key): nat {
    if key in b.sends then b.sends[key] else 0
  }

  function BeginSend(b: Board, key: Key): Board {
    b.(sends := b.sends[key := SendsOf(b, key) + 1])
  }

  function StatusAfter(answer: Answer): Status {
    match answer
    case Offline => Failed("no_connection")
    case Online(sent) => if sent > 0 then Sent else Failed("send_error")
  }

  /** The loop over the pending users, from the `i`-th on, with `actions` left. */
  function Walk(b: Board, alert: int, pending: seq<int>, i: nat, answers: nat -> Answer, actions: nat): Outcome
    requires i <= |pending|
    decreases |pending| - i
  {
    if i == |pending| then Outcome(b, true)
    else if actions == 0 then Outcome(b, false)
    else
      var key := Key(pending[i], alert);
      match answers(i)
      case Offline => Walk(Mark(b, key, StatusAfter(Offline)), alert, pending, i + 1, answers, actions - 1)
      case Online(sent) =>
        var begun := BeginSend(b, key);
        if actions == 1 then Outcome(begun, false)
        else Walk(Mark(begun, key, StatusAfter(Online(sent))), alert, pending, i + 1, answers, actions - 2)
  }

  function Deliver(b: Board, d: Delivery): Outcome {
    if d.alert == NIL_ALERT || d.actions == 0 then Outcome(b, false)
    else
      var recorded := Upsert(b, d.alert, d.symbol);
      if d.users == [] then Outcome(recorded, true)
      else if d.actions == 1 then Outcome(recorded, false)
      else
        var created := CreatePending(recorded, d.alert, d.symbol, d.users, d.ids);
        Walk(created, d.alert, PendingOf(created, d.alert, d.users), 0, d.answers, d.actions - 2)
  }

  class AlertPusher {
    var alerts: map<int, string>
    var notes: map<Key, Note>
    ghost var sends: map<Key, nat>

    ghost function View(): Board
      reads this
    {
      Board(alerts, notes, sends)
    }

    method BulkCreatePending(d: Delivery) returns (pairs: seq<int>)
      modifies this`notes
      ensures View() == CreatePending(old(View()), d.alert, d.symbol, d.users, d.ids)
      ensures pairs == PendingOf(View(), d.alert, d.users)
    {
      for i := 0 to |d.users|
        invariant View() == CreatePending(old(View()), d.alert, d.symbol, d.users[..i], d.ids)
      {
        assert d.users[..i + 1][..i] == d.users[..i];
        var key := Key(d.users[i], d.alert);
        if key !in notes {
          notes := notes[key := Note(d.ids(d.users[i]), d.symbol, Pending)];
        }
      }
      assert d.users[..|d.users|] == d.users;
      pairs := PendingNow(d.alert, d.users);
    }

    method PendingNow(alert: int, users: seq<int>) returns (pairs: seq<int>)
      ensures pairs == PendingOf(View(), alert, users)
    {
      pairs := [];
      var i := |users|;
      while i > 0
        invariant 0 <= i <= |users|
        invariant pairs == PendingOf(View(), alert, users[i..])
      {
        i := i - 1;
        assert users[i..][1..] == users[i + 1..];
        var key := Key(users[i], alert);
        if key in notes && notes[key].status == Pending {
          pairs := [users[i]] + pairs;
        }
      }
      assert users[0..] == users;
    }

    method MarkStatus(key: Key, status: Status)
      modifies this`notes
      ensures View() == Mark(old(View()), key, status)
    {
      if key in notes {
        notes := notes[key := notes[key].(status := status)];
      }
    }

    /** One delivery, stopped after `d.actions` atomic actions; the result tells whether it ran to its end. */
    method Handle(d: Delivery) returns (completed: bool)
      modifies this
      ensures Outcome(View(), completed) == Deliver(old(View()), d)
    {
      if d.alert == NIL_ALERT || d.actions == 0 {
        return false;
      }
      if d.alert !in alerts {
        alerts := alerts[d.alert := d.symbol];
      }
      if d.users == [] {
        return true;
      }
      if d.actions == 1 {
        return false;
      }
      var pending := BulkCreatePending(d);
      completed := TryEach(d.alert, pending, d.answers, d.actions - 2);
    }

    method TryEach(alert: int, pending: seq<int>, answers: nat -> Answer, actions: nat) returns (completed: bool)
      modifies this`notes, this`sends
      ensures Outcome(View(), completed) == Walk(old(View()), alert, pending, 0, answers, actions)
    {
      var left := actions;
      for i := 0 to |pending|
        invariant Walk(old(View()), alert, pending, 0, answers, actions) == Walk(View(), alert, pending, i, answers, left)
        invariant alerts == old(alerts)
      {
        if left == 0 {
          return false;
        }
        var key := Key(pending[i], alert);
        match answers(i)
        case Offline =>
          MarkStatus(key, Failed("no_connection"));
          left := left - 1;
        case Online(sent) =>
          sends := BeginSend(View(), key).sends;
          if left == 1 {
            return false;
          }
          MarkStatus(key, if sent > 0 then Sent else Failed("send_error"));
          left := left - 2;
      }
      return true;
    }
  }

  // ----- one delivery

  ghost predicate Distinct(users: seq<int>) {
    forall i, j :: 0 <= i < j < |users| ==> users[i] != users[j]
  }

  /** Notifications stay, keep their identity, and never change again once sent or failed. */
  ghost predicate Settles(b: Board, b': Board) {
    forall key :: key in b.notes ==>
      && key in b'.notes && b'.notes[key].id == b.notes[key].id && b'.notes[key].symbol == b.notes[key].symbol
      && (b.notes[key].status != Pending ==> b'.notes[key] == b.notes[key])
  }

  lemma {:induction false} PendingOfIs(b: Board, alert: int, users: seq<int>)
    ensures forall u :: u in PendingOf(b, alert, users) <==> u in users && Key(u, alert) in b.notes && b.notes[Key(u, alert)].status == Pending
    ensures Distinct(users) ==> Distinct(PendingOf(b, alert, users))
  {
    if users != [] {
      PendingOfIs(b, alert, users[1..]);
      assert users == [users[0]] + users[1..];
      assert Distinct(users) ==> Distinct(users[1..]) && users[0] !in users[1..];
    }
  }

  lemma {:induction false} CreatePendingAdds(b: Board, alert: int, symbol: string, users: seq<int>, ids: int -> int)
    ensures var c := CreatePending(b, alert, symbol, users, ids);
            && c.alerts == b.alerts && c.sends == b.sends
            && (forall key :: key in b.notes ==> key in c.notes && c.notes[key] == b.notes[key])
            && (forall key :: key in c.notes && key !in b.notes ==>
                  key.alert == alert && key.user in users && c.notes[key] == Note(ids(key.user), symbol, Pending))
            && (forall u :: u in users ==> Key(u, alert) in c.notes)
  {
    if users != [] {
      CreatePendingAdds(b, alert, symbol, users[..|users| - 1], ids);
      assert users == users[..|users| - 1] + [users[|users| - 1]];
    }
  }

  /** What a walk does to one key: at most one more send, and a final status if it got that far. */
  ghost predicate Walked(b: Board, o: Outcome, key: Key, mine: bool) {
    && (key in b.notes <==> key in o.board.notes)
    && (!mine ==> SendsOf(o.board, key) == SendsOf(b, key) && (key in b.notes ==> o.board.notes[key] == b.notes[key]))
    && SendsOf(b, key) <= SendsOf(o.board, key) <= SendsOf(b, key) + 1
    && (key in b.notes && mine ==>
          && o.board.notes[key] == b.notes[key].(status := o.board.notes[key].status)
          && (o.completed ==> o.board.notes[key].status != Pending)
          && (o.board.notes[key].status == Sent && b.notes[key].status == Pending ==> SendsOf(o.board, key) == SendsOf(b, key) + 1))
  }

  lemma {:induction false} WalkTouchesOnce(b: Board, alert: int, pending: seq<int>, i: nat, answers: nat -> Answer, actions: nat, key: Key)
    requires i <= |pending| && Distinct(pending)
    ensures Walked(b, Walk(b, alert, pending, i, answers, actions), key, key.alert == alert && key.user in pending[i..])
    decreases |pending| - i
  {
    if i < |pending| && actions > 0 {
      var k := Key(pending[i], alert);
      assert pending[i..] == [pending[i]] + pending[i + 1..];
      assert pending[i] !in pending[i + 1..];
      match answers(i)
      case Offline => {
        WalkTouchesOnce(Mark(b, k, StatusAfter(Offline)), alert, pending, i + 1, answers, actions - 1, key);
      }
      case Online(sent) => {
        var begun := BeginSend(b, k);
        if actions > 1 {
          WalkTouchesOnce(Mark(begun, k, StatusAfter(Online(sent))), alert, pending, i + 1, answers, actions - 2, key);
        }
      }
    }
  }

  /** What one delivery does to a notification. */
  lemma DeliverTouchesOnce(b: Board, d: Delivery, key: Key)
    requires Distinct(d.users)
    ensures var o := Deliver(b, d);
            && (key in b.notes ==> key in o.board.notes && o.board.notes[key] == b.notes[key].(status := o.board.notes[key].status))
            && (key in b.notes && b.notes[key].status != Pending ==> o.board.notes[key] == b.notes[key])
            && (key in o.board.notes && key !in b.notes ==> key.alert == d.alert && key.user in d.users)
            && (o.completed && key.alert == d.alert && key.user in d.users ==> key in o.board.notes && o.board.notes[key].status != Pending)
  {
    if d.alert != NIL_ALERT && d.actions > 1 && d.users != [] {
      WalkOfDelivery(b, d, key);
    }
  }

  /** What one delivery does to the sends of a notification. */
  lemma DeliverSendsOnce(b: Board, d: Delivery, key: Key)
    requires Distinct(d.users)
    ensures var o := Deliver(b, d);
            && SendsOf(b, key) <= SendsOf(o.board, key) <= SendsOf(b, key) + 1
            && (SendsOf(o.board, key) > SendsOf(b, key) ==>
                  key.alert == d.alert && key in o.board.notes && (key in b.notes ==> b.notes[key].status == Pending))
            && (SendsOf(o.board, key) > SendsOf(b, key) && o.board.notes[key].status == Pending ==> !o.completed)
            && (key in o.board.notes && o.board.notes[key].status == Sent && (key in b.notes ==> b.notes[key].status == Pending) ==>
                  SendsOf(o.board, key) == SendsOf(b, key) + 1)
  {
    if d.alert != NIL_ALERT && d.actions > 1 && d.users != [] {
      WalkOfDelivery(b, d, key);
    }
  }

  /** A delivery that gets past recording the alert walks its pending watchers. */
  lemma WalkOfDelivery(b: Board, d: Delivery, key: Key)
    requires Distinct(d.users) && d.alert != NIL_ALERT && d.actions > 1 && d.users != []
    ensures var created := CreatePending(Upsert(b, d.alert, d.symbol), d.alert, d.symbol, d.users, d.ids);
            && created.sends == b.sends
            && (key in b.notes ==> key in created.notes && created.notes[key] == b.notes[key])
            && (key in created.notes && key !in b.notes ==> key.alert == d.alert && key.user in d.users && created.notes[key].status == Pending)
            && (key.alert == d.alert && key.user in d.users ==> key in created.notes)
            && Walked(created, Deliver(b, d), key,
                      key.alert == d.alert && key.user in d.users && key in created.notes && created.notes[key].status == Pending)
  {
    var created := CreatePending(Upsert(b, d.alert, d.symbol), d.alert, d.symbol, d.users, d.ids);
    CreatePendingAdds(Upsert(b, d.alert, d.symbol), d.alert, d.symbol, d.users, d.ids);
    PendingOfIs(created, d.alert, d.users);
    var pending := PendingOf(created, d.alert, d.users);
    WalkTouchesOnce(created, d.alert, pending, 0, d.answers, d.actions - 2, key);
    assert pending[0..] == pending;
    assert key.alert == d.alert ==> Key(key.user, d.alert) == key;
  }

  /** A completed delivery leaves none of its watchers pending, and every delivery settles what it settles. */
  lemma CompletedMeansSettled(b: Board, d: Delivery)
    requires Distinct(d.users)
    ensures Settles(b, Deliver(b, d).board)
    ensures Deliver(b, d).completed ==> forall u :: u in d.users ==>
              Key(u, d.alert) in Deliver(b, d).board.notes && Deliver(b, d).board.notes[Key(u, d.alert)].status != Pending
  {
    forall key | key in b.notes
      ensures key in Deliver(b, d).board.notes && Deliver(b, d).board.notes[key].id == b.notes[key].id
              && Deliver(b, d).board.notes[key].symbol == b.notes[key].symbol
              && (b.notes[key].status != Pending ==> Deliver(b, d).board.notes[key] == b.notes[key])
    {
      DeliverTouchesOnce(b, d, key);
    }
    forall u | u in d.users && Deliver(b, d).completed
      ensures Key(u, d.alert) in Deliver(b, d).board.notes && Deliver(b, d).board.notes[Key(u, d.alert)].status != Pending
    {
      DeliverTouchesOnce(b, d, Key(u, d.alert));
    }
  }

  /** The status that an answer calls for: sent when some socket was reached, and else failed, with the reason. */
  ghost predicate FinalFor(status: Status, answer: Answer) {
    && (answer.Offline? ==> status == Failed("no_connection"))
    && (answer.Online? && answer.sent > 0 ==> status == Sent)
    && (answer.Online? && answer.sent == 0 ==> status == Failed("send_error"))
  }

  /** In a completed walk every status is the one the registry's answer calls for, and only answers from
      connected users cost a send. */
  lemma {:induction false} StatusMatchesAnswer(b: Board, alert: int, pending: seq<int>, i: nat, answers: nat -> Answer, actions: nat, k: nat)
    requires i <= k < |pending| && Distinct(pending) && Key(pending[k], alert) in b.notes
    requires Walk(b, alert, pending, i, answers, actions).completed
    ensures var after, key := Walk(b, alert, pending, i, answers, actions).board, Key(pending[k], alert);
            && key in after.notes && FinalFor(after.notes[key].status, answers(k))
            && SendsOf(after, key) == SendsOf(b, key) + if answers(k).Online? then 1 else 0
    decreases |pending| - i
  {
    var here, key := Key(pending[i], alert), Key(pending[k], alert);
    var b', left := if answers(i).Offline? then Mark(b, here, StatusAfter(answers(i))) else Mark(BeginSend(b, here), here, StatusAfter(answers(i))),
                    if answers(i).Offline? then actions - 1 else actions - 2;
    if k == i {
      WalkTouchesOnce(b', alert, pending, i + 1, answers, left, key);
      assert pending[i] !in pending[i + 1..];
    } else {
      StatusMatchesAnswer(b', alert, pending, i + 1, answers, left, k);
    }
  }

  // ----- whole runs

  function RunAll(b: Board, ds: seq<Delivery>): Board {
    if ds == [] then b else Deliver(RunAll(b, ds[..|ds| - 1]), ds[|ds| - 1]).board
  }

  /** How many deliveries of an alert stopped before their end. */
  function Aborted(b: Board, ds: seq<Delivery>, alert: int): nat {
    if ds == [] then 0
    else
      var before, d := RunAll(b, ds[..|ds| - 1]), ds[|ds| - 1];
      Aborted(b, ds[..|ds| - 1], alert) + if d.alert == alert && !Deliver(before, d).completed then 1 else 0
  }

  ghost predicate Counted(b: Board, key: Key, aborted: nat) {
    && (key !in b.notes ==> SendsOf(b, key) == 0)
    && (key in b.notes && b.notes[key].status == Pending ==> SendsOf(b, key) <= aborted)
    && (key in b.notes ==> SendsOf(b, key) <= 1 + aborted)
    && (key in b.notes && b.notes[key].status == Sent ==> SendsOf(b, key) >= 1)
  }

  const EMPTY := Board(map[], map[], map[])

  /** However often deliveries are stopped and repeated, a notification is sent at most once more than the
      number of stopped deliveries of its alert; a sent one was sent, and nothing is sent without a notification. */
  lemma {:induction false} SendsAreBounded(ds: seq<Delivery>, key: Key)
    requires forall d :: d in ds ==> Distinct(d.users)
    ensures Counted(RunAll(EMPTY, ds), key, Aborted(EMPTY, ds, key.alert))
  {
    if ds != [] {
      var front, d := ds[..|ds| - 1], ds[|ds| - 1];
      assert forall x :: x in front ==> x in ds;
      assert d in ds;
      SendsAreBounded(front, key);
      DeliverTouchesOnce(RunAll(EMPTY, front), d, key);
      DeliverSendsOnce(RunAll(EMPTY, front), d, key);
    }
  }

  /** Over any run a notification's status moves only away from pending, and then stays. */
  lemma {:induction false} StatusesSettle(b: Board, ds: seq<Delivery>, i: nat)
    requires i <= |ds| && forall d :: d in ds ==> Distinct(d.users)
    ensures Settles(RunAll(b, ds[..i]), RunAll(b, ds))
  {
    if i == |ds| {
      assert ds[..i] == ds;
    } else {
      var front, d := ds[..|ds| - 1], ds[|ds| - 1];
      assert forall x :: x in front ==> x in ds;
      assert d in ds && front[..i] == ds[..i];
      StatusesSettle(b, front, i);
      CompletedMeansSettled(RunAll(b, front), d);
    }
  }

  lemma {:induction false} NothingToCreate(b: Board, alert: int, symbol: string, users: seq<int>, ids: int -> int)
    requires forall u :: u in users ==> Key(u, alert) in b.notes
    ensures CreatePending(b, alert, symbol, users, ids) == b
  {
    if users != [] {
      NothingToCreate(b, alert, symbol, users[..|users| - 1], ids);
    }
  }

  /** Delivering again after a completed delivery sends nothing and changes nothing. */
  lemma RedeliveryIsSilent(b: Board, d: Delivery, again: Delivery)
    requires Distinct(d.users) && Deliver(b, d).completed
    requires again.alert == d.alert && again.users == d.users
    ensures Deliver(Deliver(b, d).board, again).board == Deliver(b, d).board
    ensures again.actions >= 2 ==> Deliver(Deliver(b, d).board, again).completed
  {
    var done := Deliver(b, d).board;
    AlertIsRecorded(b, d);
    CompletedMeansSettled(b, d);
    if again.actions > 1 && again.users != [] {
      NothingToCreate(done, again.alert, again.symbol, again.users, again.ids);
      PendingOfIs(done, again.alert, again.users);
      var pending := PendingOf(done, again.alert, again.users);
      NoneLeft(done, again.alert, again.users);
    }
  }

  lemma NoneLeft(b: Board, alert: int, users: seq<int>)
    requires forall u :: u in users ==> Key(u, alert) in b.notes && b.notes[Key(u, alert)].status != Pending
    ensures PendingOf(b, alert, users) == []
  {}

  lemma {:induction false} WalkKeepsAlerts(b: Board, alert: int, pending: seq<int>, i: nat, answers: nat -> Answer, actions: nat)
    requires i <= |pending|
    ensures Walk(b, alert, pending, i, answers, actions).board.alerts == b.alerts
    decreases |pending| - i
  {
    if i < |pending| && actions > 0 {
      var k := Key(pending[i], alert);
      match answers(i)
      case Offline => WalkKeepsAlerts(Mark(b, k, StatusAfter(Offline)), alert, pending, i + 1, answers, actions - 1);
      case Online(sent) =>
        if actions > 1 {
          WalkKeepsAlerts(Mark(BeginSend(b, k), k, StatusAfter(Online(sent))), alert, pending, i + 1, answers, actions - 2);
        }
    }
  }

  lemma AlertIsRecorded(b: Board, d: Delivery)
    requires d.alert != NIL_ALERT && d.actions > 0
    ensures d.alert in Deliver(b, d).board.alerts
    ensures d.alert in b.alerts ==> Deliver(b, d).board.alerts == b.alerts
  {
    if d.actions > 1 && d.users != [] {
      var created := CreatePending(Upsert(b, d.alert, d.symbol), d.alert, d.symbol, d.users, d.ids);
      CreatePendingAdds(Upsert(b, d.alert, d.symbol), d.alert, d.symbol, d.users, d.ids);
      WalkKeepsAlerts(created, d.alert, PendingOf(created, d.alert, d.users), 0, d.answers, d.actions - 2);
    }
  }

  lemma {:induction false} WalkCompletes(b: Board, alert: int, pending: seq<int>, i: nat, answers: nat -> Answer, actions: nat)
    requires i <= |pending| && actions >= 2 * (|pending| - i)
    ensures Walk(b, alert, pending, i, answers, actions).completed
    decreases |pending| - i
  {
    if i < |pending| {
      var k := Key(pending[i], alert);
      match answers(i)
      case Offline => WalkCompletes(Mark(b, k, StatusAfter(Offline)), alert, pending, i + 1, answers, actions - 1);
      case Online(sent) => WalkCompletes(Mark(BeginSend(b, k), k, StatusAfter(Online(sent))), alert, pending, i + 1, answers, actions - 2);
    }
  }

  lemma {:induction false} PendingAreFew(b: Board, alert: int, users: seq<int>)
    ensures |PendingOf(b, alert, users)| <= |users|
  {
    if users != [] {
      PendingAreFew(b, alert, users[1..]);
    }
  }

  /** A delivery that is not stopped early completes; the reserved identifier never does, and changes nothing. */
  lemma UndisturbedDeliveryCompletes(b: Board, d: Delivery)
    ensures d.alert == NIL_ALERT ==> Deliver(b, d) == Outcome(b, false)
    ensures d.alert != NIL_ALERT && d.actions >= 2 + 2 * |d.users| ==> Deliver(b, d).completed
  {
    if d.alert != NIL_ALERT && d.actions >= 2 + 2 * |d.users| && d.users != [] {
      var created := CreatePending(Upsert(b, d.alert, d.symbol), d.alert, d.symbol, d.users, d.ids);
      PendingAreFew(created, d.alert, d.users);
      WalkCompletes(created, d.alert, PendingOf(created, d.alert, d.users), 0, d.answers, d.actions - 2);
    }
  }

  // ----- a delivery that is stopped anywhere

  /** How far a walk gets, and whether it stops in the middle of a send: a user without connection takes one action, a
      send two. */
  ghost function Progress(pending: seq<int>, i: nat, answers: nat -> Answer, actions: nat): (int, bool)
    requires i <= |pending|
    decreases |pending| - i
  {
    if i == |pending| || actions == 0 then (i, false)
    else if answers(i).Offline? then Progress(pending, i + 1, answers, actions - 1)
    else if actions == 1 then (i, true)
    else Progress(pending, i + 1, answers, actions - 2)
  }

  lemma {:induction false} ProgressAdvances(pending: seq<int>, i: nat, answers: nat -> Answer, actions: nat)
    requires i <= |pending|
    ensures i <= Progress(pending, i, answers, actions).0 <= |pending|
    ensures Progress(pending, i, answers, actions).1 ==> Progress(pending, i, answers, actions).0 < |pending|
    decreases |pending| - i
  {
    if i < |pending| && actions > 0 && (answers(i).Offline? || actions > 1) {
      ProgressAdvances(pending, i + 1, answers, if answers(i).Offline? then actions - 1 else actions - 2);
    }
  }

  /** Of the pending users those before the stop have their final status, the one at the stop may have a send begun, and
      those after it are untouched. */
  lemma {:induction false} WalkStopsAt(b: Board, alert: int, pending: seq<int>, i: nat, answers: nat -> Answer, actions: nat, k: nat)
    requires i <= k < |pending| && Distinct(pending) && Key(pending[k], alert) in b.notes
    ensures var o, key, stop := Walk(b, alert, pending, i, answers, actions), Key(pending[k], alert), Progress(pending, i, answers, actions);
            && key in o.board.notes && (o.completed <==> stop.0 == |pending|)
            && (k < stop.0 ==> FinalFor(o.board.notes[key].status, answers(k)))
            && (k >= stop.0 ==> o.board.notes[key] == b.notes[key])
            && SendsOf(o.board, key)
               == SendsOf(b, key) + if (k < stop.0 && answers(k).Online?) || (k == stop.0 && stop.1) then 1 else 0
    decreases |pending| - i
  {
    var here, key := Key(pending[i], alert), Key(pending[k], alert);
    if actions > 0 && (answers(i).Offline? || actions > 1) {
      var left := if answers(i).Offline? then actions - 1 else actions - 2;
      var b' := if answers(i).Offline? then Mark(b, here, StatusAfter(answers(i))) else Mark(BeginSend(b, here), here, StatusAfter(answers(i)));
      ProgressAdvances(pending, i + 1, answers, left);
      WalkEnds(b', alert, pending, i + 1, answers, left);
      if k == i {
        WalkTouchesOnce(b', alert, pending, i + 1, answers, left, key);
        assert pending[i] !in pending[i + 1..];
      } else {
        WalkStopsAt(b', alert, pending, i + 1, answers, left, k);
      }
    }
  }

  lemma {:induction false} WalkEnds(b: Board, alert: int, pending: seq<int>, i: nat, answers: nat -> Answer, actions: nat)
    requires i <= |pending|
    ensures Walk(b, alert, pending, i, answers, actions).completed <==> Progress(pending, i, answers, actions).0 == |pending|
    decreases |pending| - i
  {
    if i < |pending| && actions > 0 && (answers(i).Offline? || actions > 1) {
      var here := Key(pending[i], alert);
      if answers(i).Offline? {
        WalkEnds(Mark(b, here, StatusAfter(answers(i))), alert, pending, i + 1, answers, actions - 1);
      } else {
        WalkEnds(Mark(BeginSend(b, here), here, StatusAfter(answers(i))), alert, pending, i + 1, answers, actions - 2);
      }
    }
  }

  /** What a delivery records before it sends: the alert, unless it is known, and then a notification per watcher without
      one; nothing of other alerts. */
  lemma DeliverRecords(b: Board, d: Delivery, key: Key)
    requires Distinct(d.users)
    ensures var after := Deliver(b, d).board;
            && (d.alert == 0 || d.actions == 0 ==> after == b)
            && (d.alert != 0 && d.actions > 0 ==>
                  after.alerts == if d.alert in b.alerts then b.alerts else b.alerts[d.alert := d.symbol])
            && (d.alert != 0 && d.actions > 1 && key.alert == d.alert && key.user in d.users ==> key in after.notes)
            && (key in after.notes && key !in b.notes ==>
                  key.alert == d.alert && key.user in d.users && after.notes[key].id == d.ids(key.user) && after.notes[key].symbol == d.symbol)
            && (key.alert != d.alert && key in b.notes ==> key in after.notes && after.notes[key] == b.notes[key])
  {
    if d.alert != NIL_ALERT && d.actions > 1 && d.users != [] {
      var created := CreatePending(Upsert(b, d.alert, d.symbol), d.alert, d.symbol, d.users, d.ids);
      CreatePendingAdds(Upsert(b, d.alert, d.symbol), d.alert, d.symbol, d.users, d.ids);
      WalkOfDelivery(b, d, key);
      WalkKeepsAlerts(created, d.alert, PendingOf(created, d.alert, d.users), 0, d.answers, d.actions - 2);
    }
  }

  /** Watchers are tried in the order in which they were found. */
  lemma {:induction false} PendingInOrder(b: Board, alert: int, users: seq<int>, i: nat, j: nat) returns (p: nat, q: nat)
    requires i < j < |PendingOf(b, alert, users)|
    ensures p < q < |users| && users[p] == PendingOf(b, alert, users)[i] && users[q] == PendingOf(b, alert, users)[j]
  {
    var key := Key(users[0], alert);
    var head := if key in b.notes && b.notes[key].status == Pending then 1 else 0;
    if i >= head {
      p, q := PendingInOrder(b, alert, users[1..], i - head, j - head);
      p, q := p + 1, q + 1;
    } else {
      var rest := PendingOf(b, alert, users[1..]);
      PendingOfIs(b, alert, users[1..]);
      assert rest[j - 1] in rest;
      var k :| 0 <= k < |users[1..]| && users[1..][k] == rest[j - 1];
      p, q := 0, k + 1;
    }
  }
}
