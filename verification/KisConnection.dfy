/**
 * The tick stream of one KIS WebSocket: sessions, sequence numbers, the buffer
 * behind the iterator, reconnection and subscription control responses.
 */
module KisConnection {
  import opened Prelude
  import opened SubscriptionPool

  const MAX_RETRIES := 8

  /** A tick as handed out: its content, and its place in its session. Sessions are told apart by their ordinal,
      which stands for the fresh identifier each of them draws. */
  datatype Tick = Tick(content: int, session: nat, sequence: nat)

  /** One record of a data message: too short, not parsable, or a tick. */
  datatype Record = Incomplete | Bad | Good(content: int)

  datatype Response = Response(rtCd: string, sub: Option<Sub>, code: string, message: string)

  /** A message as the handler meets it; `Failing` stands for one whose handling raises before any effect. */
  datatype Message = PingPong | Control(r: Response) | Data(supported: bool, records: seq<Record>) | Ignored | Failing

  /** One reconnect attempt: no new socket, a new session whose subscriptions break off, or success. */
  datatype Attempt = Refused | BrokenOff(sent: set<Sub>) | Connected

  /** What the socket delivers next: a message, or its end, which is answered by attempts to reconnect. */
  datatype Received = Raw(message: Message) | Closed(attempts: seq<Attempt>)

  datatype Round = GoOn | HandOut | GiveUp

  datatype Next = Yielded(tick: Tick) | Stopped | Exhausted | Waiting

  // ----- numbering

  /** The next number of the same session, or the first of a later one. */
  predicate Follows(a: Tick, b: Tick) {
    (b.session == a.session && b.sequence == a.sequence + 1) || (b.session > a.session && b.sequence == 1)
  }

  /** Sessions follow one another, and each is numbered 1, 2, 3, ... without a gap. */
  ghost predicate Numbered(ticks: seq<Tick>) {
    && (ticks != [] ==> ticks[0].sequence == 1)
    && forall i :: 0 < i < |ticks| ==> Follows(ticks[i - 1], ticks[i])
  }

  /** The number reached in `session`, the latest one, after `ticks`. */
  function Reached(ticks: seq<Tick>, session: nat): nat {
    if ticks != [] && ticks[|ticks| - 1].session == session then ticks[|ticks| - 1].sequence else 0
  }

  /** In a numbered history every pair of ticks is in session and sequence order. */
  lemma {:induction false} NumberedIsOrdered(ticks: seq<Tick>, i: nat, j: nat)
    requires Numbered(ticks) && i < j < |ticks|
    ensures ticks[i].session < ticks[j].session || (ticks[i].session == ticks[j].session && ticks[j].sequence == ticks[i].sequence + (j - i))
    decreases j
  {
    assert Follows(ticks[j - 1], ticks[j]);
    if i < j - 1 {
      NumberedIsOrdered(ticks, i, j - 1);
    }
  }

  /** The ticks a data message adds; a record that cannot be parsed ends the message. */
  function NewTicks(records: seq<Record>, supported: bool, session: nat, sequence: nat): seq<Tick> {
    if records == [] || !supported then []
    else match records[0]
      case Incomplete => NewTicks(records[1..], supported, session, sequence)
      case Bad => []
      case Good(content) => [Tick(content, session, sequence + 1)] + NewTicks(records[1..], supported, session, sequence + 1)
  }

  function RecordTicks(record: Record, supported: bool, session: nat, sequence: nat): seq<Tick> {
    if supported && record.Good? then [Tick(record.content, session, sequence + 1)] else []
  }

  lemma NewTicksStep(records: seq<Record>, i: nat, supported: bool, session: nat, sequence: nat)
    requires i < |records|
    ensures var ticks := RecordTicks(records[i], supported, session, sequence);
            NewTicks(records[i..], supported, session, sequence)
            == if supported && records[i].Bad? then [] else ticks + NewTicks(records[i + 1..], supported, session, sequence + |ticks|)
  {
    assert records[i..][1..] == records[i + 1..];
  }

  /** The contents of the complete records before the `n`-th. */
  ghost function Contents(records: seq<Record>, n: nat): seq<int>
    requires n <= |records|
  {
    if n == 0 then [] else Contents(records, n - 1) + if records[n - 1].Good? then [records[n - 1].content] else []
  }

  /** The first record that cannot be parsed, or the end. */
  ghost predicate Breaking(records: seq<Record>, n: int) {
    0 <= n <= |records| && (n < |records| ==> records[n] == Bad) && forall i :: 0 <= i < n ==> records[i] != Bad
  }

  lemma {:induction false} ContentsFrom(records: seq<Record>, n: nat)
    requires records != [] && 0 < n <= |records|
    ensures Contents(records, n) == (if records[0].Good? then [records[0].content] else []) + Contents(records[1..], n - 1)
  {
    if n > 1 {
      ContentsFrom(records, n - 1);
      assert records[1..][n - 2] == records[n - 1];
    }
  }

  /** A supported message gives a tick for each complete record before the first broken one, numbered on in order. */
  lemma {:induction false} NewTicksAre(records: seq<Record>, n: nat, session: nat, sequence: nat)
    requires Breaking(records, n)
    ensures NewTicks(records, false, session, sequence) == []
    ensures var contents, ticks := Contents(records, n), NewTicks(records, true, session, sequence);
            |ticks| == |contents| && forall i :: 0 <= i < |ticks| ==> ticks[i] == Tick(contents[i], session, sequence + 1 + i)
  {
    if n > 0 {
      NewTicksAre(records[1..], n - 1, session, if records[0].Good? then sequence + 1 else sequence);
      ContentsFrom(records, n);
    }
  }

  /** What `now` grows to: before the `i`-th record it lacks the ticks of the rest, after a broken one nothing. */
  ghost function Completed(now: seq<Tick>, records: seq<Record>, i: nat, supported: bool, session: nat, sequence: nat, broke: bool): seq<Tick>
    requires i <= |records|
  {
    if broke then now else now + NewTicks(records[i..], supported, session, sequence)
  }

  lemma OneRecordOn(now: seq<Tick>, records: seq<Record>, i: nat, supported: bool, session: nat, sequence: nat)
    requires i < |records|
    ensures var ticks := RecordTicks(records[i], supported, session, sequence);
            Completed(now + ticks, records, i + 1, supported, session, sequence + |ticks|, supported && records[i].Bad?)
            == Completed(now, records, i, supported, session, sequence, false)
  {
    var ticks := RecordTicks(records[i], supported, session, sequence);
    NewTicksStep(records, i, supported, session, sequence);
    if supported && records[i].Bad? {
      assert now + [] == now;
    } else {
      Regroup(now, ticks, NewTicks(records[i + 1..], supported, session, sequence + |ticks|));
    }
  }

  lemma AllOn(now: seq<Tick>, records: seq<Record>, i: nat, supported: bool, session: nat, sequence: nat, broke: bool)
    requires i <= |records| && (i == |records| || broke)
    ensures Completed(now, records, i, supported, session, sequence, broke) == now
  {
    assert now + [] == now;
  }

  /** A broken record was met among the first `i`, or none. */
  ghost predicate MetBad(records: seq<Record>, i: nat, supported: bool, broke: bool)
    requires i <= |records|
  {
    broke == (supported && Bad in records[..i])
  }

  lemma MetBadStep(records: seq<Record>, i: nat, supported: bool)
    requires i < |records| && MetBad(records, i, supported, false)
    ensures MetBad(records, i + 1, supported, supported && records[i].Bad?)
  {
    assert records[..i + 1] == records[..i] + [records[i]];
  }

  lemma MetBadAll(records: seq<Record>, i: nat, supported: bool, broke: bool)
    requires i <= |records| && MetBad(records, i, supported, broke) && (i == |records| || broke)
    ensures broke == (supported && Bad in records)
  {
    assert records[..|records|] == records;
  }

  lemma Regroup(a: seq<Tick>, b: seq<Tick>, c: seq<Tick>)
    ensures a + b + c == a + (b + c)
  {}

  function TicksOf(m: Message, session: nat, sequence: nat): seq<Tick> {
    match m
    case Data(supported, records) => NewTicks(records, supported, session, sequence)
    case _ => []
  }

  /** The buffer holds exactly what was appended since `before`. */
  ghost predicate Gathered(before: seq<Tick>, appended: seq<Tick>, buffer: seq<Tick>) {
    before <= appended && buffer == appended[|before|..]
  }

  /** Handling the message raises: a record of a supported feed cannot be parsed, or the whole message cannot. */
  predicate Breaks(m: Message) {
    m.Failing? || (m.Data? && m.supported && Bad in m.records)
  }

  /** The message adds a tick, before it breaks or without breaking. */
  predicate LeavesTicks(m: Message) {
    m.Data? && NewTicks(m.records, m.supported, 0, 0) != []
  }

  lemma {:induction false} TicksAnywhere(records: seq<Record>, supported: bool, session: nat, sequence: nat)
    ensures NewTicks(records, supported, session, sequence) == [] <==> NewTicks(records, supported, 0, 0) == []
  {
    if records != [] && supported && records[0].Incomplete? {
      TicksAnywhere(records[1..], supported, session, sequence);
    }
  }

  /** After `handled`, ticks of a broken message wait in the buffer. */
  ghost predicate LeftBehind(handled: seq<Received>) {
    handled != [] &&
    match handled[|handled| - 1]
    case Closed(_) => LeftBehind(handled[..|handled| - 1])
    case Raw(m) => Breaks(m) && (LeavesTicks(m) || LeftBehind(handled[..|handled| - 1]))
  }

  /** Message `k` left ticks, and it and every message since broke. */
  ghost predicate LeftAt(handled: seq<Received>, k: int) {
    && 0 <= k < |handled| && handled[k].Raw? && LeavesTicks(handled[k].message)
    && forall j :: k <= j < |handled| && handled[j].Raw? ==> Breaks(handled[j].message)
  }

  /** Ticks wait exactly when the last messages handled are broken ones that left ticks. */
  lemma {:induction false} LeftBehindIff(handled: seq<Received>)
    ensures LeftBehind(handled) <==> exists k :: LeftAt(handled, k)
  {
    if handled != [] {
      var front, r := handled[..|handled| - 1], handled[|handled| - 1];
      LeftBehindIff(front);
      forall k | LeftAt(front, k) && (r.Closed? || Breaks(r.message)) ensures LeftAt(handled, k) {}
      forall k | LeftAt(handled, k) && k < |front| ensures LeftAt(front, k) {
        forall j | k <= j < |front| && front[j].Raw? ensures Breaks(front[j].message) {
          assert handled[j] == front[j];
        }
      }
      if r.Raw? && Breaks(r.message) && LeavesTicks(r.message) {
        assert LeftAt(handled, |front|);
      }
    }
  }

  /** `r` hands out a tick after `handled`: it does not break, and it or a broken message before left one. */
  ghost predicate HandsOut(handled: seq<Received>, r: Received) {
    r.Raw? && !Breaks(r.message) && (LeavesTicks(r.message) || LeftBehind(handled))
  }

  /** Nothing of `handled` gives the iterator a tick to hand out. */
  ghost predicate Quiet(handled: seq<Received>) {
    handled != [] ==>
      Quiet(handled[..|handled| - 1]) && !HandsOut(handled[..|handled| - 1], handled[|handled| - 1])
  }

  lemma TicksOfLeft(m: Message, session: nat, sequence: nat)
    ensures TicksOf(m, session, sequence) != [] <==> LeavesTicks(m)
  {
    if m.Data? {
      TicksAnywhere(m.records, m.supported, session, sequence);
    }
  }

  /** No attempt of a closed socket's reconnection succeeds. */
  ghost predicate GivesUp(r: Received) {
    r.Closed? && forall k :: 0 <= k < 8 && k < |r.attempts| ==> !r.attempts[k].Connected?
  }

  /** Where a quiet stretch of `handled` leaves the buffer. */
  ghost predicate Waits(handled: seq<Received>, before: seq<Tick>, appended: seq<Tick>, buffer: seq<Tick>) {
    && Gathered(before, appended, buffer) && Quiet(handled)
    && (buffer != [] <==> LeftBehind(handled))
  }

  /** A closed socket changes nothing about a quiet stretch. */
  lemma WaitsClosed(handled: seq<Received>, r: Received, before: seq<Tick>, appended: seq<Tick>, buffer: seq<Tick>)
    requires Waits(handled, before, appended, buffer) && r.Closed?
    ensures Waits(handled + [r], before, appended, buffer)
  {
    assert (handled + [r])[..|handled|] == handled;
  }

  lemma HeadFirst(ticks: seq<Tick>, tick: Tick)
    requires ticks != [] && ticks[0] == tick
    ensures [tick] + ticks[1..] == ticks
  {}

  /** One more message: what it does to a quiet stretch. */
  lemma WaitsSnoc(handled: seq<Received>, r: Received, before: seq<Tick>, appended: seq<Tick>, buffer: seq<Tick>, ticks: seq<Tick>)
    requires Waits(handled, before, appended, buffer) && r.Raw?
    requires ticks != [] <==> LeavesTicks(r.message)
    ensures Gathered(before, appended + ticks, buffer + ticks)
    ensures !HandsOut(handled, r) ==> Waits(handled + [r], before, appended + ticks, buffer + ticks)
    ensures !Breaks(r.message) ==> (HandsOut(handled, r) <==> buffer + ticks != [])
  {
    assert (handled + [r])[..|handled|] == handled;
    assert (appended + ticks)[|before|..] == appended[|before|..] + ticks;
  }

  // ----- control responses

  const SUBSCRIBE_ACK_CODES := {"OPSP0000", "OPSP0002"}
  const UNSUBSCRIBE_ACK_CODES := {"OPSP0001", "OPSP0003"}

  /** Which operation a response acknowledges; `code` and `message` are already stripped and upper-cased. */
  function Classify(r: Response): Option<Operation> {
    if r.code in SUBSCRIBE_ACK_CODES then Some(Subscribe)
    else if r.code in UNSUBSCRIBE_ACK_CODES then Some(Unsubscribe)
    else if r.rtCd != "0" then None
    else if "UNSUBSCRIBE" <= r.message then Some(Unsubscribe)
    else if "SUBSCRIBE" <= r.message then Some(Subscribe)
    else None
  }

  /** The four codes name the operation; without one of them the text of a successful response does, and of a failed one
      nothing does. */
  lemma ClassifyIs(r: Response)
    ensures r.code == "OPSP0000" || r.code == "OPSP0002" ==> Classify(r) == Some(Subscribe)
    ensures r.code == "OPSP0001" || r.code == "OPSP0003" ==> Classify(r) == Some(Unsubscribe)
    ensures r.code != "OPSP0000" && r.code != "OPSP0001" && r.code != "OPSP0002" && r.code != "OPSP0003" ==>
              Classify(r) == if r.rtCd == "0" && "SUBSCRIBE" <= r.message then Some(Subscribe)
                             else if r.rtCd == "0" && "UNSUBSCRIBE" <= r.message then Some(Unsubscribe)
                             else None
  {
    assert "SUBSCRIBE"[0] != "UNSUBSCRIBE"[0];
  }

  /** A response that names no operation confirms the one under way, when the server reports success. */
  function Confirmed(s: Subs, r: Response): Option<Operation> {
    if r.sub.None? then None
    else if Classify(r).Some? then Classify(r)
    else if r.rtCd == "0" && r.sub.value in s.pending then Some(s.pending[r.sub.value])
    else None
  }

  function OnResponse(s: Subs, r: Response): Subs {
    var op := Confirmed(s, r);
    if op.None? then s else Acknowledge(s, r.sub.value, op.value)
  }

  /** A response changes the record of its own subscription, by the operation it names or the one it completes. */
  lemma OnResponseIs(t: Subs, r: Response)
    ensures var named := Classify(r);
            var completed := if r.sub.Some? && r.rtCd == "0" && r.sub.value in t.pending then Some(t.pending[r.sub.value]) else None;
            OnResponse(t, r) ==
              if r.sub.Some? && named.Some? then Acknowledge(t, r.sub.value, named.value)
              else if completed.Some? then Acknowledge(t, r.sub.value, completed.value)
              else t
  {}

  // ----- calls as steps of the subscription state

  /** What the attempts of one reconnection do, up to the first that succeeds. */
  function AttemptSteps(attempts: seq<Attempt>): seq<LinkStep> {
    if attempts == [] then []
    else
      match attempts[0]
      case Refused => AttemptSteps(attempts[1..])
      case BrokenOff(sent) => [BreaksOff(sent)] + AttemptSteps(attempts[1..])
      case Connected => [Reconnects]
  }

  function ResponseSteps(t: Subs, r: Response): seq<LinkStep> {
    if Confirmed(t, r).None? then [] else [Acks(r.sub.value, Confirmed(t, r).value)]
  }

  lemma ResponseIsSteps(t: Subs, r: Response)
    ensures OnResponse(t, r) == RunFrom(t, ResponseSteps(t, r))
  {
    if Confirmed(t, r).Some? {
      assert ResponseSteps(t, r)[1..] == [];
    }
  }

  function AfterAttempt(t: Subs, attempt: Attempt): Subs {
    match attempt
    case Refused => t
    case BrokenOff(sent) => SubsAfter(t, BreaksOff(sent))
    case Connected => SubsAfter(t, Reconnects)
  }

  lemma OneAttempt(t: Subs, attempts: seq<Attempt>, i: nat)
    requires i < MAX_RETRIES <= |attempts|
    ensures var after := AfterAttempt(t, attempts[i]);
            RunFrom(t, AttemptSteps(attempts[i..MAX_RETRIES])) ==
              if attempts[i].Connected? then after else RunFrom(after, AttemptSteps(attempts[i + 1..MAX_RETRIES]))
  {
    assert attempts[i..MAX_RETRIES][1..] == attempts[i + 1..MAX_RETRIES];
    var rest := AttemptSteps(attempts[i + 1..MAX_RETRIES]);
    match attempts[i]
    case Refused =>
    case BrokenOff(sent) => assert ([BreaksOff(sent)] + rest)[1..] == rest;
    case Connected => assert [Reconnects][1..] == [] && RunFrom(SubsAfter(t, Reconnects), []) == SubsAfter(t, Reconnects);
  }

  lemma MessageIsSteps(t: Subs, message: Message)
    ensures RunFrom(t, StepsOf(t, Raw(message))) == if message.Control? then OnResponse(t, message.r) else t
  {
    if message.Control? {
      ResponseIsSteps(t, message.r);
    }
  }

  /** What one delivery of the socket does to the subscriptions. */
  function StepsOf(t: Subs, r: Received): seq<LinkStep> {
    match r
    case Closed(attempts) => if |attempts| >= MAX_RETRIES then AttemptSteps(attempts[..MAX_RETRIES]) else []
    case Raw(message) => if message.Control? then ResponseSteps(t, message.r) else []
  }

  class KISConnectionManager {
    const pool: KISSubscriptionPool
    var session: nat
    var sequence: nat
    var running: bool
    var pending: map<Sub, Operation>
    var buffer: seq<Tick>
    /** History: all ticks ever parsed, those handed out since the last stop, and where that stop fell. */
    ghost var appended: seq<Tick>
    ghost var emitted: seq<Tick>
    ghost var cut: nat
    /** What the server has acknowledged on the current socket. */
    ghost var onSocket: set<Sub>

    ghost predicate Valid()
      reads this, pool
    {
      && pool.Valid()
      && cut <= |appended| && appended[cut..] == emitted + buffer
      && Numbered(appended)
      && (appended != [] ==> appended[|appended| - 1].session <= session)
      && sequence == Reached(appended, session)
    }

    ghost function SubsView(): Subs
      reads this, pool
    {
      Subs(pool.desired, pool.actual, pending, onSocket)
    }

    constructor (pool: KISSubscriptionPool)
      requires pool.Valid()
      ensures Valid() && this.pool == pool && !running && appended == []
    {
      this.pool, session := pool, 0;
      sequence, running, pending, buffer := 0, false, map[], [];
      appended, emitted, cut, onSocket := [], [], 0, {};
    }

    /** A new session starts with its numbering at zero. */
    method NewSession()
      requires Valid()
      modifies this`session, this`sequence
      ensures Valid() && session == old(session) + 1 && sequence == 0
    {
      session, sequence := session + 1, 0;
    }

    /** Ask for every difference between what is wanted and what is recorded as acknowledged. */
    method SubscribeAll()
      modifies this`pending
      ensures pending == old(pending) + Differences(pool.desired, pool.actual)
      ensures old(pending) == map[] ==> pending == Differences(pool.desired, pool.actual)
    {
      pending := pending + Differences(pool.desired, pool.actual);
    }

    /** First connection. The acknowledged set of an earlier socket is kept. */
    method Connect()
      requires Valid()
      modifies this`onSocket, this`pending, this`session, this`sequence, this`running
      ensures Valid() && running && session == old(session) + 1 && sequence == 0
      ensures SubsView() == Requested(pool.desired, pool.actual) == SubsAfter(old(SubsView()), Connects)
    {
      onSocket := {};
      NewSession();
      running := true;
      pending := map[];
      SubscribeAll();
    }

    method Stop()
      requires Valid()
      modifies this
      ensures Valid() && !running && SubsView() == SubsAfter(old(SubsView()), Stops) && buffer == [] && emitted == []
      ensures appended == old(appended) && session == old(session) && sequence == old(sequence)
    {
      running := false;
      pending, buffer := map[], [];
      emitted, cut := [], |appended|;
    }

    /** A reconnected socket: nothing acknowledged, nothing under way, a new session. */
    method NewSocket()
      requires Valid()
      modifies this`onSocket, this`pending, this`session, this`sequence, pool`actual
      ensures Valid() && session == old(session) + 1 && sequence == 0
      ensures SubsView() == Subs(pool.desired, {}, map[], {})
    {
      onSocket := {};
      pool.ClearActual();
      pending := map[];
      NewSession();
    }

    /** One attempt. A new socket starts from no acknowledged subscription. */
    method TryReconnect(attempt: Attempt)
      requires Valid()
      modifies this`onSocket, this`pending, this`session, this`sequence, pool`actual
      ensures Valid() && session == old(session) + (if attempt.Refused? then 0 else 1)
      ensures attempt.Connected? ==> sequence == 0
      ensures SubsView() == AfterAttempt(old(SubsView()), attempt)
    {
      match attempt
      case Refused =>
      case BrokenOff(sent) =>
        NewSocket();
        pending := Restricted(Differences(pool.desired, pool.actual), sent);
      case Connected =>
        NewSocket();
        SubscribeAll();
    }

    /** At most `MAX_RETRIES` attempts, until one succeeds. */
    method Reconnect(attempts: seq<Attempt>) returns (ok: bool)
      requires Valid() && |attempts| >= MAX_RETRIES
      modifies this`onSocket, this`pending, this`session, this`sequence, pool`actual
      ensures Valid() && session >= old(session)
      ensures ok <==> exists k :: 0 <= k < 8 && attempts[k].Connected?
      ensures ok ==> session > old(session) && sequence == 0 && SubsView() == Requested(pool.desired, {})
      ensures SubsView() == RunFrom(old(SubsView()), AttemptSteps(attempts[..8]))
    {
      ghost var goal := RunFrom(SubsView(), AttemptSteps(attempts[..MAX_RETRIES]));
      assert attempts[0..MAX_RETRIES] == attempts[..MAX_RETRIES];
      for i := 0 to MAX_RETRIES
        invariant Valid() && session >= old(session)
        invariant forall k :: 0 <= k < i ==> !attempts[k].Connected?
        invariant RunFrom(SubsView(), AttemptSteps(attempts[i..MAX_RETRIES])) == goal
      {
        OneAttempt(SubsView(), attempts, i);
        TryReconnect(attempts[i]);
        if attempts[i].Connected? {
          return true;
        }
      }
      return false;
    }

    method HandleJsonResponse(r: Response)
      requires Valid()
      modifies this`pending, this`onSocket, pool`actual
      ensures Valid() && SubsView() == OnResponse(old(SubsView()), r)
    {
      if r.sub.None? {
        return;
      }
      var sub := r.sub.value;
      var operation := Classify(r);
      if operation.None? {
        if r.rtCd == "0" && sub in pending {
          operation := Some(pending[sub]);
        } else {
          return;
        }
      }
      pending := pending - {sub};
      if operation.value == Unsubscribe {
        pool.ConfirmUnsubscribed(sub);
        onSocket := onSocket - {sub};
      } else {
        pool.ConfirmSubscribed(sub);
        onSocket := onSocket + {sub};
      }
    }

    /** The ticks of a data message are numbered on from the session's last and appended in order. */
    method HandleDataMessage(supported: bool, records: seq<Record>) returns (broke: bool)
      requires Valid()
      modifies this`sequence, this`buffer, this`appended
      ensures Valid() && broke == (supported && Bad in records)
      ensures appended == old(appended) + NewTicks(records, supported, session, old(sequence))
      ensures buffer == old(buffer) + NewTicks(records, supported, session, old(sequence))
    {
      ghost var allAppended := Completed(appended, records, 0, supported, session, sequence, false);
      ghost var allBuffer := Completed(buffer, records, 0, supported, session, sequence, false);
      assert records[0..] == records;
      broke := false;
      var i := 0;
      while i < |records| && !broke
        invariant Valid() && i <= |records| && MetBad(records, i, supported, broke)
        invariant Completed(appended, records, i, supported, session, sequence, broke) == allAppended
        invariant Completed(buffer, records, i, supported, session, sequence, broke) == allBuffer
        decreases |records| - i
      {
        MetBadStep(records, i, supported);
        broke := HandleRecord(records, i, records[i], supported);
        i := i + 1;
      }
      AllOn(appended, records, i, supported, session, sequence, broke);
      AllOn(buffer, records, i, supported, session, sequence, broke);
      MetBadAll(records, i, supported, broke);
    }

    /** One record: a tick, or passed over, or the end of its message. */
    method HandleRecord(ghost records: seq<Record>, ghost i: nat, record: Record, supported: bool) returns (broke: bool)
      requires Valid() && i < |records| && record == records[i]
      modifies this`sequence, this`buffer, this`appended
      ensures Valid() && broke == (supported && record.Bad?)
      ensures Completed(appended, records, i + 1, supported, session, sequence, broke)
              == Completed(old(appended), records, i, supported, session, old(sequence), false)
      ensures Completed(buffer, records, i + 1, supported, session, sequence, broke)
              == Completed(old(buffer), records, i, supported, session, old(sequence), false)
    {
      OneRecordOn(appended, records, i, supported, session, sequence);
      OneRecordOn(buffer, records, i, supported, session, sequence);
      broke := supported && record.Bad?;
      if record.Good? && supported {
        Append(Tick(record.content, session, sequence + 1));
      } else {
        assert appended + [] == appended && buffer + [] == buffer;
      }
    }

    method Append(tick: Tick)
      requires Valid() && tick.session == session && tick.sequence == sequence + 1
      modifies this`sequence, this`buffer, this`appended
      ensures Valid() && sequence == tick.sequence
      ensures appended == old(appended) + [tick] && buffer == old(buffer) + [tick]
    {
      sequence := sequence + 1;
      buffer, appended := buffer + [tick], appended + [tick];
    }

    /**
     * The next tick: from the buffer, or from what the socket delivers, reconnecting as often as it closes.
     *
     * `handled` counts what was taken from the socket. A message whose handling raises is passed over even when it
     * left ticks, which then wait in the buffer for the next message that does not break.
     */
    method Advance(input: seq<Received>) returns (next: Next, ghost handled: nat)
      requires Valid() && forall i :: 0 <= i < |input| && input[i].Closed? ==> |input[i].attempts| >= MAX_RETRIES
      modifies this`onSocket, this`pending, this`session, this`sequence, this`buffer, this`appended, this`emitted, pool`actual
      ensures Valid() && old(appended) <= appended && handled <= |input|
      ensures emitted == old(emitted) + if next.Yielded? then [next.tick] else []
      ensures old(buffer) != [] ==> next == Yielded(old(buffer)[0]) && appended == old(appended)
      ensures next == Stopped <==> old(buffer) == [] && !running
      ensures next == Stopped ==> handled == 0
      ensures old(buffer) == [] && next.Yielded? ==>
                && handled > 0 && Quiet(input[..handled - 1]) && HandsOut(input[..handled - 1], input[handled - 1])
                && [next.tick] + buffer == appended[|old(appended)|..]
      ensures !next.Yielded? ==> Waits(input[..handled], old(appended), appended, buffer)
      ensures next == Waiting ==> handled == |input|
      ensures next == Exhausted ==> handled > 0
      ensures forall k :: 0 <= k < handled ==> (GivesUp(input[k]) <==> k == handled - 1 && next == Exhausted)
    {
      handled := 0;
      var round := if buffer != [] then HandOut else GoOn;
      next := if running then Waiting else Stopped;
      if buffer == [] && running {
        round, handled := Poll(input);
      }
      ghost var gathered := buffer;
      if round == HandOut {
        var tick := Take();
        next := Yielded(tick);
        HeadFirst(gathered, tick);
      } else if round == GiveUp {
        next := Exhausted;
      }
    }

    /** The loop over what the socket delivers, with an empty buffer at its start. */
    method Poll(input: seq<Received>) returns (round: Round, ghost handled: nat)
      requires Valid() && buffer == [] && forall i :: 0 <= i < |input| && input[i].Closed? ==> |input[i].attempts| >= MAX_RETRIES
      modifies this`onSocket, this`pending, this`session, this`sequence, this`buffer, this`appended, pool`actual
      ensures Valid() && handled <= |input| && Gathered(old(appended), appended, buffer)
      ensures round == HandOut ==>
                buffer != [] && handled > 0 && Quiet(input[..handled - 1]) && HandsOut(input[..handled - 1], input[handled - 1])
      ensures round != HandOut ==> Waits(input[..handled], old(appended), appended, buffer)
      ensures round == GoOn ==> handled == |input|
      ensures forall k :: 0 <= k < handled ==> (GivesUp(input[k]) <==> k == handled - 1 && round == GiveUp)
      ensures round == GiveUp ==> handled > 0
    {
      for i := 0 to |input|
        invariant Valid() && forall k :: 0 <= k < i ==> !GivesUp(input[k])
        invariant Waits(input[..i], old(appended), appended, buffer)
      {
        assert input[..i + 1] == input[..i] + [input[i]];
        round := Receive(input[i], input[..i], old(appended));
        if round != GoOn {
          return round, i + 1;
        }
      }
      return GoOn, |input|;
    }

    /** One round of the loop, after `handled` with nothing handed out. */
    method Receive(r: Received, ghost handled: seq<Received>, ghost before: seq<Tick>) returns (round: Round)
      requires Valid() && (r.Closed? ==> |r.attempts| >= MAX_RETRIES) && Waits(handled, before, appended, buffer)
      modifies this`onSocket, this`pending, this`session, this`sequence, this`buffer, this`appended, pool`actual
      ensures Valid() && Gathered(before, appended, buffer)
      ensures round == HandOut <==> HandsOut(handled, r)
      ensures round == HandOut ==> buffer != []
      ensures round != HandOut ==> Waits(handled + [r], before, appended, buffer)
      ensures round == GiveUp <==> GivesUp(r)
      ensures SubsView() == RunFrom(old(SubsView()), StepsOf(old(SubsView()), r))
    {
      match r {
        case Closed(attempts) =>
          WaitsClosed(handled, r, before, appended, buffer);
          var ok := Reconnect(attempts);
          round := if ok then GoOn else GiveUp;
        case Raw(message) =>
          TicksOfLeft(message, session, sequence);
          MessageIsSteps(SubsView(), message);
          WaitsSnoc(handled, r, before, appended, buffer, TicksOf(message, session, sequence));
          var broke := HandleMessage(message);
          round := if !broke && buffer != [] then HandOut else GoOn;
      }
    }

    /** One message; whatever it left before its handling raised stays. */
    method HandleMessage(message: Message) returns (broke: bool)
      requires Valid()
      modifies this`pending, this`onSocket, this`sequence, this`buffer, this`appended, pool`actual
      ensures Valid() && emitted == old(emitted) && broke == Breaks(message)
      ensures var ticks := TicksOf(message, session, old(sequence));
              buffer == old(buffer) + ticks && appended == old(appended) + ticks
      ensures SubsView() == match message case Control(r) => OnResponse(old(SubsView()), r) case _ => old(SubsView())
    {
      broke := false;
      match message
      case PingPong =>
      case Ignored =>
      case Failing => broke := true;
      case Control(r) => HandleJsonResponse(r);
      case Data(supported, records) =>
        broke := HandleDataMessage(supported, records);
    }

    method Take() returns (tick: Tick)
      requires Valid() && buffer != []
      modifies this`buffer, this`emitted
      ensures Valid() && tick == old(buffer)[0] && buffer == old(buffer)[1..] && emitted == old(emitted) + [tick]
    {
      tick := buffer[0];
      buffer, emitted := buffer[1..], emitted + [tick];
    }
  }

  /** Eight failing attempts. */
  function Unreachable(): seq<Attempt> {
    seq(MAX_RETRIES, _ => Refused)
  }

  lemma BrokenThenUnreachable(input: seq<Received>, content: int)
    requires input == [Raw(Data(true, [Good(content), Bad])), Closed(Unreachable())]
    ensures Breaks(input[0].message) && LeavesTicks(input[0].message)
    ensures LeftBehind(input) && GivesUp(input[1]) && !GivesUp(input[0])
  {
    assert Bad in [Good(content), Bad];
    assert input[..1] == [input[0]];
    assert LeftBehind([input[0]]);
  }

  /** A good record before one that cannot be parsed: the tick is kept back, and running out of attempts
      raises with the tick still in the buffer. */
  method BrokenMessageKeepsItsTick(connection: KISConnectionManager, content: int) returns (next: Next)
    requires connection.Valid() && connection.running && connection.buffer == []
    modifies connection, connection.pool
    ensures next == Exhausted
    ensures connection.buffer != [] && connection.emitted == old(connection.emitted)
  {
    var input := [Raw(Data(true, [Good(content), Bad])), Closed(Unreachable())];
    BrokenThenUnreachable(input, content);
    assert input[..1] == [input[0]] && input[..2] == input;
    ghost var handled;
    next, handled := connection.Advance(input);
  }
}
