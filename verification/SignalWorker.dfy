/**
 * The signal worker: one handler for `signal-requests`.
 *
 * A request is answered in two halves. The first reads without locks, and asks
 * the model. The second locks the move row, checks that the move is still the
 * version that was read, and writes a new signal version with its event.
 */
module SignalWorker {
  import opened Prelude
  import opened ServingSink
  import opened Generation
  import opened SignalStore
  import opened Transport

  const COALESCE_WINDOW := 600_000

  datatype DecisionRow = DecisionRow(moveId: MoveId, moveVersion: int, eventTime: Time, decision: Decision)

  datatype Db = Db(
    moves: map<MoveId, OpenMove>, documents: seq<JudgedDocument>,
    signals: seq<SignalRow>, decisions: seq<DecisionRow>, retries: map<MoveId, Retry>,
    statuses: map<MoveId, Status>, outbox: map<EventId, Event>)

  ghost predicate KeyedMoves(moves: map<MoveId, OpenMove>) {
    forall m :: m in moves ==> moves[m].moveId == m && moves[m].version >= 1
  }

  // ----- the latest move of a symbol

  /** ORDER BY window_end DESC, version DESC; equal pairs are ordered by id. */
  predicate Later(a: OpenMove, b: OpenMove) {
    a.windowEnd > b.windowEnd
    || (a.windowEnd == b.windowEnd && (a.version > b.version || (a.version == b.version && a.moveId >= b.moveId)))
  }

  ghost predicate IsLatest(moves: map<MoveId, OpenMove>, symbol: Symbol, m: MoveId) {
    && m in moves && moves[m].symbol == symbol
    && forall n :: n in moves && moves[n].symbol == symbol ==>
         || moves[n].windowEnd < moves[m].windowEnd
         || (moves[n].windowEnd == moves[m].windowEnd
             && (moves[n].version < moves[m].version || (moves[n].version == moves[m].version && n <= m)))
  }

  ghost predicate LatestMoveIs(moves: map<MoveId, OpenMove>, symbol: Symbol, r: Option<OpenMove>) {
    match r
    case None => forall n :: n in moves ==> moves[n].symbol != symbol
    case Some(move) => IsLatest(moves, symbol, move.moveId) && moves[move.moveId] == move
  }

  method LatestMove(moves: map<MoveId, OpenMove>, symbol: Symbol) returns (r: Option<OpenMove>)
    requires KeyedMoves(moves)
    ensures LatestMoveIs(moves, symbol, r)
  {
    r := None;
    var rest := moves.Keys;
    while rest != {}
      invariant rest <= moves.Keys
      invariant match r
                case None => forall n :: n in moves && n !in rest ==> moves[n].symbol != symbol
                case Some(move) =>
                  && move.moveId in moves && moves[move.moveId] == move && move.symbol == symbol
                  && forall n :: n in moves && n !in rest && moves[n].symbol == symbol ==> Later(move, moves[n])
      decreases rest
    {
      var m :| m in rest;
      rest := rest - {m};
      if moves[m].symbol == symbol && (r.None? || Later(moves[m], r.value)) {
        r := Some(moves[m]);
      }
    }
  }

  lemma LatestMoveIsUnique(moves: map<MoveId, OpenMove>, symbol: Symbol, a: Option<OpenMove>, b: Option<OpenMove>)
    requires KeyedMoves(moves) && LatestMoveIs(moves, symbol, a) && LatestMoveIs(moves, symbol, b)
    ensures a == b
  {}

  // ----- the first half: read, coalesce, collect, hash, generate

  datatype Plan =
    | Ignore
    | Raise
    | Proceed(request: GenerationRequest, stateChange: bool, generated: Generated, hash: InputHash)

  predicate StateChange(q: Request) { q.reason == PriceStateChange }

  /** The latest signal already covers events up to close to the request's time. */
  predicate Covered(latest: Option<SignalRow>, m: OpenMove, at: Time) {
    && latest.Some? && latest.value.moveVersion == m.version && latest.value.asOf.Some?
    && at < latest.value.asOf.value + COALESCE_WINDOW
  }

  function RequestFor(signals: seq<SignalRow>, documents: seq<JudgedDocument>, m: OpenMove, full: Range, q: Request): GenerationRequest {
    var window := Range(full.start, if q.eventTime < full.end then q.eventTime else full.end);
    GenerationRequest(m, CollectCandidates(documents, m, window),
                      if StateChange(q) then None else CurrentOf(signals, m.moveId, m.version), q.eventTime)
  }

  function Prepare(signals: seq<SignalRow>, documents: seq<JudgedDocument>, m: OpenMove, q: Request,
                   answers: seq<Answer>, wording: GeneratedCause -> bool, prompt: string): Plan
  {
    var latest := LatestSignal(signals, m.moveId);
    if !m.enabled then Ignore
    else if m.priceState == Neutral && !StateChange(q) then Ignore
    else if !StateChange(q) && Covered(latest, m, q.eventTime) then Ignore
    else
      match CandidateRange(m)
      case None => Raise
      case Some(full) =>
        var request := RequestFor(signals, documents, m, full, q);
        var hash := HashInput(request, prompt);
        if latest.Some? && latest.value.inputHash == hash then Ignore
        else Proceed(request, StateChange(q),
                     if m.priceState == Neutral then Generated(HIDDEN, None, None)
                     else Generate(answers, request, wording), hash)
  }

  /** The version of a move that no other of its versions exceeds. */
  ghost predicate IsLatestVersion(signals: seq<SignalRow>, m: MoveId, row: SignalRow) {
    row in signals && row.moveId == m && forall x :: x in signals && x.moveId == m ==> x.version <= row.version
  }

  lemma {:induction false} LatestSignalIsLatestVersion(signals: seq<SignalRow>, m: MoveId)
    ensures match LatestSignal(signals, m)
            case None => forall x :: x in signals ==> x.moveId != m
            case Some(row) => IsLatestVersion(signals, m, row)
  {
    if signals != [] {
      LatestSignalIsLatestVersion(signals[..|signals| - 1], m);
      assert signals == signals[..|signals| - 1] + [signals[|signals| - 1]];
    }
  }

  lemma LatestVersionIsUnique(signals: seq<SignalRow>, m: MoveId, a: SignalRow, b: SignalRow)
    requires Numbered(signals) && IsLatestVersion(signals, m, a) && IsLatestVersion(signals, m, b)
    ensures a == b
  {
    var i :| 0 <= i < |signals| && signals[i] == a;
    var j :| 0 <= j < |signals| && signals[j] == b;
    if i < j {
      NumberedIsKeyed(signals, i, j);
    } else if j < i {
      NumberedIsKeyed(signals, j, i);
    }
  }

  /** Documents alone do not call for an answer: the price did not move, or the latest version is fresh. */
  ghost predicate NothingToExplain(signals: seq<SignalRow>, m: OpenMove, q: Request) {
    || m.priceState == Neutral
    || exists row :: IsLatestVersion(signals, m.moveId, row) && row.moveVersion == m.version
                     && row.asOf.Some? && q.eventTime - row.asOf.value < 600_000
  }

  /** The latest version was made from this very move version, these candidates and this prompt. */
  ghost predicate NothingNew(signals: seq<SignalRow>, m: OpenMove, c: CandidateSet, prompt: string) {
    exists row :: IsLatestVersion(signals, m.moveId, row) && row.inputHash == InputHash(m, c, prompt)
  }

  ghost predicate Asks(signals: seq<SignalRow>, m: OpenMove, q: Request) {
    m.enabled && (q.reason == PriceStateChange || !NothingToExplain(signals, m, q))
  }

  /** When a request raises, when the model's answer is taken, and when nothing happens. */
  lemma AnsweredWhen(signals: seq<SignalRow>, documents: seq<JudgedDocument>, m: OpenMove, q: Request,
                     answers: seq<Answer>, wording: GeneratedCause -> bool, prompt: string)
    requires Numbered(signals)
    ensures var p := Prepare(signals, documents, m, q, answers, wording, prompt);
            && (p.Raise? <==> Asks(signals, m, q) && m.moveType != Daily)
            && (p.Proceed? <==>
                  && Asks(signals, m, q) && m.moveType == Daily
                  && !NothingNew(signals, m, RequestFor(signals, documents, m, CandidateRange(m).value, q).candidates, prompt))
  {
    LatestSignalIsLatestVersion(signals, m.moveId);
    var latest := LatestSignal(signals, m.moveId);
    if latest.Some? {
      forall row | IsLatestVersion(signals, m.moveId, row) ensures row == latest.value {
        LatestVersionIsUnique(signals, m.moveId, row, latest.value);
      }
    }
  }

  /** What the model is shown: the documents up to the event time, and the current signal unless the price state changed. */
  lemma RequestIs(signals: seq<SignalRow>, documents: seq<JudgedDocument>, m: OpenMove, q: Request)
    requires m.moveType == Daily
    ensures var end := CandidateRange(m).value.end;
            RequestFor(signals, documents, m, CandidateRange(m).value, q) ==
            GenerationRequest(m, CollectCandidates(documents, m, Range(m.windowStart, if end <= q.eventTime then end else q.eventTime)),
                              if q.reason == PriceStateChange then None else CurrentOf(signals, m.moveId, m.version), q.eventTime)
  {}

  /** The documents published up to a moment. */
  function UpTo(ds: seq<JudgedDocument>, t: Time): seq<JudgedDocument> {
    if ds == [] then [] else (if ds[0].publishedAt <= t then [ds[0]] else []) + UpTo(ds[1..], t)
  }

  lemma {:induction false} MatchingLooksBack(ds: seq<JudgedDocument>, m: OpenMove, window: Range, t: Time)
    requires window.end <= t
    ensures Matching(UpTo(ds, t), m, window) == Matching(ds, m, window)
  {
    if ds != [] {
      MatchingLooksBack(ds[1..], m, window, t);
      var rest := UpTo(ds[1..], t);
      if ds[0].publishedAt <= t {
        assert ([ds[0]] + rest)[1..] == rest;
      } else {
        assert [] + rest == rest;
        assert [] + Matching(ds[1..], m, window) == Matching(ds[1..], m, window);
      }
    }
  }

  /** An answer depends on no document published after the request's event time. */
  lemma PlansLookBack(signals: seq<SignalRow>, documents: seq<JudgedDocument>, documents': seq<JudgedDocument>, m: OpenMove,
                      q: Request, answers: seq<Answer>, wording: GeneratedCause -> bool, prompt: string)
    requires UpTo(documents, q.eventTime) == UpTo(documents', q.eventTime)
    ensures Prepare(signals, documents, m, q, answers, wording, prompt) == Prepare(signals, documents', m, q, answers, wording, prompt)
  {
    if CandidateRange(m).Some? {
      var full := CandidateRange(m).value;
      var window := Range(full.start, if q.eventTime < full.end then q.eventTime else full.end);
      MatchingLooksBack(documents, m, window, q.eventTime);
      MatchingLooksBack(documents', m, window, q.eventTime);
      assert RequestFor(signals, documents, m, full, q) == RequestFor(signals, documents', m, full, q);
    }
  }

  // ----- the second half: lock, re-check, record

  function RowFor(p: Plan, version: int): SignalRow
    requires p.Proceed?
  {
    var d := p.generated.decision;
    SignalRow(p.request.move.moveId, version, p.request.move.version, d.status, d.headlineRank, d.causes,
              p.hash, Some(p.request.eventTime))
  }

  /** The plan ends in a new signal version rather than in a retry, a kept signal or nothing. */
  predicate WritesVersion(p: Plan) {
    p.Proceed? && !p.generated.decision.keep && (LlmFailed(p.generated) ==> p.stateChange)
  }

  function WriteVersion(db: Db, p: Plan, now: Time): Db
    requires p.Proceed?
  {
    var m, d := p.request.move, p.generated.decision;
    var version := NextVersion(db.signals, m.moveId);
    var id := UpdateId(m.moveId, version);
    db.(signals := InsertSignal(db.signals, RowFor(p, version)),
        statuses := db.statuses[m.moveId := d.status],
        retries := if d.status == Shown then ClearRetry(db.retries, m.moveId, m.version) else db.retries,
        outbox := if id in db.outbox then db.outbox
                  else db.outbox[id := UpdateEvent(PublishedUpdate(m, version, p.generated, now))])
  }

  function Finish(db: Db, p: Plan, now: Time): Db {
    if !p.Proceed? then db
    else
      var m := p.request.move;
      if m.moveId !in db.moves || db.moves[m.moveId].version != m.version then db
      else
        var db1 := if LlmFailed(p.generated)
                   then db.(retries := RecordRetry(db.retries, m.moveId, m.version, p.generated.lastError.value, now))
                   else db;
        if LlmFailed(p.generated) && !p.stateChange then db1
        else if WritesVersion(p) then WriteVersion(db1, p, now)
        else db1.(decisions := db1.decisions + [DecisionRow(m.moveId, m.version, p.request.eventTime, p.generated.decision)])
  }

  // ----- what the second half leaves

  /** No step of the model gave a usable answer. */
  ghost predicate Fails(g: Generated) { g.decision.status == Hidden && g.lastError.Some? }

  /** A failure keeps the previous signal unless the price state changed, and a kept signal is kept. */
  ghost predicate GetsVersion(g: Generated, stateChange: bool) {
    !g.decision.keep && (Fails(g) ==> stateChange)
  }

  /** A failure leaves a retry for the later target, at the earlier time, with the new error; a shown version settles the
      retries up to its move version; nothing else changes. */
  ghost predicate RetriesAfter(rs: map<MoveId, Retry>, rs': map<MoveId, Retry>, m: OpenMove, g: Generated, written: bool, now: Time) {
    && (forall n :: n in rs && n != m.moveId ==> n in rs' && rs'[n] == rs[n])
    && (forall n :: n in rs' && n != m.moveId ==> n in rs)
    && if Fails(g) then
         && m.moveId in rs' && rs'[m.moveId].error == g.lastError.value
         && (m.moveId !in rs ==> rs'[m.moveId].target == m.version && rs'[m.moveId].nextAt == now + 30_000)
         && (m.moveId in rs ==> rs'[m.moveId].target == (if rs[m.moveId].target <= m.version then m.version else rs[m.moveId].target)
                                && rs'[m.moveId].nextAt == (if rs[m.moveId].nextAt <= now + 30_000 then rs[m.moveId].nextAt else now + 30_000))
       else if m.moveId in rs && !(written && g.decision.status == Shown && rs[m.moveId].target <= m.version)
       then m.moveId in rs' && rs'[m.moveId] == rs[m.moveId]
       else m.moveId !in rs'
  }

  /** The event of a version: everything readers are to see of it. */
  ghost predicate Announces(u: Update, m: OpenMove, row: SignalRow, decidedBy: Option<string>, now: Time) {
    && (row.status == Shown ==> Ranked(row))
    && u.row == Row(m.symbol, m.symbolName, m.moveId, row.version, m.version, m.windowEnd, row.status,
                    if row.status == Shown then Some(row.causes[row.headlineRank.value - 1].labelText) else None, decidedBy, now)
    && Carries(u.causes, row.causes)
  }

  ghost predicate Ranked(row: SignalRow) {
    && 1 <= |row.causes| <= 3
    && (forall i :: 0 <= i < |row.causes| ==> row.causes[i].rank == i + 1)
    && row.headlineRank.Some? && 1 <= row.headlineRank.value <= |row.causes|
  }

  /** A new version: the next number, what was decided and from what, the move's status, and the event. */
  ghost predicate VersionAdded(db: Db, db': Db, m: OpenMove, g: Generated, hash: InputHash, asOf: Time, now: Time) {
    var d, version := g.decision, |RowsOf(db.signals, m.moveId)| + 1;
    var row := SignalRow(m.moveId, version, m.version, d.status, d.headlineRank, d.causes, hash, Some(asOf));
    var id := UpdateId(m.moveId, version);
    && db'.signals == db.signals + [row] && db'.decisions == db.decisions
    && db'.statuses == db.statuses[m.moveId := d.status]
    && (id in db.outbox ==> db'.outbox == db.outbox)
    && (id !in db.outbox ==>
          && db'.outbox.Keys == db.outbox.Keys + {id} && (forall k :: k in db.outbox ==> db'.outbox[k] == db.outbox[k])
          && db'.outbox[id].UpdateEvent? && Announces(db'.outbox[id].update, m, row, g.decidedBy, now))
  }

  ghost predicate NothingAdded(db: Db, db': Db) {
    db'.signals == db.signals && db'.statuses == db.statuses && db'.outbox == db.outbox
  }

  /** What an answer leaves when the move is still the version that was read. */
  ghost predicate Recorded(db: Db, db': Db, m: OpenMove, g: Generated, stateChange: bool, hash: InputHash, asOf: Time, now: Time) {
    var written := GetsVersion(g, stateChange);
    && db'.moves == db.moves && db'.documents == db.documents
    && RetriesAfter(db.retries, db'.retries, m, g, written, now)
    && (written ==> VersionAdded(db, db', m, g, hash, asOf, now))
    && (!written ==> NothingAdded(db, db')
                     && db'.decisions == db.decisions + if g.decision.keep then [DecisionRow(m.moveId, m.version, asOf, g.decision)] else [])
  }

  lemma RetriesAre(rs: map<MoveId, Retry>, m: OpenMove, g: Generated, written: bool, now: Time)
    ensures var failed := if LlmFailed(g) then RecordRetry(rs, m.moveId, m.version, g.lastError.value, now) else rs;
            var rs' := if written && g.decision.status == Shown then ClearRetry(failed, m.moveId, m.version) else failed;
            RetriesAfter(rs, rs', m, g, written, now)
  {}

  lemma UpdateAnnounces(p: Plan, version: int, now: Time)
    requires p.Proceed? && DecisionSound(p.generated.decision, p.request) && !p.generated.decision.keep
    ensures Announces(PublishedUpdate(p.request.move, version, p.generated, now), p.request.move, RowFor(p, version), p.generated.decidedBy, now)
  {
    var d := p.generated.decision;
    PublishedCausesCarry(d.causes);
    if d.status == Shown {
      HeadlineIs(d.causes, d.headlineRank.value, 1);
    }
  }

  lemma WritingAddsVersion(db: Db, p: Plan, now: Time)
    requires p.Proceed? && DecisionSound(p.generated.decision, p.request) && !p.generated.decision.keep && Numbered(db.signals)
    ensures VersionAdded(db, WriteVersion(db, p, now), p.request.move, p.generated, p.hash, p.request.eventTime, now)
  {
    var version := NextVersion(db.signals, p.request.move.moveId);
    InsertNextKeepsNumbered(db.signals, RowFor(p, version));
    UpdateAnnounces(p, version, now);
  }

  lemma FinishWrites(db: Db, p: Plan, now: Time)
    requires p.Proceed? && DecisionSound(p.generated.decision, p.request) && Numbered(db.signals) && WritesVersion(p)
    requires p.request.move.moveId in db.moves && db.moves[p.request.move.moveId].version == p.request.move.version
    ensures Recorded(db, Finish(db, p, now), p.request.move, p.generated, p.stateChange, p.hash, p.request.eventTime, now)
  {
    var m, g := p.request.move, p.generated;
    var db1 := if LlmFailed(g) then db.(retries := RecordRetry(db.retries, m.moveId, m.version, g.lastError.value, now)) else db;
    RetriesAre(db.retries, m, g, true, now);
    WritingAddsVersion(db1, p, now);
    assert Finish(db, p, now) == WriteVersion(db1, p, now);
  }

  lemma FinishKeeps(db: Db, p: Plan, now: Time)
    requires p.Proceed? && !WritesVersion(p) && DecisionSound(p.generated.decision, p.request)
    requires p.request.move.moveId in db.moves && db.moves[p.request.move.moveId].version == p.request.move.version
    ensures Recorded(db, Finish(db, p, now), p.request.move, p.generated, p.stateChange, p.hash, p.request.eventTime, now)
  {
    RetriesAre(db.retries, p.request.move, p.generated, false, now);
  }

  /** The second half records what it should, and nothing when the move is another version by now. */
  lemma FinishIs(db: Db, p: Plan, now: Time)
    requires p.Proceed? && DecisionSound(p.generated.decision, p.request) && Numbered(db.signals)
    ensures var m, db' := p.request.move, Finish(db, p, now);
            if m.moveId in db.moves && db.moves[m.moveId].version == m.version
            then Recorded(db, db', m, p.generated, p.stateChange, p.hash, p.request.eventTime, now)
            else db' == db
  {
    if p.request.move.moveId in db.moves && db.moves[p.request.move.moveId].version == p.request.move.version {
      if WritesVersion(p) {
        FinishWrites(db, p, now);
      } else {
        FinishKeeps(db, p, now);
      }
    }
  }

  // ----- the handler, one request at a time

  /** What a handler call leaves; the latest move is unique, so this is a function of its inputs. */
  ghost predicate Responds(db: Db, q: Request, answers: seq<Answer>, wording: GeneratedCause -> bool, prompt: string, now: Time, db': Db) {
    exists move :: LatestMoveIs(db.moves, q.symbol, move)
      && db' == match move
                case None => db
                case Some(m) => Finish(db, Prepare(db.signals, db.documents, m, q, answers, wording, prompt), now)
  }

  /** The symbol's latest move calls for an answer and has no rule for its documents. */
  ghost predicate RaisesFor(db: Db, q: Request) {
    exists m :: LatestMoveIs(db.moves, q.symbol, Some(m)) && Asks(db.signals, m, q) && m.moveType != Daily
  }

  lemma RaisedWhen(db: Db, m: OpenMove, q: Request, answers: seq<Answer>, wording: GeneratedCause -> bool, prompt: string)
    requires KeyedMoves(db.moves) && LatestMoveIs(db.moves, q.symbol, Some(m))
    ensures Numbered(db.signals) ==>
              (RaisesFor(db, q) <==> Prepare(db.signals, db.documents, m, q, answers, wording, prompt).Raise?)
  {
    if Numbered(db.signals) {
      AnsweredWhen(db.signals, db.documents, m, q, answers, wording, prompt);
      forall n | LatestMoveIs(db.moves, q.symbol, Some(n)) ensures n == m {
        LatestMoveIsUnique(db.moves, q.symbol, Some(n), Some(m));
      }
    }
  }

  lemma LatestIsHandled(db: Db, q: Request, answers: seq<Answer>, wording: GeneratedCause -> bool, prompt: string, now: Time, db': Db)
    requires KeyedMoves(db.moves) && Responds(db, q, answers, wording, prompt, now, db')
    ensures LatestMoveIs(db.moves, q.symbol, None) ==> db' == db
    ensures Numbered(db.signals) && AnswersValid(answers) ==> forall m :: LatestMoveIs(db.moves, q.symbol, Some(m)) ==>
              HandledAs(db, m, q, answers, wording, prompt, now, db')
  {
    if Numbered(db.signals) && AnswersValid(answers) {
      forall m | LatestMoveIs(db.moves, q.symbol, Some(m)) ensures HandledAs(db, m, q, answers, wording, prompt, now, db') {
        RequestIsHandled(db, q, answers, wording, prompt, now, db', m);
      }
    }
    if LatestMoveIs(db.moves, q.symbol, None) {
      var move :| LatestMoveIs(db.moves, q.symbol, move)
        && db' == match move
                  case None => db
                  case Some(m) => Finish(db, Prepare(db.signals, db.documents, m, q, answers, wording, prompt), now);
      LatestMoveIsUnique(db.moves, q.symbol, move, None);
    }
  }

  class SignalDatabase {
    var moves: map<MoveId, OpenMove>
    var documents: seq<JudgedDocument>
    var signals: seq<SignalRow>
    var decisions: seq<DecisionRow>
    var retries: map<MoveId, Retry>
    var statuses: map<MoveId, Status>
    var outbox: map<EventId, Event>

    constructor (moves: map<MoveId, OpenMove>, documents: seq<JudgedDocument>)
      ensures View() == Db(moves, documents, [], [], map[], map[], map[])
    {
      this.moves, this.documents, signals, decisions := moves, documents, [], [];
      retries, statuses, outbox := map[], map[], map[];
    }

    ghost function View(): Db
      reads this
    {
      Db(moves, documents, signals, decisions, retries, statuses, outbox)
    }

    /** The unlocked half. Early returns leave the request unanswered. */
    method Answer(m: OpenMove, q: Request, answers: seq<Answer>, wording: GeneratedCause -> bool, prompt: string)
      returns (plan: Plan)
      ensures plan == Prepare(signals, documents, m, q, answers, wording, prompt)
    {
      if !m.enabled {
        return Ignore;
      }
      var neutral := m.priceState == Neutral;
      if neutral && !StateChange(q) {
        return Ignore;
      }
      var latest := LatestSignal(signals, m.moveId);
      if !StateChange(q) && latest.Some? && latest.value.moveVersion == m.version && latest.value.asOf.Some?
         && q.eventTime < latest.value.asOf.value + COALESCE_WINDOW {
        return Ignore;
      }
      var full := CandidateRange(m);
      if full.None? {
        return Raise;
      }
      var request := RequestFor(signals, documents, m, full.value, q);
      var hash := HashInput(request, prompt);
      if latest.Some? && latest.value.inputHash == hash {
        return Ignore;
      }
      var generated := if neutral then Generated(HIDDEN, None, None) else Generate(answers, request, wording);
      return Proceed(request, StateChange(q), generated, hash);
    }

    /** The half under the move row lock. */
    method Record(p: Plan, now: Time)
      requires p.Proceed?
      modifies this
      ensures View() == Finish(old(View()), p, now)
    {
      var m, generated := p.request.move, p.generated;
      if m.moveId !in moves || moves[m.moveId].version != m.version {
        return;
      }
      if LlmFailed(generated) {
        retries := RecordRetry(retries, m.moveId, m.version, generated.lastError.value, now);
        if !p.stateChange {
          return;
        }
      }
      if generated.decision.keep {
        decisions := decisions + [DecisionRow(m.moveId, m.version, p.request.eventTime, generated.decision)];
        return;
      }
      WriteNext(p, now);
    }

    /** A new version, the move's status, the cleared retry and the event. */
    method WriteNext(p: Plan, now: Time)
      requires p.Proceed?
      modifies this
      ensures View() == WriteVersion(old(View()), p, now)
    {
      var m, d := p.request.move, p.generated.decision;
      var version := NextVersion(signals, m.moveId);
      signals := InsertSignal(signals, RowFor(p, version));
      statuses := statuses[m.moveId := d.status];
      if d.status == Shown {
        retries := ClearRetry(retries, m.moveId, m.version);
      }
      var id := UpdateId(m.moveId, version);
      if id !in outbox {
        outbox := outbox[id := UpdateEvent(PublishedUpdate(m, version, p.generated, now))];
      }
    }

    /** One transaction. `raised` stands for the exception of a move without a range rule. */
    method Handle(q: Request, answers: seq<Answer>, wording: GeneratedCause -> bool, prompt: string, now: Time)
      returns (raised: bool)
      requires KeyedMoves(moves)
      modifies this
      ensures Responds(old(View()), q, answers, wording, prompt, now, View())
      ensures raised ==> View() == old(View())
      ensures Numbered(old(signals)) ==> (raised <==> RaisesFor(old(View()), q))
      ensures LatestMoveIs(old(moves), q.symbol, None) ==> View() == old(View())
      ensures Numbered(old(signals)) && AnswersValid(answers) ==> forall m :: LatestMoveIs(old(moves), q.symbol, Some(m)) ==>
                HandledAs(old(View()), m, q, answers, wording, prompt, now, View())
    {
      var found := LatestMove(moves, q.symbol);
      if found.None? {
        return false;
      }
      var plan := Answer(found.value, q, answers, wording, prompt);
      RaisedWhen(View(), found.value, q, answers, wording, prompt);
      if plan.Proceed? {
        Record(plan, now);
      }
      LatestIsHandled(old(View()), q, answers, wording, prompt, now, View());
      return plan.Raise?;
    }
  }

  // ----- what one answered request guarantees

  lemma {:induction false} RunStepsIsSound(answers: seq<Answer>, r: GenerationRequest, wording: GeneratedCause -> bool, e: Option<ErrorKind>)
    requires AnswersValid(answers) && UniqueRefs(r.candidates)
    ensures DecisionSound(RunSteps(answers, r, wording, e).decision, r)
  {
    if answers != [] {
      if answers[0].Answered? {
        DecideIsSound(answers[0].output, r, wording);
      }
      var rest := answers[1..];
      assert forall i :: 0 <= i < |rest| ==> rest[i] == answers[i + 1];
      RunStepsIsSound(rest, r, wording, if answers[0].ModelError? then Some(answers[0].kind) else Some(SCHEMA));
    }
  }

  lemma NumberedRefsAreUnique(cs: CandidateSet)
    requires cs.events == [] && forall i :: 0 <= i < |cs.documents| ==> cs.documents[i].ref == DocumentRef(i + 1)
    ensures UniqueRefs(cs)
  {
    assert cs.All() == cs.documents;
    forall x, y | x in cs.All() && y in cs.All() && x.ref == y.ref ensures x == y {
      var i :| 0 <= i < |cs.documents| && cs.documents[i] == x;
      var j :| 0 <= j < |cs.documents| && cs.documents[j] == y;
    }
  }

  lemma CollectedRefsAreUnique(documents: seq<JudgedDocument>, m: OpenMove, window: Range)
    ensures UniqueRefs(CollectCandidates(documents, m, window))
  {
    NumberedRefsAreUnique(CollectCandidates(documents, m, window));
  }

  ghost predicate CausesWithin(causes: seq<GeneratedCause>, start: Time, end: Time) {
    forall c, s :: c in causes && s in c.sources ==> s.sourceType == Document && start <= s.publishedAt <= end
  }

  /** A plan's decision is grounded in the documents of its window and sound for its request. */
  lemma PlansAreGrounded(signals: seq<SignalRow>, documents: seq<JudgedDocument>, m: OpenMove, q: Request,
                         answers: seq<Answer>, wording: GeneratedCause -> bool, prompt: string)
    requires AnswersValid(answers)
    ensures var p := Prepare(signals, documents, m, q, answers, wording, prompt);
            p.Proceed? ==>
              && p.request.move == m && p.request.eventTime == q.eventTime
              && DecisionSound(p.generated.decision, p.request)
              && CausesWithin(p.generated.decision.causes, CandidateRange(m).value.start, q.eventTime)
              && (forall c :: c in p.generated.decision.causes ==> CitesDocument(c))
  {
    var p := Prepare(signals, documents, m, q, answers, wording, prompt);
    if p.Proceed? {
      var full := CandidateRange(m).value;
      var window := Range(full.start, if q.eventTime < full.end then q.eventTime else full.end);
      CollectedRefsAreUnique(documents, m, window);
      RunStepsIsSound(answers, p.request, wording, None);
      CandidatesAreMatches(documents, m, window);
      SoundDecisionsAreWithin(p.generated.decision, p.request, documents, window);
    }
  }

  lemma SoundDecisionsAreWithin(d: Decision, r: GenerationRequest, documents: seq<JudgedDocument>, window: Range)
    requires DecisionSound(d, r) && SoundCandidates(r.candidates, documents, r.move, window)
    ensures CausesWithin(d.causes, window.start, window.end)
    ensures forall c :: c in d.causes ==> CitesDocument(c)
  {
    forall c, s | c in d.causes && s in c.sources
      ensures s.sourceType == Document && window.start <= s.publishedAt <= window.end
    {
      assert s in r.candidates.All();
      var i :| 0 <= i < |r.candidates.documents| && r.candidates.documents[i] == s;
      assert IsCandidateOf(s, i, documents, r.move, window);
    }
    forall c | c in d.causes ensures CitesDocument(c) {
      assert c.sources[0] in c.sources;
    }
  }

  // ----- what a plan carries over to the second half

  ghost predicate CitesAmong(causes: seq<GeneratedCause>, cs: CandidateSet) {
    forall c, s :: c in causes && s in c.sources ==> s in cs.All()
  }

  ghost predicate PublishedBy(cs: CandidateSet, t: Time) {
    forall c :: c in cs.All() ==> c.publishedAt <= t
  }

  /** The plan stands on its input: sound, hashed, and with sources from the move's start to the event time. */
  ghost predicate PlanFits(p: Plan, prompt: string) {
    && p.Proceed? && DecisionSound(p.generated.decision, p.request) && p.hash == HashInput(p.request, prompt)
    && CausesWithin(p.generated.decision.causes, p.request.move.windowStart, p.request.eventTime)
    && (forall c :: c in p.generated.decision.causes ==> CitesDocument(c))
    && UniqueRefs(p.request.candidates) && PublishedBy(p.request.candidates, p.request.eventTime)
  }

  /** What was true of the ledger when the plan was made from it. */
  ghost predicate MadeFrom(signals: seq<SignalRow>, p: Plan)
    requires p.Proceed?
  {
    var m, latest := p.request.move, LatestSignal(signals, p.request.move.moveId);
    && (latest.Some? ==> latest.value.inputHash != p.hash)
    && p.request.current == (if p.stateChange then None else CurrentOf(signals, m.moveId, m.version))
    && (!p.stateChange ==> !Covered(latest, m, p.request.eventTime))
  }

  lemma PlanIsMadeFrom(signals: seq<SignalRow>, documents: seq<JudgedDocument>, m: OpenMove, q: Request,
                       answers: seq<Answer>, wording: GeneratedCause -> bool, prompt: string)
    ensures var p := Prepare(signals, documents, m, q, answers, wording, prompt);
            p.Proceed? ==> MadeFrom(signals, p) && p.request.move == m && p.stateChange == StateChange(q)
  {}

  lemma PreparedPlanFits(signals: seq<SignalRow>, documents: seq<JudgedDocument>, m: OpenMove, q: Request,
                         answers: seq<Answer>, wording: GeneratedCause -> bool, prompt: string)
    requires AnswersValid(answers)
    ensures var p := Prepare(signals, documents, m, q, answers, wording, prompt);
            p.Proceed? ==> PlanFits(p, prompt) && MadeFrom(signals, p) && p.request.move == m
  {
    var p := Prepare(signals, documents, m, q, answers, wording, prompt);
    if p.Proceed? {
      PlanIsMadeFrom(signals, documents, m, q, answers, wording, prompt);
      PlansAreGrounded(signals, documents, m, q, answers, wording, prompt);
      var full := CandidateRange(m).value;
      var window := Range(full.start, if q.eventTime < full.end then q.eventTime else full.end);
      CollectedRefsAreUnique(documents, m, window);
      CandidatesAreMatches(documents, m, window);
      SoundCandidatesArePublished(p.request.candidates, documents, m, window);
    }
  }

  lemma SoundCandidatesArePublished(cs: CandidateSet, documents: seq<JudgedDocument>, m: OpenMove, window: Range)
    requires SoundCandidates(cs, documents, m, window)
    ensures PublishedBy(cs, window.end)
  {
    forall c | c in cs.All() ensures c.publishedAt <= window.end {
      var i :| 0 <= i < |cs.documents| && cs.documents[i] == c;
      assert IsCandidateOf(c, i, documents, m, window);
    }
  }

  /** A stored version rests on the input it was made from: its move version, the candidates it was shown, and
      documents from the move's start to its own event time. */
  ghost predicate Grounded(row: SignalRow) {
    && row.inputHash.move.moveId == row.moveId && row.inputHash.move.version == row.moveVersion && row.asOf.Some?
    && CitesAmong(row.causes, row.inputHash.candidates)
    && CausesWithin(row.causes, row.inputHash.move.windowStart, row.asOf.value)
    && (forall c :: c in row.causes ==> CitesDocument(c))
    && if row.status == Shown then Ranked(row)
       else row.causes == [] && row.headlineRank == None && !row.status.Unrecognised?
  }

  lemma FittingPlanIsGrounded(p: Plan, version: int, prompt: string)
    requires PlanFits(p, prompt) && WritesVersion(p)
    ensures Grounded(RowFor(p, version))
  {}

  // ----- one request, told without the handler

  /** What the model comes to; a neutral move is hidden without asking. */
  ghost function Outcome(signals: seq<SignalRow>, documents: seq<JudgedDocument>, m: OpenMove, q: Request,
                         answers: seq<Answer>, wording: GeneratedCause -> bool): Generated
    requires m.moveType == Daily
  {
    if m.priceState == Neutral then Generated(Decision(Hidden, None, [], None, false, "", false), None, None)
    else Generate(answers, RequestFor(signals, documents, m, CandidateRange(m).value, q), wording)
  }

  /** The request asks, the move has a rule for its documents, and something is new since the latest version. */
  ghost predicate GoesAhead(db: Db, m: OpenMove, q: Request, prompt: string) {
    && Asks(db.signals, m, q) && m.moveType == Daily
    && !NothingNew(db.signals, m, RequestFor(db.signals, db.documents, m, CandidateRange(m).value, q).candidates, prompt)
  }

  /** A request that goes ahead leaves what its outcome calls for, and any other leaves nothing. */
  ghost predicate HandledAs(db: Db, m: OpenMove, q: Request, answers: seq<Answer>, wording: GeneratedCause -> bool,
                            prompt: string, now: Time, db': Db) {
    if GoesAhead(db, m, q, prompt) then
      var candidates := RequestFor(db.signals, db.documents, m, CandidateRange(m).value, q).candidates;
      Recorded(db, db', m, Outcome(db.signals, db.documents, m, q, answers, wording), q.reason == PriceStateChange,
               InputHash(m, candidates, prompt), q.eventTime, now)
    else db' == db
  }

  lemma PlanIsOutcome(signals: seq<SignalRow>, documents: seq<JudgedDocument>, m: OpenMove, q: Request,
                      answers: seq<Answer>, wording: GeneratedCause -> bool, prompt: string)
    ensures var p := Prepare(signals, documents, m, q, answers, wording, prompt);
            p.Proceed? ==>
              && m.enabled && m.moveType == Daily && p.stateChange == (q.reason == PriceStateChange)
              && p.request == RequestFor(signals, documents, m, CandidateRange(m).value, q) && p.request.move == m
              && p.request.eventTime == q.eventTime
              && p.generated == Outcome(signals, documents, m, q, answers, wording)
              && p.hash == InputHash(m, p.request.candidates, prompt)
  {}

  lemma RequestIsHandled(db: Db, q: Request, answers: seq<Answer>, wording: GeneratedCause -> bool, prompt: string, now: Time,
                         db': Db, m: OpenMove)
    requires KeyedMoves(db.moves) && Numbered(db.signals) && AnswersValid(answers)
    requires Responds(db, q, answers, wording, prompt, now, db') && LatestMoveIs(db.moves, q.symbol, Some(m))
    ensures HandledAs(db, m, q, answers, wording, prompt, now, db')
  {
    var p := Prepare(db.signals, db.documents, m, q, answers, wording, prompt);
    ResponseIs(db, q, answers, wording, prompt, now, db', m);
    AnsweredWhen(db.signals, db.documents, m, q, answers, wording, prompt);
    if p.Proceed? {
      PlanIsOutcome(db.signals, db.documents, m, q, answers, wording, prompt);
      PlansAreGrounded(db.signals, db.documents, m, q, answers, wording, prompt);
      FinishIs(db, p, now);
    }
  }

  /** A version is written exactly when the request goes ahead and its outcome is neither kept nor a failure that no
      state change asked for. */
  lemma WritesWhen(db: Db, q: Request, answers: seq<Answer>, wording: GeneratedCause -> bool, prompt: string, now: Time,
                   db': Db, m: OpenMove)
    requires KeyedMoves(db.moves) && Numbered(db.signals) && AnswersValid(answers)
    requires Responds(db, q, answers, wording, prompt, now, db') && LatestMoveIs(db.moves, q.symbol, Some(m))
    ensures Wrote(db, db') <==>
              GoesAhead(db, m, q, prompt)
              && GetsVersion(Outcome(db.signals, db.documents, m, q, answers, wording), q.reason == PriceStateChange)
  {
    RequestIsHandled(db, q, answers, wording, prompt, now, db', m);
    assert forall row :: db.signals + [row] != db.signals;
  }

  /** The version a handler call wrote, if it wrote one. */
  ghost predicate Wrote(db: Db, db': Db) { db'.signals != db.signals }

  lemma WrittenRow(db: Db, q: Request, answers: seq<Answer>, wording: GeneratedCause -> bool, prompt: string, now: Time, db': Db)
    returns (m: OpenMove, p: Plan)
    requires KeyedMoves(db.moves) && Numbered(db.signals)
    requires Responds(db, q, answers, wording, prompt, now, db') && Wrote(db, db')
    ensures LatestMoveIs(db.moves, q.symbol, Some(m))
    ensures p == Prepare(db.signals, db.documents, m, q, answers, wording, prompt) && WritesVersion(p)
    ensures db'.signals == db.signals + [RowFor(p, NextVersion(db.signals, m.moveId))]
    ensures db'.moves == db.moves && db'.documents == db.documents
    ensures p.request.move == m && p.request.eventTime == q.eventTime
    ensures var id := UpdateId(m.moveId, NextVersion(db.signals, m.moveId));
            id !in db.outbox ==> db'.outbox == db.outbox[id := UpdateEvent(PublishedUpdate(m, id.version, p.generated, now))]
  {
    var found :| LatestMoveIs(db.moves, q.symbol, found)
      && db' == match found
                case None => db
                case Some(m) => Finish(db, Prepare(db.signals, db.documents, m, q, answers, wording, prompt), now);
    m := found.value;
    p := Prepare(db.signals, db.documents, m, q, answers, wording, prompt);
    InsertNextKeepsNumbered(db.signals, RowFor(p, NextVersion(db.signals, m.moveId)));
  }

  /** Every written version is grounded, ranked, newer than what it rewrites, and fully served. */
  lemma WrittenSignalsAreGrounded(db: Db, q: Request, answers: seq<Answer>, wording: GeneratedCause -> bool, prompt: string, now: Time, db': Db)
    requires KeyedMoves(db.moves) && Numbered(db.signals) && AnswersValid(answers)
    requires Responds(db, q, answers, wording, prompt, now, db') && Wrote(db, db')
    ensures |db'.signals| == |db.signals| + 1
    ensures var row := db'.signals[|db.signals|];
            && row.moveId in db.moves
            && CausesWithin(row.causes, db.moves[row.moveId].windowStart, q.eventTime)
            && (row.status == Shown ==>
                  && 1 <= |row.causes| <= 3
                  && (forall i :: 0 <= i < |row.causes| ==> row.causes[i].rank == i + 1)
                  && row.headlineRank.Some? && 1 <= row.headlineRank.value <= |row.causes|)
            && (row.status == Shown && !StateChange(q) ==>
                  var shown := LatestShown(db.signals, row.moveId, row.moveVersion);
                  shown.Some? && shown.value.causes != [] ==>
                    shown.value.asOf.Some?
                    && exists c, s :: c in row.causes && s in c.sources && s.publishedAt > shown.value.asOf.value)
  {
    var m, p := WrittenRow(db, q, answers, wording, prompt, now, db');
    PlansAreGrounded(db.signals, db.documents, m, q, answers, wording, prompt);
    var row := db'.signals[|db.signals|];
    assert DecisionSound(p.generated.decision, p.request);
    if row.status == Shown && !StateChange(q) && p.request.current.Some? {
      assert AllowKeep(p.request);
      var c, s :| c in row.causes && s in c.sources && s in p.request.candidates.All() && IsNew(s, p.request);
    }
  }

  /** The event published with a version carries every cause to the reader unchanged. */
  lemma WrittenCausesAreServed(db: Db, q: Request, answers: seq<Answer>, wording: GeneratedCause -> bool, prompt: string, now: Time, db': Db)
    requires KeyedMoves(db.moves) && Numbered(db.signals) && AnswersValid(answers)
    requires Responds(db, q, answers, wording, prompt, now, db') && Wrote(db, db')
    requires forall m, v :: UpdateId(m, v) in db.outbox ==> exists i :: 0 <= i < |db.signals| && db.signals[i].moveId == m && db.signals[i].version == v
    ensures |db'.signals| == |db.signals| + 1
    ensures var row := db'.signals[|db.signals|];
            var id := UpdateId(row.moveId, row.version);
            id in db'.outbox && db'.outbox[id].UpdateEvent? && IsServedAs(db'.outbox[id].update, row)
  {
    var m, p := WrittenRow(db, q, answers, wording, prompt, now, db');
    PlansAreGrounded(db.signals, db.documents, m, q, answers, wording, prompt);
    var version := NextVersion(db.signals, m.moveId);
    InsertNextKeepsNumbered(db.signals, RowFor(p, version));
    assert UpdateId(m.moveId, version) !in db.outbox by {
      NewVersionIsUnused(db.signals, m.moveId);
    }
    PublishedIsServed(p, version, now);
  }

  /** The update is the version's, violates no constraint, and passes the sink's filter with every cause. */
  ghost predicate IsServedAs(u: Update, row: SignalRow) {
    && Storable(u) && (u.row.moveId, u.row.version) == (row.moveId, row.version)
    && u.row.moveVersion == row.moveVersion && u.row.status == row.status
    && Carries(u.causes, row.causes) && ServedCauses(u) == u.causes
    && (row.status == Shown ==> Ranked(row) && u.row.headline == Some(row.causes[row.headlineRank.value - 1].labelText))
  }

  lemma PublishedIsServed(p: Plan, version: int, now: Time)
    requires p.Proceed? && DecisionSound(p.generated.decision, p.request) && !p.generated.decision.keep
    requires version >= 1 && p.request.move.version >= 1
    requires forall c :: c in p.generated.decision.causes ==> CitesDocument(c)
    ensures IsServedAs(PublishedUpdate(p.request.move, version, p.generated, now), RowFor(p, version))
  {
    PublishedUpdateIsStorable(p.request.move, version, p.generated, now, p.request);
    UpdateAnnounces(p, version, now);
    if p.generated.decision.status == Shown {
      PublishedCausesSurviveIff(p.request.move, version, p.generated, now);
    }
  }

  lemma NewVersionIsUnused(signals: seq<SignalRow>, m: MoveId)
    requires Numbered(signals)
    ensures forall i :: 0 <= i < |signals| && signals[i].moveId == m ==> signals[i].version < NextVersion(signals, m)
  {
    LatestIsLastOfMove(signals, m);
    forall i | 0 <= i < |signals| && signals[i].moveId == m ensures signals[i].version < NextVersion(signals, m) {
      EveryRowIsAmongItsMove(signals, i);
    }
  }

  /** The response to a request with a latest move. */
  lemma ResponseIs(db: Db, q: Request, answers: seq<Answer>, wording: GeneratedCause -> bool, prompt: string, now: Time, db': Db, m: OpenMove)
    requires KeyedMoves(db.moves) && Responds(db, q, answers, wording, prompt, now, db') && LatestMoveIs(db.moves, q.symbol, Some(m))
    ensures db' == Finish(db, Prepare(db.signals, db.documents, m, q, answers, wording, prompt), now)
  {
    var found :| LatestMoveIs(db.moves, q.symbol, found)
      && db' == match found
                case None => db
                case Some(m) => Finish(db, Prepare(db.signals, db.documents, m, q, answers, wording, prompt), now);
    LatestMoveIsUnique(db.moves, q.symbol, found, Some(m));
  }

  /** A state change of an enabled daily move always gets a version, whatever the model answers or fails to,
      unless the latest one was made from the same input; for a neutral move the version is hidden. */
  lemma StateChangesAreAnswered(db: Db, q: Request, answers: seq<Answer>, wording: GeneratedCause -> bool, prompt: string, now: Time,
                                db': Db, m: OpenMove)
    requires KeyedMoves(db.moves) && Numbered(db.signals) && AnswersValid(answers)
    requires Responds(db, q, answers, wording, prompt, now, db')
    requires StateChange(q) && LatestMoveIs(db.moves, q.symbol, Some(m)) && m.enabled && CandidateRange(m).Some?
    ensures var latest := LatestSignal(db.signals, m.moveId);
            var hash := HashInput(RequestFor(db.signals, db.documents, m, CandidateRange(m).value, q), prompt);
            Wrote(db, db') <==> latest.None? || latest.value.inputHash != hash
    ensures Wrote(db, db') && m.priceState == Neutral ==> |db'.signals| > 0 && db'.signals[|db'.signals| - 1].status == Hidden
  {
    ResponseIs(db, q, answers, wording, prompt, now, db', m);
    var p := Prepare(db.signals, db.documents, m, q, answers, wording, prompt);
    if p.Proceed? {
      PlansAreGrounded(db.signals, db.documents, m, q, answers, wording, prompt);
      assert !AllowKeep(p.request) && WritesVersion(p);
      InsertNextKeepsNumbered(db.signals, RowFor(p, NextVersion(db.signals, m.moveId)));
    }
  }

  /** With the version just written in the ledger, the same request is covered or has the same input. */
  lemma AnsweredRequestIsIgnored(signals: seq<SignalRow>, documents: seq<JudgedDocument>, m: OpenMove, q: Request,
                                 answers: seq<Answer>, answers': seq<Answer>, wording: GeneratedCause -> bool, prompt: string, row: SignalRow)
    requires var p := Prepare(signals, documents, m, q, answers, wording, prompt);
             p.Proceed? && row == RowFor(p, row.version) && row.version == NextVersion(signals, m.moveId)
    requires Numbered(signals)
    ensures Prepare(signals + [row], documents, m, q, answers', wording, prompt) == Ignore
  {
    assert (signals + [row])[..|signals|] == signals;
    assert LatestSignal(signals + [row], m.moveId) == Some(row);
  }

  /** Handling a request again right after it wrote a version writes nothing, whatever the model says. */
  lemma RedeliveryWritesNothing(db: Db, q: Request, answers: seq<Answer>, wording: GeneratedCause -> bool, prompt: string, now: Time,
                                db': Db, answers': seq<Answer>, now': Time, db'': Db)
    requires KeyedMoves(db.moves) && Numbered(db.signals)
    requires Responds(db, q, answers, wording, prompt, now, db') && Wrote(db, db')
    requires Responds(db', q, answers', wording, prompt, now', db'')
    ensures db'' == db'
  {
    var m, p := WrittenRow(db, q, answers, wording, prompt, now, db');
    ResponseIs(db', q, answers', wording, prompt, now', db'', m);
    AnsweredRequestIsIgnored(db.signals, db.documents, m, q, answers, answers', wording, prompt, RowFor(p, NextVersion(db.signals, m.moveId)));
  }

  // ----- whole serial runs

  /** What happens to the database: requests of this worker, and changes by everybody else. */
  datatype Input =
    | Handled(q: Request, answers: seq<Answer>, now: Time)
    | Changed(moves: map<MoveId, OpenMove>, documents: seq<JudgedDocument>, outbox: map<EventId, Event>)

  ghost predicate StepTo(db: Db, i: Input, wording: GeneratedCause -> bool, prompt: string, db': Db) {
    match i
    case Handled(q, answers, now) => Responds(db, q, answers, wording, prompt, now, db')
    case Changed(moves, documents, outbox) =>
      KeyedMoves(moves) && db' == db.(moves := moves, documents := documents, outbox := outbox)
  }

  /** `dbs` is a run from an empty ledger; `inputs[i]` leads from `dbs[i]` to `dbs[i + 1]`. */
  ghost predicate Run(dbs: seq<Db>, inputs: seq<Input>, wording: GeneratedCause -> bool, prompt: string) {
    && |dbs| == |inputs| + 1 && dbs[0].signals == [] && KeyedMoves(dbs[0].moves)
    && forall i :: 0 <= i < |inputs| ==> StepTo(dbs[i], inputs[i], wording, prompt, dbs[i + 1])
  }

  lemma {:induction false} RunsStayNumbered(dbs: seq<Db>, inputs: seq<Input>, wording: GeneratedCause -> bool, prompt: string, k: nat)
    requires Run(dbs, inputs, wording, prompt) && k < |dbs|
    ensures Numbered(dbs[k].signals) && KeyedMoves(dbs[k].moves)
    ensures k > 0 ==> dbs[k - 1].signals <= dbs[k].signals
  {
    if k > 0 {
      RunsStayNumbered(dbs, inputs, wording, prompt, k - 1);
      assert StepTo(dbs[k - 1], inputs[k - 1], wording, prompt, dbs[k]);
      if inputs[k - 1].Handled? {
        StepStaysNumbered(dbs[k - 1], inputs[k - 1], wording, prompt, dbs[k]);
      }
    }
  }

  lemma StepStaysNumbered(db: Db, i: Input, wording: GeneratedCause -> bool, prompt: string, db': Db)
    requires KeyedMoves(db.moves) && Numbered(db.signals) && i.Handled? && StepTo(db, i, wording, prompt, db')
    ensures Numbered(db'.signals) && KeyedMoves(db'.moves) && db.signals <= db'.signals
  {
    if Wrote(db, db') {
      var m, p := WrittenRow(db, i.q, i.answers, wording, prompt, i.now, db');
      InsertNextKeepsNumbered(db.signals, RowFor(p, NextVersion(db.signals, m.moveId)));
    }
  }

  /** The row comes ten minutes of event time or more after the one before, if that is of the same move version. */
  ghost predicate Spaced(before: seq<SignalRow>, row: SignalRow) {
    before != [] ==>
      var previous := before[|before| - 1];
      previous.version == row.version - 1
      && (previous.moveVersion == row.moveVersion && previous.asOf.Some? ==>
            row.asOf.Some? && row.asOf.value >= previous.asOf.value + 600_000)
  }

  lemma MadeIsSpaced(signals: seq<SignalRow>, p: Plan)
    requires Numbered(signals) && p.Proceed? && MadeFrom(signals, p)
    ensures var row := RowFor(p, NextVersion(signals, p.request.move.moveId));
            var before := RowsOf(signals, row.moveId);
            row.version == |before| + 1 && (!p.stateChange ==> Spaced(before, row))
  {
    LatestIsLastOfMove(signals, p.request.move.moveId);
  }

  lemma WrittenIsSpaced(db: Db, i: Input, wording: GeneratedCause -> bool, prompt: string, db': Db)
    requires KeyedMoves(db.moves) && Numbered(db.signals) && i.Handled? && StepTo(db, i, wording, prompt, db') && Wrote(db, db')
    ensures |db'.signals| == |db.signals| + 1
    ensures var row := db'.signals[|db.signals|];
            var before := RowsOf(db.signals, row.moveId);
            row.version == |before| + 1 && (!StateChange(i.q) ==> Spaced(before, row))
  {
    var m, p := WrittenRow(db, i.q, i.answers, wording, prompt, i.now, db');
    PlanIsMadeFrom(db.signals, db.documents, m, i.q, i.answers, wording, prompt);
    MadeIsSpaced(db.signals, p);
  }

  /** In every serial run, a version written by any other request than a state change comes
      at least ten minutes of event time after the preceding version of the same move version. */
  lemma VersionsAreSpaced(dbs: seq<Db>, inputs: seq<Input>, wording: GeneratedCause -> bool, prompt: string, k: nat)
    requires Run(dbs, inputs, wording, prompt) && k < |inputs| && Wrote(dbs[k], dbs[k + 1])
    ensures inputs[k].Handled? && |dbs[k + 1].signals| == |dbs[k].signals| + 1
    ensures var row := dbs[k + 1].signals[|dbs[k].signals|];
            var before := RowsOf(dbs[k].signals, row.moveId);
            row.version == |before| + 1 && (!StateChange(inputs[k].q) ==> Spaced(before, row))
  {
    RunsStayNumbered(dbs, inputs, wording, prompt, k);
    assert StepTo(dbs[k], inputs[k], wording, prompt, dbs[k + 1]);
    WrittenIsSpaced(dbs[k], inputs[k], wording, prompt, dbs[k + 1]);
  }
}
