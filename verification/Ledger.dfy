/**
 * The signal ledger with any number of workers, the move sink and the filler.
 *
 * Each worker's transaction is cut at its statements: an unlocked read and
 * generation, the row lock with the version check, the version counter, and the
 * commit. Between any two of them every other process may step, and any worker
 * may stop, which rolls its transaction back and frees its lock.
 */
module Ledger {
  import opened Prelude
  import opened ServingSink
  import opened Generation
  import opened SignalStore
  import opened Transport
  import opened MoveSink
  import opened SignalWorker

  type WorkerId = nat

  /** `read` is how many signal rows there were when the worker read the ledger. */
  datatype WorkerState =
    | Planned(plan: Plan, read: nat)
    | Locked(plan: Plan, read: nat)
    | Counted(plan: Plan, read: nat, version: int)

  /** The messages of `price-moves`, the wording rules and the prompt of the deployment. */
  datatype Config = Config(feed: seq<MoveRecord>, wording: GeneratedCause -> bool, prompt: string)

  datatype Store = Store(
    rows: Rows, signals: seq<SignalRow>, workers: map<WorkerId, WorkerState>,
    ghost published: seq<Update>)   // the update committed with each signal row

  ghost const EMPTY_STORE := Store(map[], [], map[], [])

  datatype StoreStep =
    | Move(d: Delivery)
    | FillMove(id: MoveId, version: int, c: Contributions)
    | Read(w: WorkerId, q: Request, id: MoveId, name: string, documents: seq<JudgedDocument>, answers: seq<Answer>)
    | Lock(w: WorkerId)
    | Count(w: WorkerId)
    | Commit(w: WorkerId, now: Time)
    | Stop(w: WorkerId)

  function Open(id: MoveId, row: MoveRow, name: string): OpenMove {
    OpenMove(id, row.moveType, row.symbol, name, true, row.windowStart, row.windowEnd, row.returnPct,
             row.priceState, row.contributions, row.version)
  }

  /** What a worker reads of a stored move is what is stored. */
  lemma OpenIs(id: MoveId, row: MoveRow, name: string)
    ensures var m := Open(id, row, name);
            && m.moveId == id && m.symbolName == name && m.enabled && m.version == row.version
            && m.moveType == row.moveType && m.symbol == row.symbol && m.priceState == row.priceState
            && m.windowStart == row.windowStart && m.windowEnd == row.windowEnd
            && m.returnPct == row.returnPct && m.contributions == row.contributions
  {}

  /** `id` is the symbol's latest move by (window end, version). */
  ghost predicate LatestRow(rows: Rows, symbol: Symbol, id: MoveId) {
    && id in rows && rows[id].symbol == symbol
    && forall n :: n in rows && rows[n].symbol == symbol ==>
         rows[n].windowEnd < rows[id].windowEnd
         || (rows[n].windowEnd == rows[id].windowEnd && rows[n].version <= rows[id].version)
  }

  /** The move a worker is about; every worker's plan proceeds. */
  function HeldId(ws: WorkerState): MoveId
    requires ws.plan.Proceed?
  {
    ws.plan.request.move.moveId
  }

  predicate Holds(ws: WorkerState, id: MoveId)
    requires ws.plan.Proceed?
  {
    !ws.Planned? && HeldId(ws) == id
  }

  ghost predicate AllProceed(s: Store) { forall w :: w in s.workers ==> s.workers[w].plan.Proceed? }

  ghost predicate RowFree(s: Store, id: MoveId)
    requires AllProceed(s)
  {
    forall w :: w in s.workers ==> !Holds(s.workers[w], id)
  }

  ghost function PlanOf(c: Config, s: Store, q: Request, id: MoveId, name: string, documents: seq<JudgedDocument>, answers: seq<Answer>): Plan
    requires id in s.rows
  {
    Prepare(s.signals, documents, Open(id, s.rows[id], name), q, answers, c.wording, c.prompt)
  }

  ghost predicate Possible(c: Config, s: Store, step: StoreStep)
    requires AllProceed(s)
  {
    match step
    case Move(d) => d.record in c.feed && RowFree(s, d.record.moveId)
    case FillMove(id, _, _) => RowFree(s, id)
    case Read(w, q, id, name, documents, answers) =>
      && w !in s.workers && LatestRow(s.rows, q.symbol, id) && AnswersValid(answers)
      && PlanOf(c, s, q, id, name, documents, answers).Proceed?
    case Lock(w) => w in s.workers && s.workers[w].Planned? && RowFree(s, HeldId(s.workers[w]))
    case Count(w) => w in s.workers && s.workers[w].Locked? && WritesVersion(s.workers[w].plan)
    case Commit(w, _) => w in s.workers && s.workers[w].Counted?
    case Stop(w) => w in s.workers
  }

  ghost function UpdateOf(ws: WorkerState, now: Time): Update
    requires ws.Counted? && ws.plan.Proceed?
  {
    PublishedUpdate(ws.plan.request.move, ws.version, ws.plan.generated, now)
  }

  ghost function Next(c: Config, s: Store, step: StoreStep): Store
    requires AllProceed(s) && Possible(c, s, step)
  {
    match step
    case Move(d) => s.(rows := Deliver(s.rows, d))
    case FillMove(id, version, contributions) => s.(rows := Fill(s.rows, id, version, contributions))
    case Read(w, q, id, name, documents, answers) =>
      s.(workers := s.workers[w := Planned(PlanOf(c, s, q, id, name, documents, answers), |s.signals|)])
    case Lock(w) =>
      var m := s.workers[w].plan.request.move;
      if m.moveId in s.rows && s.rows[m.moveId].version == m.version
      then s.(workers := s.workers[w := Locked(s.workers[w].plan, s.workers[w].read)])
      else s.(workers := s.workers - {w})
    case Count(w) =>
      s.(workers := s.workers[w := Counted(s.workers[w].plan, s.workers[w].read, NextVersion(s.signals, HeldId(s.workers[w])))])
    case Commit(w, now) =>
      s.(signals := InsertSignal(s.signals, RowFor(s.workers[w].plan, s.workers[w].version)),
         published := s.published + [UpdateOf(s.workers[w], now)],
         workers := s.workers - {w})
    case Stop(w) => s.(workers := s.workers - {w})
  }

  // ----- the hypothesis on price-moves

  /** Versions start at 1 and a later version of a move never ends its window earlier. */
  ghost predicate MonotoneFeed(feed: seq<MoveRecord>) {
    && (forall r :: r in feed ==> r.version >= 1)
    && forall a, b :: a in feed && b in feed && a.moveId == b.moveId && a.version <= b.version
         ==> a.windowEnd <= b.windowEnd
  }

  ghost predicate FromFeed(feed: seq<MoveRecord>, id: MoveId, version: int, windowEnd: Time) {
    exists r :: r in feed && r.moveId == id && r.version == version && r.windowEnd == windowEnd
  }

  // ----- what every step keeps

  ghost predicate RowsFromFeed(c: Config, rows: Rows) {
    forall id :: id in rows ==> FromFeed(c.feed, id, rows[id].version, rows[id].windowEnd)
  }

  ghost predicate PlanSound(c: Config, p: Plan) {
    && PlanFits(p, c.prompt)
    && FromFeed(c.feed, p.request.move.moveId, p.request.move.version, p.request.move.windowEnd)
  }

  /** A worker's plan was made from the ledger as far as it was read; a lock holder's move row is the version it read;
      and a worker that took the counter writes a version, for which the counter is still the next one. */
  ghost predicate WorkerSound(c: Config, signals: seq<SignalRow>, rows: Rows, ws: WorkerState) {
    && PlanSound(c, ws.plan)
    && ws.read <= |signals| && MadeFrom(signals[..ws.read], ws.plan)
    && (!ws.Planned? ==> HeldId(ws) in rows && rows[HeldId(ws)].version == ws.plan.request.move.version)
    && (ws.Counted? ==> WritesVersion(ws.plan) && ws.version == NextVersion(signals, HeldId(ws)))
  }

  ghost predicate WorkersSound(c: Config, s: Store) {
    forall w :: w in s.workers ==> WorkerSound(c, s.signals, s.rows, s.workers[w])
  }

  /** No two workers hold one move row. */
  ghost predicate LocksExclusive(s: Store)
    requires AllProceed(s)
  {
    forall v, w :: v in s.workers && w in s.workers && v != w && !s.workers[v].Planned? ==>
      !Holds(s.workers[w], HeldId(s.workers[v]))
  }

  ghost predicate MoveVersionsOrdered(s: Store) {
    && (forall i :: 0 <= i < |s.signals| ==>
          s.signals[i].moveId in s.rows && s.signals[i].moveVersion <= s.rows[s.signals[i].moveId].version)
    && (forall i, j :: 0 <= i < j < |s.signals| && s.signals[i].moveId == s.signals[j].moveId
          ==> s.signals[i].moveVersion <= s.signals[j].moveVersion)
  }

  /** The headline of a shown version is the label of the cause with the headline's rank; no other version has one. */
  ghost predicate Headlines(headline: Option<string>, row: SignalRow) {
    && (row.status == Shown ==> Ranked(row) && headline == Some(row.causes[row.headlineRank.value - 1].labelText))
    && (row.status != Shown ==> headline == None)
  }

  /** The update carries the version's decision, and the sink serves all of it. */
  ghost predicate Conveys(u: Update, row: SignalRow) {
    && (u.row.moveId, u.row.version) == (row.moveId, row.version) && u.row.moveVersion == row.moveVersion
    && u.row.symbol == row.inputHash.move.symbol && u.row.symbolName == row.inputHash.move.symbolName
    && u.row.windowEnd == row.inputHash.move.windowEnd
    && u.row.status == row.status && Headlines(u.row.headline, row)
    && Carries(u.causes, row.causes) && ServedCauses(u) == u.causes
  }

  ghost predicate Describes(c: Config, u: Update, row: SignalRow) {
    Conveys(u, row) && FromFeed(c.feed, row.moveId, row.moveVersion, u.row.windowEnd) && Storable(u)
  }

  ghost predicate AllGrounded(signals: seq<SignalRow>) {
    forall i :: 0 <= i < |signals| ==> Grounded(signals[i])
  }

  ghost predicate PublishedSound(c: Config, s: Store) {
    |s.published| == |s.signals|
    && forall i :: 0 <= i < |s.signals| ==> Describes(c, s.published[i], s.signals[i])
  }

  ghost predicate LedgerSound(c: Config, s: Store) {
    AllGrounded(s.signals) && Numbered(s.signals) && PublishedSound(c, s)
  }

  ghost predicate StoreInv(c: Config, s: Store) {
    && AllProceed(s) && WorkersSound(c, s) && LocksExclusive(s)
    && RowsFromFeed(c, s.rows) && MoveVersionsOrdered(s) && LedgerSound(c, s)
  }

  lemma EmptyStoreInv(c: Config)
    ensures StoreInv(c, EMPTY_STORE)
  {}

  lemma NextKeepsStoreInv(c: Config, s: Store, step: StoreStep)
    requires MonotoneFeed(c.feed) && StoreInv(c, s) && Possible(c, s, step)
    ensures StoreInv(c, Next(c, s, step))
  {
    match step
    case Move(d) => MoveKeepsStoreInv(c, s, d);
    case FillMove(id, version, contributions) => FillKeepsStoreInv(c, s, id, version, contributions);
    case Read(w, q, id, name, documents, answers) => ReadKeepsStoreInv(c, s, step);
    case Lock(w) => LockKeepsStoreInv(c, s, w);
    case Count(w) => CountKeepsStoreInv(c, s, w);
    case Commit(w, now) => CommitKeepsStoreInv(c, s, w, now);
    case Stop(w) => StopKeepsStoreInv(c, s, w);
  }

  /** One worker enters or moves on; if it holds a row now, no other does. */
  lemma WorkerMovesOn(c: Config, s: Store, w: WorkerId, ws: WorkerState)
    requires StoreInv(c, s) && WorkerSound(c, s.signals, s.rows, ws)
    requires !ws.Planned? ==> forall v :: v in s.workers && v != w ==> !Holds(s.workers[v], HeldId(ws))
    ensures StoreInv(c, s.(workers := s.workers[w := ws]))
  {
    var s' := s.(workers := s.workers[w := ws]);
    assert forall v :: v in s'.workers && v != w ==> s'.workers[v] == s.workers[v];
    assert WorkersSound(c, s');
    LocksStayExclusive(s, w, ws);
  }

  lemma LocksStayExclusive(s: Store, w: WorkerId, ws: WorkerState)
    requires AllProceed(s) && LocksExclusive(s) && ws.plan.Proceed?
    requires !ws.Planned? ==> forall v :: v in s.workers && v != w ==> !Holds(s.workers[v], HeldId(ws))
    ensures var s' := s.(workers := s.workers[w := ws]); AllProceed(s') && LocksExclusive(s')
  {}

  lemma CountKeepsStoreInv(c: Config, s: Store, w: WorkerId)
    requires StoreInv(c, s) && Possible(c, s, Count(w))
    ensures StoreInv(c, Next(c, s, Count(w)))
  {
    var ws := s.workers[w];
    assert WorkerSound(c, s.signals, s.rows, ws);
    WorkerMovesOn(c, s, w, Counted(ws.plan, ws.read, NextVersion(s.signals, HeldId(ws))));
  }

  lemma StopKeepsStoreInv(c: Config, s: Store, w: WorkerId)
    requires StoreInv(c, s) && Possible(c, s, Stop(w))
    ensures StoreInv(c, Next(c, s, Stop(w)))
  {}

  /** The table writers change a row that nobody holds, and never lower a version. */
  lemma RowsChangeKeepsStoreInv(c: Config, s: Store, id: MoveId, rows: Rows)
    requires StoreInv(c, s) && RowsFromFeed(c, rows) && ChangesOnly(s.rows, rows, id) && RowFree(s, id)
    ensures StoreInv(c, s.(rows := rows))
  {
    forall w | w in s.workers ensures WorkerSound(c, s.signals, rows, s.workers[w]) {
      assert !Holds(s.workers[w], id);
    }
  }

  /** The rows of other moves stay, and no version falls. */
  ghost predicate ChangesOnly(rows: Rows, rows': Rows, id: MoveId) {
    && rows.Keys <= rows'.Keys
    && forall n :: n in rows ==> rows[n].version <= rows'[n].version && (n != id ==> rows'[n] == rows[n])
  }

  lemma DeliverChangesOnly(c: Config, rows: Rows, d: Delivery)
    requires RowsFromFeed(c, rows) && d.record in c.feed
    ensures RowsFromFeed(c, Deliver(rows, d)) && ChangesOnly(rows, Deliver(rows, d), d.record.moveId)
  {
    var rows' := Deliver(rows, d);
    forall id | id in rows' ensures FromFeed(c.feed, id, rows'[id].version, rows'[id].windowEnd) {
      if id == d.record.moveId && (id !in rows || rows'[id] != rows[id]) {
        assert d.record.version == rows'[id].version && d.record.windowEnd == rows'[id].windowEnd;
      } else {
        assert rows'[id] == rows[id];
      }
    }
  }

  lemma MoveKeepsStoreInv(c: Config, s: Store, d: Delivery)
    requires StoreInv(c, s) && Possible(c, s, Move(d))
    ensures StoreInv(c, Next(c, s, Move(d)))
  {
    DeliverChangesOnly(c, s.rows, d);
    RowsChangeKeepsStoreInv(c, s, d.record.moveId, Deliver(s.rows, d));
  }

  lemma FillKeepsStoreInv(c: Config, s: Store, id: MoveId, version: int, contributions: Contributions)
    requires StoreInv(c, s) && Possible(c, s, FillMove(id, version, contributions))
    ensures StoreInv(c, Next(c, s, FillMove(id, version, contributions)))
  {
    RowsChangeKeepsStoreInv(c, s, id, Fill(s.rows, id, version, contributions));
  }

  lemma ReadKeepsStoreInv(c: Config, s: Store, step: StoreStep)
    requires step.Read? && StoreInv(c, s) && Possible(c, s, step)
    ensures StoreInv(c, Next(c, s, step))
  {
    var m := Open(step.id, s.rows[step.id], step.name);
    PreparedPlanFits(s.signals, step.documents, m, step.q, step.answers, c.wording, c.prompt);
    assert s.signals[..|s.signals|] == s.signals;
    WorkerMovesOn(c, s, step.w, Planned(PlanOf(c, s, step.q, step.id, step.name, step.documents, step.answers), |s.signals|));
  }

  lemma LockKeepsStoreInv(c: Config, s: Store, w: WorkerId)
    requires StoreInv(c, s) && Possible(c, s, Lock(w))
    ensures StoreInv(c, Next(c, s, Lock(w)))
  {
    var ws := s.workers[w];
    assert WorkerSound(c, s.signals, s.rows, ws);
    if HeldId(ws) in s.rows && s.rows[HeldId(ws)].version == ws.plan.request.move.version {
      WorkerMovesOn(c, s, w, Locked(ws.plan, ws.read));
    } else {
      StopKeepsStoreInv(c, s, w);
    }
  }

  lemma CommitKeepsStoreInv(c: Config, s: Store, w: WorkerId, now: Time)
    requires MonotoneFeed(c.feed) && StoreInv(c, s) && Possible(c, s, Commit(w, now))
    ensures StoreInv(c, Next(c, s, Commit(w, now)))
    ensures Next(c, s, Commit(w, now)).signals == s.signals + [RowFor(s.workers[w].plan, s.workers[w].version)]
  {
    var row, u := RowFor(s.workers[w].plan, s.workers[w].version), UpdateOf(s.workers[w], now);
    InsertNextKeepsNumbered(s.signals, row);
    CommittedUpdateDescribes(c, s, w, now);
    AppendKeepsStoreInv(c, s, w, row, u);
  }

  /** One row and its update appended by the holder of the move row. */
  lemma AppendKeepsStoreInv(c: Config, s: Store, w: WorkerId, row: SignalRow, u: Update)
    requires StoreInv(c, s) && w in s.workers && s.workers[w].Counted?
    requires row == RowFor(s.workers[w].plan, s.workers[w].version)
    requires Numbered(s.signals + [row]) && Describes(c, u, row)
    ensures StoreInv(c, s.(signals := s.signals + [row], published := s.published + [u], workers := s.workers - {w}))
  {
    AppendKeepsWorkers(c, s, w, row, u);
    AppendKeepsOrder(s, s.(signals := s.signals + [row], published := s.published + [u], workers := s.workers - {w}), row);
    AppendKeepsPublished(c, s.signals, s.published, row, u);
    FittingPlanIsGrounded(s.workers[w].plan, s.workers[w].version, c.prompt);
  }

  lemma AppendKeepsWorkers(c: Config, s: Store, w: WorkerId, row: SignalRow, u: Update)
    requires AllProceed(s) && WorkersSound(c, s) && LocksExclusive(s) && w in s.workers && s.workers[w].Counted?
    requires row.moveId == HeldId(s.workers[w])
    ensures var s' := s.(signals := s.signals + [row], published := s.published + [u], workers := s.workers - {w});
            AllProceed(s') && WorkersSound(c, s') && LocksExclusive(s')
  {
    forall v | v in s.workers && v != w ensures WorkerSound(c, s.signals + [row], s.rows, s.workers[v]) {
      var ws := s.workers[v];
      assert (s.signals + [row])[..ws.read] == s.signals[..ws.read];
      if ws.Counted? {
        assert !Holds(ws, HeldId(s.workers[w]));
        OtherMovesKeepTheirCounter(s.signals, row, HeldId(ws));
      }
    }
  }

  lemma AppendKeepsOrder(s: Store, s': Store, row: SignalRow)
    requires MoveVersionsOrdered(s) && s'.rows == s.rows && s'.signals == s.signals + [row]
    requires row.moveId in s.rows && s.rows[row.moveId].version == row.moveVersion
    ensures MoveVersionsOrdered(s')
  {}

  lemma AppendKeepsPublished(c: Config, signals: seq<SignalRow>, published: seq<Update>, row: SignalRow, u: Update)
    requires |published| == |signals| && Describes(c, u, row)
    requires forall i :: 0 <= i < |signals| ==> Describes(c, published[i], signals[i])
    ensures forall i :: 0 <= i < |signals| + 1 ==> Describes(c, (published + [u])[i], (signals + [row])[i])
  {}

  lemma OtherMovesKeepTheirCounter(signals: seq<SignalRow>, row: SignalRow, id: MoveId)
    requires row.moveId != id
    ensures NextVersion(signals + [row], id) == NextVersion(signals, id)
  {
    assert (signals + [row])[..|signals + [row]| - 1] == signals;
  }

  lemma CommittedUpdateDescribes(c: Config, s: Store, w: WorkerId, now: Time)
    requires MonotoneFeed(c.feed) && StoreInv(c, s) && Possible(c, s, Commit(w, now))
    ensures Describes(c, UpdateOf(s.workers[w], now), RowFor(s.workers[w].plan, s.workers[w].version))
  {
    var p := s.workers[w].plan;
    var r :| r in c.feed && r.moveId == p.request.move.moveId && r.version == p.request.move.version
             && r.windowEnd == p.request.move.windowEnd;
    LatestIsLastOfMove(s.signals, p.request.move.moveId);
    PublishedUpdateIsStorable(p.request.move, s.workers[w].version, p.generated, now, p.request);
    UpdateConveys(p, s.workers[w].version, now, c.prompt);
  }

  lemma UpdateConveys(p: Plan, version: int, now: Time, prompt: string)
    requires PlanFits(p, prompt) && WritesVersion(p)
    ensures Conveys(PublishedUpdate(p.request.move, version, p.generated, now), RowFor(p, version))
  {
    if p.generated.decision.status == Shown {
      PublishedCausesSurviveIff(p.request.move, version, p.generated, now);
    }
    UpdateAnnounces(p, version, now);
  }

  // ----- what the invariant says about the published updates

  /** The published updates meet the hypothesis of serving convergence. */
  lemma PublishedUpdatesConverge(c: Config, s: Store)
    requires MonotoneFeed(c.feed) && StoreInv(c, s)
    ensures AllStorable(Elems(s.published)) && KeyConsistent(Elems(s.published)) && Monotone(Elems(s.published))
    ensures NoDuplicates(s.published)
  {
    forall i, j | 0 <= i < j < |s.published| ensures Key(s.published[i]) != Key(s.published[j]) {
      NumberedIsKeyed(s.signals, i, j);
    }
    forall a, b | a in Elems(s.published) && b in Elems(s.published) && a.row.moveId == b.row.moveId && Beats(b.row, a.row)
      ensures a.row.windowEnd <= b.row.windowEnd
    {
      FeedOrdersWindows(c, s, a, b);
    }
  }

  lemma FeedOrdersWindows(c: Config, s: Store, a: Update, b: Update)
    requires MonotoneFeed(c.feed) && StoreInv(c, s) && a in s.published && b in s.published
    requires a.row.moveId == b.row.moveId && a.row.moveVersion <= b.row.moveVersion
    ensures a.row.windowEnd <= b.row.windowEnd
  {
    var i :| 0 <= i < |s.published| && s.published[i] == a;
    var j :| 0 <= j < |s.published| && s.published[j] == b;
    assert Describes(c, a, s.signals[i]) && Describes(c, b, s.signals[j]);
    var ra :| ra in c.feed && ra.moveId == a.row.moveId && ra.version == a.row.moveVersion && ra.windowEnd == a.row.windowEnd;
    var rb :| rb in c.feed && rb.moveId == b.row.moveId && rb.version == b.row.moveVersion && rb.windowEnd == b.row.windowEnd;
  }

  lemma UpdateHasRow(c: Config, s: Store, u: Update) returns (row: SignalRow)
    requires StoreInv(c, s) && u in s.published
    ensures row in s.signals && Grounded(row) && Conveys(u, row)
  {
    var i :| 0 <= i < |s.published| && s.published[i] == u;
    assert Describes(c, s.published[i], s.signals[i]);
    row := s.signals[i];
  }

  lemma RowHasUpdate(c: Config, s: Store, row: SignalRow) returns (u: Update)
    requires StoreInv(c, s) && row in s.signals
    ensures u in s.published && Grounded(row) && Conveys(u, row)
  {
    var i :| 0 <= i < |s.signals| && s.signals[i] == row;
    assert Describes(c, s.published[i], s.signals[i]);
    u := s.published[i];
  }
}
