/**
 * The delivery chain end to end: price moves, the signal ledger, the outbox,
 * relays, topics and the serving sink, in one transition system.
 */
module Pipeline {
  import opened Prelude
  import opened ServingSink
  import opened SignalStore
  import opened Transport
  import opened MoveSink
  import opened SignalWorker
  import opened Ledger
  import opened LedgerLaws

  datatype System = System(store: Store, bus: Bus)

  ghost const BEGIN := System(EMPTY_STORE, START)

  datatype Step =
    | OnStore(s: StoreStep, n: nat)         // `n` is the random event id of a published request
    | NewDocumentRequest(q: Request, n: nat)
    | OnBus(b: BusStep)

  ghost predicate CanStep(c: Config, y: System, step: Step) {
    match step
    case OnStore(s, n) =>
      && AllProceed(y.store) && Possible(c, y.store, s)
      && (s.Read? ==> s.q in y.bus.requests)
    case NewDocumentRequest(q, n) => true
    case OnBus(b) => Enabled(y.bus, b)
  }

  /** The outbox row written in the same transaction as a store step. */
  ghost function Emitted(y: System, s: StoreStep, n: nat): Option<(EventId, Event)>
    requires AllProceed(y.store) && (s.Commit? ==> s.w in y.store.workers && y.store.workers[s.w].Counted?)
  {
    match s
    case Move(d) =>
      (match RequestOf(y.store.rows, d) case None => None case Some(q) => Some((RandomId(n), RequestEvent(q))))
    case Commit(w, now) =>
      var u := UpdateOf(y.store.workers[w], now);
      Some((UpdateId(u.row.moveId, u.row.version), UpdateEvent(u)))
    case _ => None
  }

  ghost function StepTo(c: Config, y: System, step: Step): System
    requires CanStep(c, y, step)
  {
    match step
    case OnStore(s, n) =>
      System(Next(c, y.store, s),
             match Emitted(y, s, n) case None => y.bus case Some(e) => Insert(y.bus, e.0, e.1))
    case NewDocumentRequest(q, n) => y.(bus := Insert(y.bus, RandomId(n), RequestEvent(q)))
    case OnBus(b) => y.(bus := Do(y.bus, b))
  }

  /** Committed update events are exactly the published updates, each under its own id. */
  ghost predicate Linked(y: System) {
    && (forall u :: u in y.store.published ==>
          (UpdateId(u.row.moveId, u.row.version), UpdateEvent(u)) in y.bus.committed)
    && (forall e :: e in y.bus.committed && e.1.UpdateEvent? ==>
          e.1.update in y.store.published && e.0 == UpdateId(e.1.update.row.moveId, e.1.update.row.version))
    && (forall e :: e in y.bus.committed && e.1.RequestEvent? ==> e.0.RandomId?)
  }

  ghost predicate Inv(c: Config, y: System) {
    StoreInv(c, y.store) && BusInv(y.bus) && TablesSettled(y.bus) && Linked(y)
  }

  lemma BeginInv(c: Config)
    ensures Inv(c, BEGIN)
  {
    EmptyStoreInv(c);
  }

  lemma TopicIsPublished(y: System)
    requires BusInv(y.bus) && Linked(y)
    ensures Elems(y.bus.updates) <= Elems(y.store.published)
  {
    forall u | u in y.bus.updates ensures u in y.store.published {
      assert WasCommitted(y.bus, UpdateEvent(u));
    }
  }

  lemma StepKeepsInv(c: Config, y: System, step: Step)
    requires MonotoneFeed(c.feed) && Inv(c, y) && CanStep(c, y, step)
    ensures Inv(c, StepTo(c, y, step))
  {
    match step
    case OnStore(s, n) =>
      NextKeepsStoreInv(c, y.store, s);
      match Emitted(y, s, n) {
        case None => OtherStepsPublishNothing(c, y.store, s);
        case Some(e) =>
          InsertKeepsBusInv(y.bus, e.0, e.1);
          if s.Commit? { CommitKeepsLinked(c, y, s, n); }
      }
    case NewDocumentRequest(q, n) => InsertKeepsBusInv(y.bus, RandomId(n), RequestEvent(q));
    case OnBus(b) => BusStepKeepsInv(c, y, b);
  }

  lemma BusStepKeepsInv(c: Config, y: System, b: BusStep)
    requires MonotoneFeed(c.feed) && Inv(c, y) && Enabled(y.bus, b)
    ensures Inv(c, y.(bus := Do(y.bus, b)))
  {
    StepKeepsBusInv(y.bus, b);
    BusStepKeepsSettled(c, y, b);
    BusStepKeepsLinked(y, b);
  }

  lemma BusStepKeepsSettled(c: Config, y: System, b: BusStep)
    requires MonotoneFeed(c.feed) && Inv(c, y) && Enabled(y.bus, b)
    ensures TablesSettled(Do(y.bus, b))
  {
    PublishedUpdatesConverge(c, y.store);
    MonotoneHasNoStraddle(Elems(y.store.published));
    TopicIsPublished(y);
    TakeSettles(y.bus, b, Elems(y.store.published));
  }

  lemma BusStepKeepsLinked(y: System, b: BusStep)
    requires Linked(y) && Enabled(y.bus, b)
    ensures Linked(y.(bus := Do(y.bus, b)))
  {
    assert Do(y.bus, b).committed == y.bus.committed;
  }

  lemma OtherStepsPublishNothing(c: Config, s: Store, step: StoreStep)
    requires AllProceed(s) && Possible(c, s, step) && !step.Commit?
    ensures Next(c, s, step).published == s.published
  {}

  /** An update in the outbox is of a version in the ledger. */
  lemma OutboxUpdateIsRecorded(c: Config, y: System, id: EventId)
    requires StoreInv(c, y.store) && BusInv(y.bus) && Linked(y) && id.UpdateId? && id in y.bus.outbox
    ensures exists row :: row in y.store.signals && row.moveId == id.moveId && row.version == id.version
  {
    var e := (id, y.bus.outbox[id]);
    assert e in y.bus.committed && e.1.UpdateEvent?;
    var i :| 0 <= i < |y.store.published| && y.store.published[i] == e.1.update;
    assert Describes(c, y.store.published[i], y.store.signals[i]);
    assert y.store.signals[i] in y.store.signals;
  }

  /** The event id of a new version is unused, so the row really enters the outbox. */
  lemma NewIdIsUnused(c: Config, y: System, moveId: MoveId)
    requires StoreInv(c, y.store) && BusInv(y.bus) && Linked(y)
    ensures UpdateId(moveId, NextVersion(y.store.signals, moveId)) !in y.bus.outbox
  {
    NewVersionIsUnused(y.store.signals, moveId);
    if UpdateId(moveId, NextVersion(y.store.signals, moveId)) in y.bus.outbox {
      OutboxUpdateIsRecorded(c, y, UpdateId(moveId, NextVersion(y.store.signals, moveId)));
    }
  }

  lemma NewUpdateKeepsLinked(y: System, store: Store, u: Update)
    requires Linked(y) && store.published == y.store.published + [u]
    requires UpdateId(u.row.moveId, u.row.version) !in y.bus.outbox
    ensures Linked(System(store, Insert(y.bus, UpdateId(u.row.moveId, u.row.version), UpdateEvent(u))))
  {}

  lemma CommitKeepsLinked(c: Config, y: System, s: StoreStep, n: nat)
    requires MonotoneFeed(c.feed) && Inv(c, y) && s.Commit? && CanStep(c, y, OnStore(s, n))
    ensures Linked(StepTo(c, y, OnStore(s, n)))
  {
    var u := UpdateOf(y.store.workers[s.w], s.now);
    CounterOf(c, y.store, s.w);
    NewIdIsUnused(c, y, u.row.moveId);
    NewUpdateKeepsLinked(y, Next(c, y.store, s), u);
  }

  lemma CounterOf(c: Config, s: Store, w: WorkerId)
    requires StoreInv(c, s) && w in s.workers && s.workers[w].Counted?
    ensures s.workers[w].version == NextVersion(s.signals, HeldId(s.workers[w]))
  {
    assert WorkerSound(c, s.signals, s.rows, s.workers[w]);
  }

  // ----- runs

  ghost predicate Reaches(c: Config, ys: seq<System>, steps: seq<Step>) {
    && |ys| == |steps| + 1 && ys[0] == BEGIN
    && forall i :: 0 <= i < |steps| ==> CanStep(c, ys[i], steps[i]) && ys[i + 1] == StepTo(c, ys[i], steps[i])
  }

  lemma {:induction false} EveryStateIsSound(c: Config, ys: seq<System>, steps: seq<Step>, k: nat)
    requires MonotoneFeed(c.feed) && Reaches(c, ys, steps) && k < |ys|
    ensures Inv(c, ys[k])
  {
    if k == 0 {
      BeginInv(c);
    } else {
      EveryStateIsSound(c, ys, steps, k - 1);
      StepKeepsInv(c, ys[k - 1], steps[k - 1]);
    }
  }

  /** With any number of workers, every move's versions are exactly 1..n and its move versions never fall. */
  lemma LedgerIsExact(c: Config, ys: seq<System>, steps: seq<Step>, k: nat, m: MoveId)
    requires MonotoneFeed(c.feed) && Reaches(c, ys, steps) && k < |ys|
    ensures var rows := RowsOf(ys[k].store.signals, m);
            && (forall i :: 0 <= i < |rows| ==> rows[i].version == i + 1)
            && (forall i, j :: 0 <= i < j < |rows| ==> rows[i].moveVersion <= rows[j].moveVersion)
  {
    EveryStateIsSound(c, ys, steps, k);
    OrderOfMove(ys[k].store.signals, m);
  }

  lemma {:induction false} OrderOfMove(signals: seq<SignalRow>, m: MoveId)
    requires forall i, j :: 0 <= i < j < |signals| && signals[i].moveId == signals[j].moveId
               ==> signals[i].moveVersion <= signals[j].moveVersion
    ensures var rows := RowsOf(signals, m);
            forall i, j :: 0 <= i < j < |rows| ==> rows[i].moveVersion <= rows[j].moveVersion
  {
    if signals != [] {
      var front, last := signals[..|signals| - 1], signals[|signals| - 1];
      OrderOfMove(front, m);
      var rows := RowsOf(front, m);
      assert RowsOf(signals, m) == rows + if last.moveId == m then [last] else [];
      forall j | 0 <= j < |rows| && last.moveId == m ensures rows[j].moveVersion <= last.moveVersion {
        assert rows[j] in rows && rows[j] in front;
        var i :| 0 <= i < |front| && front[i] == rows[j];
        assert signals[i].moveId == m && signals[i].moveVersion <= signals[|signals| - 1].moveVersion;
      }
      forall i, j | 0 <= i < j < |RowsOf(signals, m)|
        ensures RowsOf(signals, m)[i].moveVersion <= RowsOf(signals, m)[j].moveVersion
      {
        assert RowsOf(signals, m)[i] == rows[i];
        if j < |rows| {
          assert RowsOf(signals, m)[j] == rows[j] && RowsOf(front, m)[i].moveVersion <= RowsOf(front, m)[j].moveVersion;
        } else {
          assert RowsOf(signals, m)[j] == last;
        }
      }
    }
  }

  /** In every state, each committed outbox event is still in the outbox or already in its topic, no topic record
      lacks a committed event, and the update events are exactly the published updates. */
  lemma NothingLostNothingInvented(c: Config, ys: seq<System>, steps: seq<Step>, k: nat)
    requires MonotoneFeed(c.feed) && Reaches(c, ys, steps) && k < |ys|
    ensures NoneLost(ys[k].bus) && NoneInvented(ys[k].bus)
    ensures var y := ys[k];
            && (forall u :: u in y.store.published ==>
                  var id := UpdateId(u.row.moveId, u.row.version);
                  (id in y.bus.outbox && y.bus.outbox[id] == UpdateEvent(u)) || u in y.bus.updates)
            && (forall u :: u in y.bus.updates ==> u in y.store.published)
  {
    EveryStateIsSound(c, ys, steps, k);
    TopicIsPublished(ys[k]);
    forall u | u in ys[k].bus.updates ensures u in ys[k].store.published {
      assert u in Elems(ys[k].bus.updates);
    }
  }

  /** At rest the sink has taken exactly the published updates. */
  lemma RestMeansPublishedTaken(y: System)
    requires BusInv(y.bus) && Linked(y) && AtRest(y.bus)
    ensures y.bus.seen == Elems(y.store.published)
  {
    RestMeansAllTaken(y.bus);
    forall u ensures u in CommittedUpdates(y.bus) <==> u in Elems(y.store.published) {
      if u in y.store.published {
        assert (UpdateId(u.row.moveId, u.row.version), UpdateEvent(u)) in y.bus.committed;
      }
    }
  }

  lemma SettledTables(t: Tables, published: seq<Update>, order: seq<Update>)
    requires AllStorable(Elems(published)) && KeyConsistent(Elems(published)) && Monotone(Elems(published))
    requires Settled(t, Elems(published)) && Elems(order) == Elems(published)
    ensures t == ApplyAll(EMPTY, published) == ApplyAll(EMPTY, order)
  {
    MonotoneHasNoStraddle(Elems(published));
    DeliveriesSettle(published);
    SettledIsUnique(t, ApplyAll(EMPTY, published), Elems(published));
    MonotoneConverges(published, order);
  }

  /** Effectively once: at rest the serving tables equal one application of each published
      update, in publication order or in any other order without omissions. */
  lemma EffectivelyOnce(c: Config, ys: seq<System>, steps: seq<Step>, k: nat, order: seq<Update>)
    requires MonotoneFeed(c.feed) && Reaches(c, ys, steps) && k < |ys|
    requires AtRest(ys[k].bus) && Elems(order) == Elems(ys[k].store.published)
    ensures NoDuplicates(ys[k].store.published) && |ys[k].store.published| == |ys[k].store.signals|
    ensures ys[k].bus.sink.tables == ApplyAll(EMPTY, ys[k].store.published) == ApplyAll(EMPTY, order)
  {
    EveryStateIsSound(c, ys, steps, k);
    PublishedUpdatesConverge(c, ys[k].store);
    RestMeansPublishedTaken(ys[k]);
    SettledTables(ys[k].bus.sink.tables, ys[k].store.published, order);
  }

  /** `u` is shown for its symbol and beats everything else below the committed offset. */
  ghost predicate ShowsNewest(b: Bus, u: Update) {
    && u.row.symbol in b.sink.tables.current && u.row == b.sink.tables.current[u.row.symbol]
    && forall i :: 0 <= i < |b.updates| && i < b.sink.offset && b.updates[i].row.symbol == u.row.symbol
         ==> b.updates[i] == u || Beats(u.row, b.updates[i].row)
  }

  /** At any moment a symbol shows a published version, the newest of all committed records. */
  lemma SinkShowsPublished(c: Config, ys: seq<System>, steps: seq<Step>, k: nat, x: Symbol)
    requires MonotoneFeed(c.feed) && Reaches(c, ys, steps) && k < |ys|
    requires x in ys[k].bus.sink.tables.current
    ensures exists u :: u in ys[k].store.published && u.row.symbol == x && ShowsNewest(ys[k].bus, u)
  {
    EveryStateIsSound(c, ys, steps, k);
    TopicIsPublished(ys[k]);
    var u := ShownUpdate(ys[k].bus, x);
    assert u in Elems(ys[k].bus.updates);
  }

  lemma ShownUpdate(b: Bus, x: Symbol) returns (u: Update)
    requires OffsetSound(b) && TablesSettled(b) && x in b.sink.tables.current
    ensures u in b.updates && u.row.symbol == x && ShowsNewest(b, u)
  {
    u :| Best(b.seen, u) && u.row.symbol == x && HoldsCurrent(b.sink.tables, u);
  }

  // ----- readers see what the ledger decided

  /** The serving row shows the version: its numbers, name, window, status and headline. */
  ghost predicate ShowsRow(r: Row, row: SignalRow) {
    && (r.moveId, r.version) == (row.moveId, row.version) && r.moveVersion == row.moveVersion
    && r.symbol == row.inputHash.move.symbol && r.symbolName == row.inputHash.move.symbolName
    && r.windowEnd == row.inputHash.move.windowEnd && r.status == row.status && Headlines(r.headline, row)
  }

  /** The symbol shows the version with all its causes. */
  ghost predicate Displays(t: Tables, x: Symbol, row: SignalRow) {
    && x in t.current && x == row.inputHash.move.symbol && ShowsRow(t.current[x], row)
    && if row.status == Shown then x in t.causes && Carries(t.causes[x], row.causes) else x !in t.causes
  }

  /** The history holds the version with all its causes. */
  ghost predicate Archives(t: Tables, row: SignalRow) {
    var k := (row.moveId, row.version);
    && k in t.history && ShowsRow(t.history[k], row)
    && if row.status == Shown then k in t.historyCauses && Carries(t.historyCauses[k], row.causes) else k !in t.historyCauses
  }

  lemma ConveyedIsDisplayed(t: Tables, u: Update, row: SignalRow)
    requires Conveys(u, row) && Grounded(row)
    ensures HoldsCurrent(t, u) ==> Displays(t, u.row.symbol, row)
    ensures HoldsHistory(t, u) ==> Archives(t, row)
  {
    assert ServedCauses(u) == [] <==> row.causes == [];
  }

  /** In every state each ledger row is grounded in its input, and an update published with it carries its decision
      with every cause past the sink's filter. */
  lemma LedgerIsGrounded(c: Config, ys: seq<System>, steps: seq<Step>, k: nat, row: SignalRow)
    requires MonotoneFeed(c.feed) && Reaches(c, ys, steps) && k < |ys| && row in ys[k].store.signals
    ensures Grounded(row) && exists u :: u in ys[k].store.published && Conveys(u, row)
  {
    EveryStateIsSound(c, ys, steps, k);
    var u := RowHasUpdate(c, ys[k].store, row);
  }

  ghost predicate DisplaysSome(t: Tables, x: Symbol, signals: seq<SignalRow>) {
    exists row :: row in signals && Grounded(row) && Displays(t, x, row)
  }

  lemma ShownIsDisplayed(c: Config, y: System, x: Symbol)
    requires Inv(c, y) && x in y.bus.sink.tables.current
    ensures DisplaysSome(y.bus.sink.tables, x, y.store.signals)
  {
    TopicIsPublished(y);
    var u := DisplayedUpdate(y.bus, x);
    assert u in Elems(y.bus.updates);
    var row := UpdateHasRow(c, y.store, u);
    ConveyedIsDisplayed(y.bus.sink.tables, u, row);
  }

  lemma DisplayedUpdate(b: Bus, x: Symbol) returns (u: Update)
    requires OffsetSound(b) && TablesSettled(b) && x in b.sink.tables.current
    ensures u in b.updates && u.row.symbol == x && HoldsCurrent(b.sink.tables, u)
  {
    u :| Best(b.seen, u) && u.row.symbol == x && HoldsCurrent(b.sink.tables, u);
  }

  /** At any moment what a symbol shows is one whole row of the ledger. */
  lemma ReadersSeeTheLedger(c: Config, ys: seq<System>, steps: seq<Step>, k: nat, x: Symbol)
    requires MonotoneFeed(c.feed) && Reaches(c, ys, steps) && k < |ys|
    requires x in ys[k].bus.sink.tables.current
    ensures DisplaysSome(ys[k].bus.sink.tables, x, ys[k].store.signals)
  {
    EveryStateIsSound(c, ys, steps, k);
    ShownIsDisplayed(c, ys[k], x);
  }

  /** The history is the ledger: every row with all its causes, and nothing else. */
  ghost predicate HoldsLedger(t: Tables, signals: seq<SignalRow>) {
    && (forall row :: row in signals ==> Archives(t, row))
    && forall key :: key in t.history ==> exists row :: row in signals && key == (row.moveId, row.version)
  }

  lemma SettledHistoryIsTheLedger(c: Config, s: Store, t: Tables)
    requires StoreInv(c, s) && HistorySettled(t, Elems(s.published))
    ensures HoldsLedger(t, s.signals)
  {
    forall row | row in s.signals ensures Archives(t, row) {
      var u := RowHasUpdate(c, s, row);
      assert u in Elems(s.published);
      ConveyedIsDisplayed(t, u, row);
    }
    forall key | key in t.history ensures exists row :: row in s.signals && key == (row.moveId, row.version) {
      var u :| u in Elems(s.published) && Key(u) == key;
      var row := UpdateHasRow(c, s, u);
    }
  }

  lemma HistoryIsTheLedger(c: Config, ys: seq<System>, steps: seq<Step>, k: nat)
    requires MonotoneFeed(c.feed) && Reaches(c, ys, steps) && k < |ys| && AtRest(ys[k].bus)
    ensures HoldsLedger(ys[k].bus.sink.tables, ys[k].store.signals)
  {
    EveryStateIsSound(c, ys, steps, k);
    RestMeansPublishedTaken(ys[k]);
    SettledHistoryIsTheLedger(c, ys[k].store, ys[k].bus.sink.tables);
  }

  lemma PublishedMoveIsStored(c: Config, s: Store, u: Update)
    requires StoreInv(c, s) && u in s.published
    ensures u.row.moveId in s.rows
  {
    var row := UpdateHasRow(c, s, u);
  }

  /** The current row's reference to the move table holds for every update that the sink may take. */
  lemma TopicMovesAreStored(c: Config, ys: seq<System>, steps: seq<Step>, k: nat)
    requires MonotoneFeed(c.feed) && Reaches(c, ys, steps) && k < |ys|
    ensures forall u :: u in ys[k].bus.updates ==> u.row.moveId in ys[k].store.rows
  {
    EveryStateIsSound(c, ys, steps, k);
    TopicIsPublished(ys[k]);
    forall u | u in ys[k].bus.updates ensures u.row.moveId in ys[k].store.rows {
      assert u in Elems(ys[k].bus.updates);
      PublishedMoveIsStored(c, ys[k].store, u);
    }
  }

  // ----- what interleaved workers may rely on

  /** In every state, with any number of workers: a version repeats the input of the one before exactly when that one
      was committed from it after the worker's read. */
  lemma RepeatsAreOvertaken(c: Config, ys: seq<System>, steps: seq<Step>, k: nat, w: WorkerId)
    requires MonotoneFeed(c.feed) && Reaches(c, ys, steps) && k < |ys|
    requires AllProceed(ys[k].store) && w in ys[k].store.workers
    ensures RepeatsInput(ys[k].store, w) <==> exists i :: Overtaken(ys[k].store, w, i)
  {
    EveryStateIsSound(c, ys, steps, k);
    RepeatsInputIff(c, ys[k].store, w);
  }

  lemma UndisturbedCommitsAreFresh(c: Config, ys: seq<System>, steps: seq<Step>, k: nat, w: WorkerId)
    requires MonotoneFeed(c.feed) && Reaches(c, ys, steps) && k < |ys|
    requires AllProceed(ys[k].store) && w in ys[k].store.workers && ys[k].store.workers[w].Counted?
    requires Undisturbed(ys[k].store, w)
    ensures FreshCommit(ys[k].store, w)
  {
    EveryStateIsSound(c, ys, steps, k);
    UndisturbedCommit(c, ys[k].store, w);
  }

  ghost predicate Runs(c: Config, y: System, steps: seq<Step>, after: System)
    decreases |steps|
  {
    if steps == [] then y == after else CanStep(c, y, steps[0]) && Runs(c, StepTo(c, y, steps[0]), steps[1..], after)
  }

  lemma RunsOneMore(c: Config, y: System, step: Step, rest: seq<Step>, after: System)
    requires CanStep(c, y, step) && Runs(c, StepTo(c, y, step), rest, after)
    ensures Runs(c, y, [step] + rest, after)
  {
    assert ([step] + rest)[1..] == rest;
  }

  /** A run of the store is a run of the whole system once the requests read are in their topic. */
  lemma {:induction false} StoreRunLifts(c: Config, y: System, ss: seq<StoreStep>, after: Store) returns (steps: seq<Step>, y': System)
    requires StoreLeads(c, y.store, ss, after)
    requires forall i :: 0 <= i < |ss| && ss[i].Read? ==> ss[i].q in y.bus.requests
    ensures Runs(c, y, steps, y') && y'.store == after
    decreases |ss|
  {
    if ss == [] {
      steps, y' := [], y;
    } else {
      var step := OnStore(ss[0], 0);
      var rest;
      rest, y' := StoreRunLifts(c, StepTo(c, y, step), ss[1..], after);
      RunsOneMore(c, y, step, rest, y');
      steps := [step] + rest;
    }
  }

  /** One request is committed and sent. */
  lemma NewsIsRequested() returns (y1: System, y2: System, y3: System)
    ensures CanStep(CONFIG, BEGIN, NewDocumentRequest(NEWS, 0)) && y1 == StepTo(CONFIG, BEGIN, NewDocumentRequest(NEWS, 0))
    ensures CanStep(CONFIG, y1, OnBus(LockBatch(0, {RandomId(0)}))) && y2 == StepTo(CONFIG, y1, OnBus(LockBatch(0, {RandomId(0)})))
    ensures CanStep(CONFIG, y2, OnBus(Produce(0, RandomId(0), true))) && y3 == StepTo(CONFIG, y2, OnBus(Produce(0, RandomId(0), true)))
    ensures y3.store == EMPTY_STORE && NEWS in y3.bus.requests
  {
    y1 := StepTo(CONFIG, BEGIN, NewDocumentRequest(NEWS, 0));
    y2 := StepTo(CONFIG, y1, OnBus(LockBatch(0, {RandomId(0)})));
    y3 := StepTo(CONFIG, y2, OnBus(Produce(0, RandomId(0), true)));
  }

  /** From the beginning, with a feed that meets every hypothesis: one request, two workers that read it before either
      has written, and two shown versions from one input. */
  lemma RepeatIsReachable() returns (steps: seq<Step>, y: System)
    ensures MonotoneFeed(CONFIG.feed) && Runs(CONFIG, BEGIN, steps, y) && Repeated(y.store.signals)
  {
    var y1, y2, y3 := NewsIsRequested();
    var ss, store := TwoWorkersRepeat();
    steps, y := StoreRunLifts(CONFIG, y3, ss, store);
    RunsOneMore(CONFIG, y2, OnBus(Produce(0, RandomId(0), true)), steps, y);
    steps := [OnBus(Produce(0, RandomId(0), true))] + steps;
    RunsOneMore(CONFIG, y1, OnBus(LockBatch(0, {RandomId(0)})), steps, y);
    steps := [OnBus(LockBatch(0, {RandomId(0)}))] + steps;
    RunsOneMore(CONFIG, BEGIN, NewDocumentRequest(NEWS, 0), steps, y);
    steps := [NewDocumentRequest(NEWS, 0)] + steps;
  }

  // ----- rest is always within reach

  /** `steps` are possible one after the other and lead from `b` to `after`. */
  ghost predicate Leads(b: Bus, steps: seq<BusStep>, after: Bus)
    decreases |steps|
  {
    if steps == [] then b == after else Enabled(b, steps[0]) && Leads(Do(b, steps[0]), steps[1..], after)
  }

  lemma {:induction false} LeadsOn(b: Bus, first: seq<BusStep>, middle: Bus, second: seq<BusStep>, after: Bus)
    requires Leads(b, first, middle) && Leads(middle, second, after)
    ensures Leads(b, first + second, after)
    decreases |first|
  {
    if first == [] {
      assert first + second == second;
    } else {
      LeadsOn(Do(b, first[0]), first[1..], middle, second, after);
      assert (first + second)[1..] == first[1..] + second;
    }
  }

  /** Every relay stops. */
  lemma RelaysStop(b: Bus) returns (steps: seq<BusStep>, after: Bus)
    ensures Leads(b, steps, after) && after == b.(relays := map[])
    decreases |b.relays|
  {
    if r :| r in b.relays {
      var s, a := RelaysStop(Do(b, RelayStops(r)));
      steps, after := [RelayStops(r)] + s, a;
      assert steps[1..] == s;
    } else {
      assert b.relays == map[];
      steps, after := [], b;
    }
  }

  /** One relay turn per row, fully acknowledged, empties the outbox. */
  lemma OutboxDrains(b: Bus) returns (steps: seq<BusStep>, after: Bus)
    requires b.relays == map[]
    ensures Leads(b, steps, after)
    ensures after.outbox == map[] && after.sink == b.sink && after.relays == map[]
    decreases |b.outbox|
  {
    if id :| id in b.outbox {
      var turn, b' := TurnOf(b, id);
      var s, a := OutboxDrains(b');
      LeadsOn(b, turn, b', s, a);
      steps, after := turn + s, a;
    } else {
      steps, after := [], b;
    }
  }

  lemma TurnOf(b: Bus, id: EventId) returns (steps: seq<BusStep>, after: Bus)
    requires b.relays == map[] && id in b.outbox
    ensures Leads(b, steps, after)
    ensures after.outbox == b.outbox - {id} && after.sink == b.sink && after.relays == map[]
  {
    var b1 := Do(b, LockBatch(0, {id}));
    var b2 := Do(b1, Produce(0, id, false));
    after := Do(b2, DeleteBatch(0));
    steps := [LockBatch(0, {id}), Produce(0, id, false), DeleteBatch(0)];
    assert Leads(b2, [DeleteBatch(0)], after);
    assert Leads(b1, [Produce(0, id, false), DeleteBatch(0)], after) by {
      assert [Produce(0, id, false), DeleteBatch(0)][1..] == [DeleteBatch(0)];
    }
    assert steps[1..] == [Produce(0, id, false), DeleteBatch(0)];
  }

  lemma SinkTakesOne(b: Bus) returns (after: Bus)
    requires b.sink.applied == b.sink.offset < |b.updates| && Storable(b.updates[b.sink.offset])
    ensures Leads(b, [SinkTransaction, CommitOffset], after)
    ensures after.outbox == b.outbox && after.updates == b.updates && after.sink.applied == after.sink.offset == b.sink.offset + 1
  {
    var taken := Do(b, SinkTransaction);
    after := Do(taken, CommitOffset);
    assert Leads(taken, [CommitOffset], after);
    assert [SinkTransaction, CommitOffset][1..] == [CommitOffset];
  }

  /** The sink takes what is left of its topic, one committed transaction per record. */
  lemma SinkCatchesUp(b: Bus) returns (steps: seq<BusStep>, after: Bus)
    requires b.sink.applied == b.sink.offset <= |b.updates| && forall u :: u in b.updates ==> Storable(u)
    ensures Leads(b, steps, after)
    ensures after.outbox == b.outbox && after.updates == b.updates && after.sink.offset == |b.updates|
    decreases |b.updates| - b.sink.offset
  {
    if b.sink.offset == |b.updates| {
      steps, after := [], b;
    } else {
      var next := SinkTakesOne(b);
      steps, after := SinkCatchesUp(next);
      LeadsOn(b, [SinkTransaction, CommitOffset], next, steps, after);
      steps := [SinkTransaction, CommitOffset] + steps;
    }
  }

  /** From every reachable state some steps of relays and sink alone lead to rest: nothing blocks the chain for good. */
  lemma RestIsReachable(c: Config, ys: seq<System>, steps: seq<Step>, k: nat) returns (more: seq<BusStep>, after: Bus)
    requires MonotoneFeed(c.feed) && Reaches(c, ys, steps) && k < |ys|
    ensures Leads(ys[k].bus, more, after) && AtRest(after)
    ensures after.sink.tables == ApplyAll(EMPTY, ys[k].store.published)
  {
    EveryStateIsSound(c, ys, steps, k);
    var y := ys[k];
    var s1, b1 := RelaysStop(y.bus);
    var s2, b2 := OutboxDrains(b1);
    LeadsOn(y.bus, s1, b1, s2, b2);
    var b3 := Do(b2, SinkRestarts);
    var s3 := [SinkRestarts];
    LeadsOn(y.bus, s1 + s2, b2, s3, b3);
    LeadsKeepsInv(c, y, s1 + s2 + s3, b3);
    PublishedUpdatesConverge(c, y.store);
    TopicIsPublished(y.(bus := b3));
    assert forall u :: u in b3.updates ==> u in Elems(b3.updates);
    var s5, b5 := SinkCatchesUp(b3);
    LeadsOn(y.bus, s1 + s2 + s3, b3, s5, b5);
    more, after := s1 + s2 + s3 + s5, b5;
    LeadsKeepsInv(c, y, more, after);
    RestMeansPublishedTaken(y.(bus := after));
    SettledTables(after.sink.tables, y.store.published, y.store.published);
  }

  lemma {:induction false} LeadsKeepsInv(c: Config, y: System, steps: seq<BusStep>, after: Bus)
    requires MonotoneFeed(c.feed) && Inv(c, y) && Leads(y.bus, steps, after)
    ensures Inv(c, y.(bus := after))
    decreases |steps|
  {
    if steps != [] {
      BusStepKeepsInv(c, y, steps[0]);
      LeadsKeepsInv(c, y.(bus := Do(y.bus, steps[0])), steps[1..], after);
    }
  }
}
