/**
 * What a worker's commit may rely on. Between its read of the ledger and its commit
 * a worker holds no lock for most of the time, and the check under the lock looks at
 * the move's version alone, so another worker may have added a signal version of the
 * same move in between.
 */
module LedgerLaws {
  import opened Prelude
  import opened ServingSink
  import opened Generation
  import opened SignalStore
  import opened Transport
  import opened MoveSink
  import opened SignalWorker
  import opened Ledger

  /** No version of the worker's move was committed since the worker read the ledger. */
  ghost predicate Undisturbed(s: Store, w: WorkerId)
    requires AllProceed(s) && w in s.workers
  {
    forall i :: s.workers[w].read <= i < |s.signals| ==> s.signals[i].moveId != HeldId(s.workers[w])
  }

  lemma {:induction false} OtherRowsDoNotMatter(signals: seq<SignalRow>, n: nat, id: MoveId, moveVersion: int)
    requires n <= |signals| && forall i :: n <= i < |signals| ==> signals[i].moveId != id
    ensures LatestSignal(signals, id) == LatestSignal(signals[..n], id)
    ensures LatestShown(signals, id, moveVersion) == LatestShown(signals[..n], id, moveVersion)
  {
    if n < |signals| {
      var front := signals[..|signals| - 1];
      OtherRowsDoNotMatter(front, n, id, moveVersion);
      assert front[..n] == signals[..n];
    } else {
      assert signals[..n] == signals;
    }
  }

  lemma {:induction false} NumberedPrefix(signals: seq<SignalRow>, n: nat, id: MoveId)
    requires n <= |signals| && Numbered(signals)
    ensures RowsOf(signals[..n], id) <= RowsOf(signals, id)
    decreases |signals| - n
  {
    if n < |signals| {
      NumberedPrefix(signals, n + 1, id);
      assert signals[..n + 1][..n] == signals[..n];
    } else {
      assert signals[..n] == signals;
    }
  }

  /** To an undisturbed worker the ledger is as it was read. */
  lemma UndisturbedIsMadeFromAll(c: Config, s: Store, w: WorkerId)
    requires StoreInv(c, s) && w in s.workers && Undisturbed(s, w)
    ensures MadeFrom(s.signals, s.workers[w].plan) && PlanSound(c, s.workers[w].plan)
    ensures s.workers[w].Counted? ==> WritesVersion(s.workers[w].plan)
  {
    var ws := s.workers[w];
    assert WorkerSound(c, s.signals, s.rows, ws);
    OtherRowsDoNotMatter(s.signals, ws.read, HeldId(ws), ws.plan.request.move.version);
  }

  /** Row `i` is the last one of its move. */
  ghost predicate IsLastOf(signals: seq<SignalRow>, i: int, id: MoveId) {
    0 <= i < |signals| && signals[i].moveId == id && forall j :: i < j < |signals| ==> signals[j].moveId != id
  }

  lemma LastIsLatest(signals: seq<SignalRow>, i: nat, id: MoveId)
    requires Numbered(signals) && IsLastOf(signals, i, id)
    ensures LatestSignal(signals, id) == Some(signals[i])
  {
    var upTo := signals[..i + 1];
    OtherRowsDoNotMatter(signals, i + 1, id, 0);
    NumberedPrefix(signals, i + 1, id);
    assert upTo[..|upTo| - 1] == signals[..i];
    assert RowsOf(upTo, id) == RowsOf(signals[..i], id) + [signals[i]];
    forall k | 0 <= k < |RowsOf(upTo, id)| ensures RowsOf(upTo, id)[k].version == k + 1 {
      assert RowsOf(upTo, id)[k] == RowsOf(signals, id)[k];
    }
    LatestIsLastOfMove(upTo, id);
  }

  lemma {:induction false} LastRowOf(signals: seq<SignalRow>, k: nat, id: MoveId) returns (i: nat)
    requires k < |signals| && signals[k].moveId == id
    ensures k <= i && IsLastOf(signals, i, id)
    decreases |signals| - k
  {
    if j :| k < j < |signals| && signals[j].moveId == id {
      i := LastRowOf(signals, j, id);
    } else {
      i := k;
    }
  }

  // ----- no version without a new input

  /** The version that the worker would write has the input of the move's latest version. */
  ghost predicate RepeatsInput(s: Store, w: WorkerId)
    requires AllProceed(s) && w in s.workers
  {
    var latest := LatestSignal(s.signals, HeldId(s.workers[w]));
    latest.Some? && latest.value.inputHash == s.workers[w].plan.hash
  }

  /** The move's latest row came after the worker's read and has the worker's input. */
  ghost predicate Overtaken(s: Store, w: WorkerId, i: int)
    requires AllProceed(s) && w in s.workers
  {
    && s.workers[w].read <= i && IsLastOf(s.signals, i, HeldId(s.workers[w]))
    && s.signals[i].inputHash == s.workers[w].plan.hash
  }

  /** A version repeats the input of the one before exactly when that one was committed from the same input after
      the worker's read. */
  lemma RepeatsInputIff(c: Config, s: Store, w: WorkerId)
    requires StoreInv(c, s) && w in s.workers
    ensures RepeatsInput(s, w) <==> exists i :: Overtaken(s, w, i)
  {
    var ws := s.workers[w];
    var id := HeldId(ws);
    if Undisturbed(s, w) {
      UndisturbedIsMadeFromAll(c, s, w);
    } else {
      var k :| ws.read <= k < |s.signals| && s.signals[k].moveId == id;
      var i := LastRowOf(s.signals, k, id);
      LastIsLatest(s.signals, i, id);
      assert RepeatsInput(s, w) ==> Overtaken(s, w, i);
    }
    forall i | Overtaken(s, w, i) ensures RepeatsInput(s, w) {
      LastIsLatest(s.signals, i, id);
    }
  }

  // ----- a rewrite rests on something newer than what it replaces

  /** The version that readers see for the worker's move version. */
  ghost function Replaced(s: Store, w: WorkerId): Option<SignalRow>
    requires AllProceed(s) && w in s.workers
  {
    LatestShown(s.signals, HeldId(s.workers[w]), s.workers[w].plan.request.move.version)
  }

  lemma {:induction false} LatestShownIsShown(signals: seq<SignalRow>, id: MoveId, moveVersion: int)
    ensures var row := LatestShown(signals, id, moveVersion);
            row.Some? ==> row.value in signals && row.value.status == Shown
                          && row.value.moveId == id && row.value.moveVersion == moveVersion
  {
    if signals != [] {
      LatestShownIsShown(signals[..|signals| - 1], id, moveVersion);
    }
  }

  lemma ReplacedIsGrounded(c: Config, s: Store, w: WorkerId)
    requires StoreInv(c, s) && w in s.workers && Replaced(s, w).Some?
    ensures Replaced(s, w).value in s.signals && Grounded(Replaced(s, w).value) && Replaced(s, w).value.status == Shown
  {
    LatestShownIsShown(s.signals, HeldId(s.workers[w]), s.workers[w].plan.request.move.version);
    var i :| 0 <= i < |s.signals| && s.signals[i] == Replaced(s, w).value;
  }

  /** Whatever the model may answer to `r`, an accepted signal cites a source after `t`. */
  ghost predicate AlwaysCitesAfter(r: GenerationRequest, t: Time) {
    forall o, wording :: SchemaValid(o) ==> AcceptedCitesAfter(o, r, wording, t)
  }

  /**
   * Whatever the model answers, a rewrite cites a document newer than the version it replaces, exactly when no
   * candidate it may rest on is as old as that version. That is so when the worker was undisturbed, and never once a
   * version as of the worker's own event time or later is shown, unless there is nothing to rest on.
   */
  lemma RewriteIsNewerIff(c: Config, s: Store, w: WorkerId)
    requires StoreInv(c, s) && w in s.workers && !s.workers[w].plan.stateChange && Replaced(s, w).Some?
    ensures Replaced(s, w).value.asOf.Some?
    ensures var r, t := s.workers[w].plan.request, Replaced(s, w).value.asOf.value;
            && (AlwaysCitesAfter(r, t) <==> forall x :: Suffices(x, r) ==> x.publishedAt > t)
            && (Undisturbed(s, w) ==> AlwaysCitesAfter(r, t))
            && (r.eventTime <= t ==> (AlwaysCitesAfter(r, t) <==> forall x :: !Suffices(x, r)))
  {
    var ws := s.workers[w];
    assert WorkerSound(c, s.signals, s.rows, ws);
    ReplacedIsGrounded(c, s, w);
    var r, t := ws.plan.request, Replaced(s, w).value.asOf.value;
    AnswersCiteAfterIff(r, t);
    if Undisturbed(s, w) {
      UndisturbedIsMadeFromAll(c, s, w);
      assert r.current.Some? && r.current.value.asOf == Some(t);
    }
  }

  // ----- what an undisturbed commit keeps

  /** The row a worker would write. */
  ghost function RowOf(ws: WorkerState): SignalRow
    requires ws.Counted? && ws.plan.Proceed?
  {
    RowFor(ws.plan, ws.version)
  }

  /**
   * The version that the worker would write has another input than the version before; unless a state change asked
   * for it, it comes ten minutes of event time after that one and, when shown, cites a document newer than the
   * version it replaces.
   */
  ghost predicate FreshCommit(s: Store, w: WorkerId)
    requires AllProceed(s) && w in s.workers && s.workers[w].Counted?
  {
    var p, row := s.workers[w].plan, RowOf(s.workers[w]);
    var before := LatestSignal(s.signals, row.moveId);
    && !RepeatsInput(s, w) && row.asOf.Some?
    && (!p.stateChange && before.Some? && before.value.moveVersion == row.moveVersion && before.value.asOf.Some? ==>
          row.asOf.value >= before.value.asOf.value + 600_000)
    && (!p.stateChange && row.status == Shown && Replaced(s, w).Some? ==>
          Replaced(s, w).value.asOf.Some? && CitesAfter(row.causes, Replaced(s, w).value.asOf.value))
  }

  /** With any number of workers, an undisturbed commit is fresh. */
  lemma UndisturbedCommit(c: Config, s: Store, w: WorkerId)
    requires StoreInv(c, s) && w in s.workers && s.workers[w].Counted? && Undisturbed(s, w)
    ensures FreshCommit(s, w)
  {
    UndisturbedIsMadeFromAll(c, s, w);
    if Replaced(s, w).Some? {
      ReplacedIsGrounded(c, s, w);
      RewriteCitesAfter(s.signals, s.workers[w].plan, c.prompt, Replaced(s, w).value);
    }
  }

  lemma RewriteCitesAfter(signals: seq<SignalRow>, p: Plan, prompt: string, shown: SignalRow)
    requires PlanFits(p, prompt) && MadeFrom(signals, p) && Grounded(shown) && shown.status == Shown
    requires LatestShown(signals, p.request.move.moveId, p.request.move.version) == Some(shown)
    ensures !p.stateChange && p.generated.decision.status == Shown && !p.generated.decision.keep ==>
              CitesAfter(p.generated.decision.causes, shown.asOf.value)
  {
    if !p.stateChange && p.generated.decision.status == Shown && !p.generated.decision.keep {
      assert AllowKeep(p.request);
      var x, y :| x in p.generated.decision.causes && y in x.sources && y in p.request.candidates.All() && IsNew(y, p.request);
    }
  }

  // ----- two workers that read one ledger

  /** `steps` are possible one after the other and lead from `s` to `after`. */
  ghost predicate StoreLeads(c: Config, s: Store, steps: seq<StoreStep>, after: Store)
    decreases |steps|
  {
    && AllProceed(s)
    && if steps == [] then s == after else Possible(c, s, steps[0]) && StoreLeads(c, Next(c, s, steps[0]), steps[1..], after)
  }

  lemma {:induction false} StoreLeadsOn(c: Config, s: Store, first: seq<StoreStep>, middle: Store, second: seq<StoreStep>, after: Store)
    requires StoreLeads(c, s, first, middle) && StoreLeads(c, middle, second, after)
    ensures StoreLeads(c, s, first + second, after)
    decreases |first|
  {
    if first == [] {
      assert first + second == second;
    } else {
      StoreLeadsOn(c, Next(c, s, first[0]), first[1..], middle, second, after);
      assert (first + second)[1..] == first[1..] + second;
    }
  }

  /** The worker has made plan `p`, its move is still the version read, and nobody holds its row. */
  ghost predicate Ready(s: Store, w: WorkerId, p: Plan) {
    && AllProceed(s) && w in s.workers && s.workers[w].Planned? && s.workers[w].plan == p && WritesVersion(p)
    && p.request.move.moveId in s.rows && s.rows[p.request.move.moveId].version == p.request.move.version
    && RowFree(s, p.request.move.moveId)
  }

  lemma ReadyWorkerCommits(c: Config, s: Store, w: WorkerId, p: Plan, now: Time) returns (after: Store)
    requires Numbered(s.signals) && Ready(s, w, p)
    ensures StoreLeads(c, s, [Lock(w), Count(w), Commit(w, now)], after)
    ensures after.signals == s.signals + [RowFor(p, NextVersion(s.signals, p.request.move.moveId))] && Numbered(after.signals)
    ensures after.rows == s.rows && after.workers == s.workers - {w}
  {
    var s1 := Next(c, s, Lock(w));
    var s2 := Next(c, s1, Count(w));
    after := Next(c, s2, Commit(w, now));
    InsertNextKeepsNumbered(s.signals, RowFor(p, NextVersion(s.signals, p.request.move.moveId)));
    assert StoreLeads(c, after, [], after);
    assert [Commit(w, now)][1..] == [] && StoreLeads(c, s2, [Commit(w, now)], after);
    assert [Count(w), Commit(w, now)][1..] == [Commit(w, now)] && StoreLeads(c, s1, [Count(w), Commit(w, now)], after);
    assert [Lock(w), Count(w), Commit(w, now)][1..] == [Count(w), Commit(w, now)];
  }

  /** Two workers that made one plan from one ledger both commit it. */
  lemma BothCommit(c: Config, s: Store, v: WorkerId, w: WorkerId, p: Plan, now: Time) returns (steps: seq<StoreStep>, after: Store)
    requires Numbered(s.signals) && v != w && Ready(s, v, p) && Ready(s, w, p)
    ensures StoreLeads(c, s, steps, after)
    ensures forall i :: 0 <= i < |steps| ==> !steps[i].Read?
    ensures var n := NextVersion(s.signals, p.request.move.moveId);
            after.signals == s.signals + [RowFor(p, n), RowFor(p, n + 1)]
  {
    var middle := ReadyWorkerCommits(c, s, v, p, now);
    assert Ready(middle, w, p);
    after := ReadyWorkerCommits(c, middle, w, p, now);
    steps := [Lock(v), Count(v), Commit(v, now)] + [Lock(w), Count(w), Commit(w, now)];
    StoreLeadsOn(c, s, [Lock(v), Count(v), Commit(v, now)], middle, [Lock(w), Count(w), Commit(w, now)], after);
    var n := NextVersion(s.signals, p.request.move.moveId);
    assert middle.signals[..|s.signals|] == s.signals;
    assert LatestSignal(middle.signals, p.request.move.moveId) == Some(RowFor(p, n));
  }

  // ----- the same from nothing, with one document and one request

  const RECORD := MoveRecord(1, Daily, "A", 0, 10, 1.0, Positive, 1)
  const STORED := MoveRow(Daily, "A", 0, 10, 1.0, Positive, None, 1)
  const MOVE := Open(1, STORED, "A")
  const DOCUMENT := JudgedDocument(1, 1, 5, {"A"}, false, 1, "")
  const SOURCE := ToCandidate(DOCUMENT, 0)
  const NEWS := Request("A", NewDocument, 10)
  const ANSWERS := [Answered(LoneAnswer(MOVE, SOURCE))]
  ghost const CONFIG := Config([RECORD], AnyWording, "")

  ghost function NewsPlan(): Plan {
    Prepare([], [DOCUMENT], MOVE, NEWS, ANSWERS, CONFIG.wording, CONFIG.prompt)
  }

  lemma OneCandidate()
    ensures CollectCandidates([DOCUMENT], MOVE, Range(0, 10)) == CandidateSet([SOURCE], [])
  {
    var m, window := MOVE, Range(0, 10);
    assert [DOCUMENT][1..] == [] && Matching([], m, window) == [];
    assert Matching([DOCUMENT], m, window) == [DOCUMENT];
    assert Distinct([]) == [] && Distinct([DOCUMENT]) == [DOCUMENT];
    assert SortBy([], Newer) == [] && SortBy([DOCUMENT], Newer) == [DOCUMENT];
    assert SortBy([], Older) == [] && SortBy([DOCUMENT], Older) == [DOCUMENT];
  }

  ghost function NewsRequest(): GenerationRequest { GenerationRequest(MOVE, CandidateSet([SOURCE], []), None, 10) }

  lemma NewsRequestIs()
    ensures CandidateRange(MOVE).Some? && RequestFor([], [DOCUMENT], MOVE, CandidateRange(MOVE).value, NEWS) == NewsRequest()
  {
    OneCandidate();
    assert CandidateRange(MOVE).value.start == 0 && CandidateRange(MOVE).value.end >= 10;
  }

  lemma NewsAnswerIs()
    ensures var g := Generate(ANSWERS, NewsRequest(), CONFIG.wording);
            g.decision.status == Shown && g.decision.causes == [LoneCause(SOURCE)] && !g.decision.keep && g.lastError == None
  {
    assert NewsRequest().candidates.All() == [SOURCE];
    LoneAnswerIsAccepted(NewsRequest(), SOURCE);
  }

  lemma NewsPlanIs()
    ensures var p := NewsPlan();
            && p.Proceed? && WritesVersion(p) && !p.stateChange && p.request.move == MOVE && p.request.eventTime == 10
            && p.generated.decision.status == Shown && p.generated.decision.causes == [LoneCause(SOURCE)]
  {
    NewsRequestIs();
    NewsAnswerIs();
    assert NewsPlan() == Proceed(NewsRequest(), false, Generate(ANSWERS, NewsRequest(), CONFIG.wording),
                                 HashInput(NewsRequest(), CONFIG.prompt));
  }

  ghost predicate ReadsNewsOnly(steps: seq<StoreStep>) {
    forall i :: 0 <= i < |steps| && steps[i].Read? ==> steps[i].q == NEWS
  }

  /** Both rows are shown for one move version from one input at one event time, and the second cites nothing newer
      than the first. */
  ghost predicate Repeated(signals: seq<SignalRow>) {
    && |signals| == 2 && signals[0].status == signals[1].status == Shown
    && signals[0].moveId == signals[1].moveId && signals[0].moveVersion == signals[1].moveVersion
    && signals[0].inputHash == signals[1].inputHash && signals[0].asOf == signals[1].asOf == Some(10)
    && !CitesAfter(signals[1].causes, 10)
  }

  ghost function ReadNews(w: WorkerId): StoreStep { Read(w, NEWS, 1, "A", [DOCUMENT], ANSWERS) }

  lemma MoveArrives() returns (after: Store)
    ensures StoreLeads(CONFIG, EMPTY_STORE, [Move(Delivery(RECORD, Some(true), None, None))], after)
    ensures after == EMPTY_STORE.(rows := map[1 := STORED])
  {
    var step := Move(Delivery(RECORD, Some(true), None, None));
    after := Next(CONFIG, EMPTY_STORE, step);
    assert after.rows == map[1 := STORED];
    assert [step][1..] == [] && StoreLeads(CONFIG, after, [], after);
  }

  lemma NewsIsRead(s: Store, w: WorkerId) returns (after: Store)
    requires AllProceed(s) && s.signals == [] && s.rows == map[1 := STORED] && w !in s.workers
    ensures StoreLeads(CONFIG, s, [ReadNews(w)], after)
    ensures after == s.(workers := s.workers[w := Planned(NewsPlan(), 0)]) && AllProceed(after)
  {
    NewsPlanIs();
    assert PlanOf(CONFIG, s, NEWS, 1, "A", [DOCUMENT], ANSWERS) == NewsPlan();
    after := s.(workers := s.workers[w := Planned(NewsPlan(), 0)]);
    assert Possible(CONFIG, s, ReadNews(w)) && Next(CONFIG, s, ReadNews(w)) == after;
    assert [ReadNews(w)][1..] == [] && StoreLeads(CONFIG, after, [], after);
  }

  lemma BothReady(s: Store)
    requires s == Store(map[1 := STORED], [], map[0 := Planned(NewsPlan(), 0), 1 := Planned(NewsPlan(), 0)], [])
    ensures Ready(s, 0, NewsPlan()) && Ready(s, 1, NewsPlan())
  {
    NewsPlanIs();
  }

  lemma NewsTwiceRepeats(signals: seq<SignalRow>)
    requires NewsPlan().Proceed? && signals == [RowFor(NewsPlan(), 1), RowFor(NewsPlan(), 2)]
    ensures Repeated(signals)
  {
    NewsPlanIs();
  }

  /** Two workers read the ledger before either has written. */
  lemma BothRead() returns (steps: seq<StoreStep>, after: Store)
    ensures StoreLeads(CONFIG, EMPTY_STORE, steps, after) && ReadsNewsOnly(steps)
    ensures after == Store(map[1 := STORED], [], map[0 := Planned(NewsPlan(), 0), 1 := Planned(NewsPlan(), 0)], [])
  {
    var s1 := MoveArrives();
    var s2 := NewsIsRead(s1, 0);
    after := NewsIsRead(s2, 1);
    var first := [Move(Delivery(RECORD, Some(true), None, None))];
    StoreLeadsOn(CONFIG, EMPTY_STORE, first, s1, [ReadNews(0)], s2);
    StoreLeadsOn(CONFIG, EMPTY_STORE, first + [ReadNews(0)], s2, [ReadNews(1)], after);
    steps := first + [ReadNews(0)] + [ReadNews(1)];
  }

  /** Two workers read one request about a new document and both write a version. */
  lemma TwoWorkersRepeat() returns (steps: seq<StoreStep>, after: Store)
    ensures StoreLeads(CONFIG, EMPTY_STORE, steps, after) && ReadsNewsOnly(steps) && Repeated(after.signals)
  {
    var first, middle := BothRead();
    BothReady(middle);
    var more, end := BothCommit(CONFIG, middle, 0, 1, NewsPlan(), 0);
    StoreLeadsOn(CONFIG, EMPTY_STORE, first, middle, more, end);
    steps, after := first + more, end;
    assert end.signals == [RowFor(NewsPlan(), 1), RowFor(NewsPlan(), 2)];
    NewsTwiceRepeats(end.signals);
  }
}
