/** The signal ledger, its published updates, and the retry rows. */
module SignalStore {
  import opened Prelude
  import opened ServingSink
  import opened Generation

  /** The input hash, as the value that is hashed. */
  datatype InputHash = InputHash(move: OpenMove, candidates: CandidateSet, promptVersion: string)

  function HashInput(r: GenerationRequest, promptVersion: string): InputHash {
    InputHash(r.move.(enabled := true), r.candidates, promptVersion)
  }

  datatype SignalRow = SignalRow(
    moveId: MoveId, version: int, moveVersion: int, status: Status, headlineRank: Option<int>,
    causes: seq<GeneratedCause>, inputHash: InputHash, asOf: Option<Time>)

  datatype Retry = Retry(target: int, nextAt: Time, error: ErrorKind)

  const RETRY_FIRST_DELAY := 30_000

  // ----- the ledger, in insertion order

  function RowsOf(signals: seq<SignalRow>, m: MoveId): (r: seq<SignalRow>)
    ensures forall x :: x in r ==> x in signals && x.moveId == m
  {
    if signals == [] then []
    else
      var front, last := signals[..|signals| - 1], signals[|signals| - 1];
      RowsOf(front, m) + if last.moveId == m then [last] else []
  }

  /** ORDER BY version DESC LIMIT 1. */
  function LatestSignal(signals: seq<SignalRow>, m: MoveId): Option<SignalRow> {
    if signals == [] then None
    else
      var front, last := LatestSignal(signals[..|signals| - 1], m), signals[|signals| - 1];
      if last.moveId == m && (front.None? || front.value.version < last.version) then Some(last) else front
  }

  /** The latest SHOWN version of one move version; the join needs a cause row. */
  function LatestShown(signals: seq<SignalRow>, m: MoveId, moveVersion: int): Option<SignalRow> {
    if signals == [] then None
    else
      var front, last := LatestShown(signals[..|signals| - 1], m, moveVersion), signals[|signals| - 1];
      if last.moveId == m && last.moveVersion == moveVersion && last.status == Shown
         && (front.None? || front.value.version < last.version)
      then Some(last) else front
  }

  function CurrentOf(signals: seq<SignalRow>, m: MoveId, moveVersion: int): Option<CurrentSignal> {
    match LatestShown(signals, m, moveVersion)
    case None => None
    case Some(s) => if s.causes == [] then None else Some(CurrentSignal(s.version, s.asOf))
  }

  ghost predicate ShownFor(x: SignalRow, m: MoveId, moveVersion: int) {
    x.moveId == m && x.moveVersion == moveVersion && x.status == Shown
  }

  ghost predicate IsLatestShown(signals: seq<SignalRow>, m: MoveId, moveVersion: int, row: SignalRow) {
    && row in signals && ShownFor(row, m, moveVersion)
    && forall x :: x in signals && ShownFor(x, m, moveVersion) ==> x.version <= row.version
  }

  lemma {:induction false} LatestShownIs(signals: seq<SignalRow>, m: MoveId, moveVersion: int)
    ensures match LatestShown(signals, m, moveVersion)
            case None => forall x :: x in signals ==> !ShownFor(x, m, moveVersion)
            case Some(row) => IsLatestShown(signals, m, moveVersion, row)
  {
    if signals != [] {
      LatestShownIs(signals[..|signals| - 1], m, moveVersion);
      assert signals == signals[..|signals| - 1] + [signals[|signals| - 1]];
    }
  }

  /** The current signal is the latest shown version of the move version, if that one has causes. */
  lemma CurrentIs(signals: seq<SignalRow>, m: MoveId, moveVersion: int)
    ensures match CurrentOf(signals, m, moveVersion)
            case None => (exists row :: IsLatestShown(signals, m, moveVersion, row) && row.causes == [])
                         || forall x :: x in signals ==> !ShownFor(x, m, moveVersion)
            case Some(c) => exists row :: IsLatestShown(signals, m, moveVersion, row) && row.causes != []
                                          && c.version == row.version && c.asOf == row.asOf
  {
    LatestShownIs(signals, m, moveVersion);
  }

  /** COALESCE(max(version), 0) + 1. */
  function NextVersion(signals: seq<SignalRow>, m: MoveId): int {
    match LatestSignal(signals, m) case None => 1 case Some(s) => s.version + 1
  }

  /** ON CONFLICT (move_id, version) DO NOTHING. */
  function InsertSignal(signals: seq<SignalRow>, row: SignalRow): seq<SignalRow> {
    if exists i :: 0 <= i < |signals| && signals[i].moveId == row.moveId && signals[i].version == row.version
    then signals else signals + [row]
  }

  ghost predicate KeyedSignals(signals: seq<SignalRow>) {
    forall i, j :: 0 <= i < j < |signals| ==> (signals[i].moveId, signals[i].version) != (signals[j].moveId, signals[j].version)
  }

  /** Inserting keeps the key and every row, and leaves a row with the new key. */
  lemma InsertKeepsKey(signals: seq<SignalRow>, row: SignalRow)
    requires KeyedSignals(signals)
    ensures KeyedSignals(InsertSignal(signals, row)) && signals <= InsertSignal(signals, row)
    ensures exists x :: x in InsertSignal(signals, row) && (x.moveId, x.version) == (row.moveId, row.version)
    ensures forall x :: x in InsertSignal(signals, row) ==> x in signals || x == row
  {
    if i :| 0 <= i < |signals| && signals[i].moveId == row.moveId && signals[i].version == row.version {
      assert signals[i] in signals;
    } else {
      assert row in signals + [row];
    }
  }

  /** The versions of every move are exactly 1, 2, ..., n in insertion order. */
  ghost predicate Numbered(signals: seq<SignalRow>) {
    forall m, k :: 0 <= k < |RowsOf(signals, m)| ==> RowsOf(signals, m)[k].version == k + 1
  }

  lemma {:induction false} LatestIsLastOfMove(signals: seq<SignalRow>, m: MoveId)
    requires forall k :: 0 <= k < |RowsOf(signals, m)| ==> RowsOf(signals, m)[k].version == k + 1
    ensures var rows := RowsOf(signals, m);
            LatestSignal(signals, m) == if rows == [] then None else Some(rows[|rows| - 1])
  {
    if signals != [] {
      var front, last := signals[..|signals| - 1], signals[|signals| - 1];
      var rows := RowsOf(signals, m);
      assert forall k :: 0 <= k < |RowsOf(front, m)| ==> RowsOf(front, m)[k] == rows[k];
      LatestIsLastOfMove(front, m);
    }
  }

  lemma {:induction false} EveryRowIsAmongItsMove(signals: seq<SignalRow>, i: nat)
    requires i < |signals|
    ensures signals[i] in RowsOf(signals, signals[i].moveId)
  {
    if i < |signals| - 1 {
      EveryRowIsAmongItsMove(signals[..|signals| - 1], i);
    }
  }

  /** A row numbered by the counter is inserted and keeps the numbering. */
  lemma InsertNextKeepsNumbered(signals: seq<SignalRow>, row: SignalRow)
    requires Numbered(signals) && row.version == NextVersion(signals, row.moveId)
    ensures InsertSignal(signals, row) == signals + [row]
    ensures Numbered(signals + [row])
    ensures row.version == |RowsOf(signals, row.moveId)| + 1
  {
    LatestIsLastOfMove(signals, row.moveId);
    forall i | 0 <= i < |signals| ensures signals[i].moveId != row.moveId || signals[i].version != row.version {
      EveryRowIsAmongItsMove(signals, i);
    }
    var more := signals + [row];
    assert more[..|more| - 1] == signals;
    forall m, k | 0 <= k < |RowsOf(more, m)| ensures RowsOf(more, m)[k].version == k + 1 {
      assert RowsOf(more, m) == RowsOf(signals, m) + if row.moveId == m then [row] else [];
    }
  }

  /** In a numbered ledger (move, version) is a key. */
  lemma NumberedIsKeyed(signals: seq<SignalRow>, i: nat, j: nat)
    requires Numbered(signals) && i < j < |signals|
    ensures signals[i].moveId != signals[j].moveId || signals[i].version < signals[j].version
    decreases |signals|
  {
    var front, last := signals[..|signals| - 1], signals[|signals| - 1];
    forall m, k | 0 <= k < |RowsOf(front, m)| ensures RowsOf(front, m)[k].version == k + 1 {
      assert RowsOf(front, m)[k] == RowsOf(signals, m)[k];
    }
    if j < |signals| - 1 {
      NumberedIsKeyed(front, i, j);
    } else if signals[i].moveId == last.moveId {
      EveryRowIsAmongItsMove(front, i);
      assert RowsOf(signals, last.moveId) == RowsOf(front, last.moveId) + [last];
      assert RowsOf(signals, last.moveId)[|RowsOf(front, last.moveId)|] == last;
    }
  }

  // ----- publishing

  function DocumentIds(sources: seq<Candidate>): seq<DocumentId> {
    if sources == [] then []
    else (if sources[0].sourceType == Document then [sources[0].sourceId] else []) + DocumentIds(sources[1..])
  }

  function PublishedCause(c: GeneratedCause): Cause {
    var ids := Dedup(DocumentIds(c.sources));
    Cause(c.rank, c.explanation, |ids|, ids)
  }

  function PublishedCauses(causes: seq<GeneratedCause>): seq<Cause> {
    seq(|causes|, i requires 0 <= i < |causes| => PublishedCause(causes[i]))
  }

  function HeadlineLabel(headlineRank: Option<int>, causes: seq<GeneratedCause>): Option<string> {
    if headlineRank.None? then None else LabelOfRank(causes, headlineRank.value)
  }

  function LabelOfRank(causes: seq<GeneratedCause>, rank: int): Option<string> {
    if causes == [] then None
    else if causes[0].rank == rank then Some(causes[0].labelText)
    else LabelOfRank(causes[1..], rank)
  }

  function PublishedUpdate(m: OpenMove, version: int, g: Generated, now: Time): Update {
    Update(Row(m.symbol, m.symbolName, m.moveId, version, m.version, m.windowEnd,
               g.decision.status, HeadlineLabel(g.decision.headlineRank, g.decision.causes), g.decidedBy, now),
           PublishedCauses(g.decision.causes))
  }

  lemma {:induction false} DocumentIdsEmptyIff(sources: seq<Candidate>)
    ensures DocumentIds(sources) == [] <==> forall s :: s in sources ==> s.sourceType != Document
  {
    if sources != [] {
      DocumentIdsEmptyIff(sources[1..]);
      assert sources == [sources[0]] + sources[1..];
    }
  }

  ghost predicate CitesDocument(c: GeneratedCause) {
    exists s :: s in c.sources && s.sourceType == Document
  }

  lemma PublishedCauseValidity(c: GeneratedCause)
    requires 1 <= c.rank <= MAX_CAUSE_RANK
    ensures ValidCause(PublishedCause(c)) <==> CitesDocument(c)
  {
    var ids := DocumentIds(c.sources);
    DedupIsExact(ids);
    DocumentIdsEmptyIff(c.sources);
    if ids != [] {
      assert ids[0] in Elems(ids);
      assert ids[0] in Elems(Dedup(ids));
    }
  }

  lemma {:induction false} KeepValidIsIdentityIff(causes: seq<Cause>)
    ensures KeepValid(causes) == causes <==> forall i :: 0 <= i < |causes| ==> ValidCause(causes[i])
    ensures |KeepValid(causes)| <= |causes|
  {
    if causes != [] {
      KeepValidIsIdentityIff(causes[1..]);
      assert causes == [causes[0]] + causes[1..];
      if ValidCause(causes[0]) {
        assert KeepValid(causes)[1..] == KeepValid(causes[1..]);
        assert forall i :: 1 <= i < |causes| ==> causes[i] == causes[1..][i - 1];
      } else {
        assert |KeepValid(causes)| < |causes|;
      }
    }
  }

  /** The sink serves a shown decision's causes unchanged exactly when each cites a document. */
  lemma PublishedCausesSurviveIff(m: OpenMove, version: int, g: Generated, now: Time)
    requires g.decision.status == Shown && WellRanked(g.decision)
    ensures var u := PublishedUpdate(m, version, g, now);
            ServedCauses(u) == u.causes <==> forall i :: 0 <= i < |g.decision.causes| ==> CitesDocument(g.decision.causes[i])
  {
    var u := PublishedUpdate(m, version, g, now);
    KeepValidIsIdentityIff(u.causes);
    forall i | 0 <= i < |u.causes| ensures ValidCause(u.causes[i]) <==> CitesDocument(g.decision.causes[i]) {
      PublishedCauseValidity(g.decision.causes[i]);
    }
  }

  lemma EventCauseIsDropped(u: Update, event: Candidate)
    requires event.sourceType == EventSource && u.causes == [PublishedCause(LoneCause(event))]
    ensures ServedCauses(u) == []
  {
    assert [event][1..] == [] && DocumentIds([event]) == [] && Dedup<DocumentId>([]) == [];
    assert !ValidCause(u.causes[0]);
    assert u.causes[1..] == [] && KeepValid([]) == [];
  }

  /** An answer that names an event alone is shown with its cause, and the sink serves it with none. */
  lemma EventOnlyCauseIsLost(m: OpenMove, event: Candidate, version: int, asOf: Time, now: Time)
    requires event.sourceType == EventSource
    ensures var r := GenerationRequest(m, CandidateSet([], [event]), None, asOf);
            var g := Generate([Answered(LoneAnswer(m, event))], r, AnyWording);
            && g.decision.status == Shown && g.decision.causes == [LoneCause(event)]
            && ServedCauses(PublishedUpdate(m, version, g, now)) == []
  {
    var r := GenerationRequest(m, CandidateSet([], [event]), None, asOf);
    assert r.candidates.All() == [event];
    LoneAnswerIsAccepted(r, event);
    var g := Generate([Answered(LoneAnswer(m, event))], r, AnyWording);
    assert PublishedCauses([LoneCause(event)]) == [PublishedCause(LoneCause(event))];
    EventCauseIsDropped(PublishedUpdate(m, version, g, now), event);
  }

  ghost predicate RanksAscend(causes: seq<Cause>) {
    forall i, j :: 0 <= i < j < |causes| ==> causes[i].rank < causes[j].rank
  }

  lemma {:induction false} KeepValidKeepsRankOrder(causes: seq<Cause>)
    requires RanksAscend(causes)
    ensures RanksAscend(KeepValid(causes))
    ensures forall x :: x in KeepValid(causes) ==> x in causes
  {
    if causes != [] {
      var rest := KeepValid(causes[1..]);
      KeepValidKeepsRankOrder(causes[1..]);
      forall x | x in rest ensures x in causes && causes[0].rank < x.rank {
        assert x in causes[1..];
        var i :| 1 <= i < |causes| && causes[i] == x;
      }
      if ValidCause(causes[0]) {
        PrependAscends(causes[0], rest);
      } else {
        assert KeepValid(causes) == [] + rest == rest;
      }
    }
  }

  lemma PrependAscends(c: Cause, rest: seq<Cause>)
    requires RanksAscend(rest) && forall x :: x in rest ==> c.rank < x.rank
    ensures RanksAscend([c] + rest)
  {
    forall j | 0 <= j < |rest| ensures c.rank < rest[j].rank {
      assert rest[j] in rest;
    }
  }

  /** What the worker publishes never violates a constraint of the serving tables. */
  lemma PublishedUpdateIsStorable(m: OpenMove, version: int, g: Generated, now: Time, r: GenerationRequest)
    requires DecisionSound(g.decision, r) && version >= 1 && m.version >= 1
    ensures Storable(PublishedUpdate(m, version, g, now))
  {
    var u := PublishedUpdate(m, version, g, now);
    if g.decision.status == Shown && !g.decision.keep {
      assert RanksAscend(u.causes);
      KeepValidKeepsRankOrder(u.causes);
      assert RanksAscend(ServedCauses(u));
    } else {
      assert u.causes == [];
    }
  }

  // ----- what a reader gets of a cause

  /** A document `a` is cited before any citation of document `b`. */
  ghost predicate CitedBefore(sources: seq<Candidate>, a: DocumentId, b: DocumentId) {
    exists k :: CitedAheadAt(sources, a, b, k)
  }

  ghost predicate CitedAheadAt(sources: seq<Candidate>, a: DocumentId, b: DocumentId, k: int) {
    && 0 <= k < |sources| && sources[k].sourceType == Document && sources[k].sourceId == a
    && forall l :: 0 <= l <= k && sources[l].sourceType == Document ==> sources[l].sourceId != b
  }

  /** The published cause has the rank, the explanation, and the documents cited: each once, in the order of first
      citation, and their number. */
  ghost predicate CarriesCause(c: Cause, g: GeneratedCause) {
    && c.rank == g.rank && c.explanation == g.explanation && c.sourceCount == |c.documents|
    && (forall id :: id in c.documents <==> exists s :: s in g.sources && s.sourceType == Document && s.sourceId == id)
    && forall i, j :: 0 <= i < j < |c.documents| ==> CitedBefore(g.sources, c.documents[i], c.documents[j])
  }

  ghost predicate Carries(cs: seq<Cause>, gs: seq<GeneratedCause>) {
    |cs| == |gs| && forall i :: 0 <= i < |cs| ==> CarriesCause(cs[i], gs[i])
  }

  lemma {:induction false} DocumentIdsAre(sources: seq<Candidate>, id: DocumentId)
    ensures id in DocumentIds(sources) <==> exists s :: s in sources && s.sourceType == Document && s.sourceId == id
  {
    if sources != [] {
      DocumentIdsAre(sources[1..], id);
      assert sources == [sources[0]] + sources[1..];
    }
  }

  /** What the first source gives, and what the others give. */
  ghost function FirstIds(sources: seq<Candidate>): seq<DocumentId>
    requires sources != []
  {
    if sources[0].sourceType == Document then [sources[0].sourceId] else []
  }

  lemma PrefixIds(sources: seq<Candidate>, k: nat)
    requires 0 < k <= |sources|
    ensures DocumentIds(sources[..k]) == FirstIds(sources) + DocumentIds(sources[1..][..k - 1])
  {
    assert sources[..k][1..] == sources[1..][..k - 1];
  }

  lemma JoinPrefix(head: seq<DocumentId>, rest: seq<DocumentId>, n: nat)
    requires |head| <= n <= |head| + |rest|
    ensures (head + rest)[..n] == head + rest[..n - |head|]
  {}

  /** The source that gives the `n`-th document id. */
  lemma {:induction false} SourceOfId(sources: seq<Candidate>, n: nat) returns (k: nat)
    requires n < |DocumentIds(sources)|
    ensures k < |sources| && sources[k].sourceType == Document && sources[k].sourceId == DocumentIds(sources)[n]
    ensures DocumentIds(sources[..k + 1]) == DocumentIds(sources)[..n + 1]
  {
    var rest, head := DocumentIds(sources[1..]), FirstIds(sources);
    assert DocumentIds(sources) == head + rest;
    if n < |head| {
      k := 0;
      assert sources[1..][..0] == [] && rest[..0] == [];
    } else {
      var l := SourceOfId(sources[1..], n - |head|);
      k := l + 1;
    }
    PrefixIds(sources, k + 1);
    JoinPrefix(head, rest, n + 1);
  }

  lemma IdsNamedAreCited(sources: seq<Candidate>, a: DocumentId, b: DocumentId)
    requires NamedBefore(DocumentIds(sources), a, b)
    ensures CitedBefore(sources, a, b)
  {
    var ids := DocumentIds(sources);
    var n :| 0 <= n < |ids| && ids[n] == a && b !in ids[..n + 1];
    var k := SourceOfId(sources, n);
    forall l | 0 <= l <= k && sources[l].sourceType == Document ensures sources[l].sourceId != b {
      assert sources[..k + 1][l] == sources[l] && sources[l] in sources[..k + 1];
      DocumentIdsAre(sources[..k + 1], sources[l].sourceId);
    }
    assert CitedAheadAt(sources, a, b, k);
  }

  lemma PublishedCauseCarries(g: GeneratedCause)
    ensures CarriesCause(PublishedCause(g), g)
  {
    var ids := DocumentIds(g.sources);
    var documents := Dedup(ids);
    DedupIsExact(ids);
    forall id ensures id in documents <==> exists s :: s in g.sources && s.sourceType == Document && s.sourceId == id {
      DocumentIdsAre(g.sources, id);
      assert id in documents <==> id in Elems(documents);
    }
    forall i, j | 0 <= i < j < |documents| ensures CitedBefore(g.sources, documents[i], documents[j]) {
      DedupInOrder(ids, i, j);
      IdsNamedAreCited(g.sources, documents[i], documents[j]);
    }
  }

  lemma PublishedCausesCarry(gs: seq<GeneratedCause>)
    ensures Carries(PublishedCauses(gs), gs)
  {
    forall i | 0 <= i < |gs| ensures CarriesCause(PublishedCauses(gs)[i], gs[i]) {
      PublishedCauseCarries(gs[i]);
    }
  }

  /** The headline is the label of the cause with the headline's rank. */
  lemma {:induction false} HeadlineIs(causes: seq<GeneratedCause>, rank: int, first: int)
    requires forall i :: 0 <= i < |causes| ==> causes[i].rank == first + i
    requires first <= rank < first + |causes|
    ensures HeadlineLabel(Some(rank), causes) == Some(causes[rank - first].labelText)
  {
    if rank != first {
      HeadlineIs(causes[1..], rank, first + 1);
    }
  }

  // ----- retry rows

  /** ON CONFLICT: greatest target, earliest next attempt, latest error. */
  function RecordRetry(rs: map<MoveId, Retry>, m: MoveId, target: int, error: ErrorKind, now: Time): map<MoveId, Retry> {
    var nextAt := now + RETRY_FIRST_DELAY;
    if m !in rs then rs[m := Retry(target, nextAt, error)]
    else rs[m := Retry(if rs[m].target < target then target else rs[m].target,
                       if nextAt < rs[m].nextAt then nextAt else rs[m].nextAt, error)]
  }

  function ClearRetry(rs: map<MoveId, Retry>, m: MoveId, version: int): map<MoveId, Retry> {
    if m in rs && rs[m].target <= version then rs - {m} else rs
  }
}
