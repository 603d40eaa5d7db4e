/**
 * Signal generation: candidate documents, the model's answer, and the decision
 * that is stored and published. The model itself is an arbitrary answer.
 */
module Generation {
  import opened Prelude
  import opened ServingSink

  datatype PriceState = Positive | Negative | Neutral

  /** Layer contributions of a move, present only when the decomposition ran. */
  datatype Contributions = Contributions(global: real, market: real, sector: real, idio: real, dominant: string)

  datatype MoveType = Daily | OtherMove(name: string)

  /** A move as the signal worker reads it. */
  datatype OpenMove = OpenMove(
    moveId: MoveId, moveType: MoveType, symbol: Symbol, symbolName: string, enabled: bool,
    windowStart: Time, windowEnd: Time, returnPct: real, priceState: PriceState,
    contributions: Option<Contributions>, version: int)

  // ----- candidates

  datatype Ref = DocumentRef(n: nat) | OtherRef(text: string)

  datatype SourceType = Document | EventSource

  datatype Candidate = Candidate(
    ref: Ref, sourceType: SourceType, sourceId: DocumentId, sourceVersion: int,
    publishedAt: Time, facts: string)

  datatype CandidateSet = CandidateSet(documents: seq<Candidate>, events: seq<Candidate>) {
    function All(): seq<Candidate> { documents + events }
  }

  datatype Range = Range(start: Time, end: Time)

  const MS_PER_HOUR := 3_600_000
  const KST := 9 * MS_PER_HOUR
  const DAY := 24 * MS_PER_HOUR
  const LAST_SESSION_END := 20 * MS_PER_HOUR

  /** Previous close up to 20:00 KST of the business date, and never before the window's end. */
  function CandidateRange(m: OpenMove): Option<Range> {
    if !m.moveType.Daily? then None
    else
      var businessDate := (m.windowEnd + KST) / DAY;
      var sessionEnd := businessDate * DAY + LAST_SESSION_END - KST;
      Some(Range(m.windowStart, if m.windowEnd < sessionEnd then sessionEnd else m.windowEnd))
  }

  /** The window opens with the move; it closes at 20:00 KST of the day, in KST, on which the move's window ends, or with
      the move when that is later. Other moves have none. */
  lemma RangeIs(m: OpenMove)
    ensures m.moveType != Daily <==> CandidateRange(m) == None
    ensures m.moveType == Daily ==>
              var r := CandidateRange(m).value;
              var evening := r.end + 9 * 3_600_000;
              var close := m.windowEnd + 9 * 3_600_000;
              && r.start == m.windowStart && m.windowEnd <= r.end
              && (close % 86_400_000 <= 72_000_000 ==> evening / 86_400_000 == close / 86_400_000 && evening % 86_400_000 == 72_000_000)
              && (close % 86_400_000 > 72_000_000 ==> r.end == m.windowEnd)
  {
    var businessDate := (m.windowEnd + KST) / DAY;
    assert businessDate * DAY == (m.windowEnd + KST) - (m.windowEnd + KST) % DAY;
  }

  /** One row of the join of a document, its judgement and a linked entity's symbols: a document linked to several
      entities gives several rows. */
  datatype JudgedDocument = JudgedDocument(
    documentId: DocumentId, version: int, publishedAt: Time, tickers: set<Symbol>,
    failed: bool, direction: int, facts: string)

  const MAX_DOCUMENTS := 20

  function Direction(p: PriceState): int {
    match p case Positive => 1 case Negative => -1 case Neutral => 0
  }

  predicate Matches(d: JudgedDocument, m: OpenMove, window: Range) {
    m.symbol in d.tickers && !d.failed && d.direction == Direction(m.priceState)
    && window.start <= d.publishedAt <= window.end
  }

  function Matching(ds: seq<JudgedDocument>, m: OpenMove, window: Range): (r: seq<JudgedDocument>)
    ensures forall d :: d in r <==> d in ds && Matches(d, m, window)
  {
    if ds == [] then []
    else
      assert ds == [ds[0]] + ds[1..];
      (if Matches(ds[0], m, window) then [ds[0]] else []) + Matching(ds[1..], m, window)
  }

  /** The selected columns are the same. */
  predicate SameRow(a: JudgedDocument, b: JudgedDocument) {
    a.documentId == b.documentId && a.version == b.version && a.publishedAt == b.publishedAt && a.facts == b.facts
  }

  ghost predicate HasRow(ds: seq<JudgedDocument>, row: JudgedDocument) {
    exists d :: d in ds && SameRow(d, row)
  }

  /** SELECT DISTINCT: one of the rows that agree in the selected columns. */
  function Distinct(ds: seq<JudgedDocument>): (r: seq<JudgedDocument>)
    ensures forall d :: d in r ==> d in ds
  {
    if ds == [] then []
    else
      var rest := Distinct(ds[1..]);
      assert ds == [ds[0]] + ds[1..];
      if exists d :: d in rest && SameRow(d, ds[0]) then rest else [ds[0]] + rest
  }

  ghost predicate DistinctRows(ds: seq<JudgedDocument>) {
    forall i, j :: 0 <= i < j < |ds| ==> !SameRow(ds[i], ds[j])
  }

  lemma {:induction false} DistinctHasNoDuplicate(ds: seq<JudgedDocument>)
    ensures DistinctRows(Distinct(ds))
  {
    if ds != [] {
      DistinctHasNoDuplicate(ds[1..]);
      var rest := Distinct(ds[1..]);
      if !HasRow(rest, ds[0]) {
        forall j | 0 <= j < |rest| ensures !SameRow(ds[0], rest[j]) {
          assert rest[j] in rest;
        }
      }
    }
  }

  lemma {:induction false} DistinctLosesNoRow(ds: seq<JudgedDocument>, d: JudgedDocument)
    requires d in ds
    ensures HasRow(Distinct(ds), d)
  {
    var rest := Distinct(ds[1..]);
    if d == ds[0] {
      if !HasRow(rest, d) { assert d in [d] + rest; }
    } else {
      assert ds == [ds[0]] + ds[1..];
      DistinctLosesNoRow(ds[1..], d);
      var e :| e in rest && SameRow(e, d);
      assert e in Distinct(ds);
    }
  }

  /** The query's order: newest first, ties by document id. */
  predicate Newer(a: JudgedDocument, b: JudgedDocument) {
    a.publishedAt > b.publishedAt || (a.publishedAt == b.publishedAt && a.documentId <= b.documentId)
  }

  /** The prompt's order: oldest first, ties by document id. */
  predicate Older(a: JudgedDocument, b: JudgedDocument) {
    a.publishedAt < b.publishedAt || (a.publishedAt == b.publishedAt && a.documentId <= b.documentId)
  }

  function Place(d: JudgedDocument, ds: seq<JudgedDocument>, before: (JudgedDocument, JudgedDocument) -> bool): (r: seq<JudgedDocument>)
    ensures multiset(r) == multiset(ds) + multiset{d}
  {
    if ds == [] || before(d, ds[0]) then [d] + ds
    else
      assert ds == [ds[0]] + ds[1..];
      [ds[0]] + Place(d, ds[1..], before)
  }

  function SortBy(ds: seq<JudgedDocument>, before: (JudgedDocument, JudgedDocument) -> bool): (r: seq<JudgedDocument>)
    ensures multiset(r) == multiset(ds)
  {
    if ds == [] then []
    else
      assert ds == [ds[0]] + ds[1..];
      Place(ds[0], SortBy(ds[1..], before), before)
  }

  ghost predicate Sorted(ds: seq<JudgedDocument>, before: (JudgedDocument, JudgedDocument) -> bool) {
    forall i, j :: 0 <= i < j < |ds| ==> before(ds[i], ds[j])
  }

  /** Any two documents are ordered, and the order is transitive. */
  ghost predicate Orders(before: (JudgedDocument, JudgedDocument) -> bool) {
    && (forall a, b :: before(a, b) || before(b, a))
    && (forall a, b, c :: before(a, b) && before(b, c) ==> before(a, c))
  }

  lemma PrependKeepsSorted(d: JudgedDocument, ds: seq<JudgedDocument>, before: (JudgedDocument, JudgedDocument) -> bool)
    requires Sorted(ds, before) && forall e :: e in ds ==> before(d, e)
    ensures Sorted([d] + ds, before)
  {}

  lemma {:induction false} PlaceKeepsSorted(d: JudgedDocument, ds: seq<JudgedDocument>, before: (JudgedDocument, JudgedDocument) -> bool)
    requires Orders(before) && Sorted(ds, before)
    ensures Sorted(Place(d, ds, before), before)
  {
    if ds == [] || before(d, ds[0]) {
      forall e | e in ds ensures before(d, e) {
        var j :| 0 <= j < |ds| && ds[j] == e;
        assert j > 0 ==> before(ds[0], ds[j]);
      }
      PrependKeepsSorted(d, ds, before);
    } else {
      PlaceKeepsSorted(d, ds[1..], before);
      var rest := Place(d, ds[1..], before);
      forall e | e in rest ensures before(ds[0], e) {
        assert e in multiset(rest);
        assert e == d || e in ds[1..];
      }
      PrependKeepsSorted(ds[0], rest, before);
    }
  }

  lemma {:induction false} SortBySorts(ds: seq<JudgedDocument>, before: (JudgedDocument, JudgedDocument) -> bool)
    requires Orders(before)
    ensures Sorted(SortBy(ds, before), before)
  {
    if ds != [] {
      SortBySorts(ds[1..], before);
      PlaceKeepsSorted(ds[0], SortBy(ds[1..], before), before);
    }
  }

  function Newest(ds: seq<JudgedDocument>): seq<JudgedDocument> {
    var sorted := SortBy(ds, Newer);
    if |sorted| <= MAX_DOCUMENTS then sorted else sorted[..MAX_DOCUMENTS]
  }

  function ToCandidate(d: JudgedDocument, index: nat): Candidate {
    Candidate(DocumentRef(index + 1), Document, d.documentId, d.version, d.publishedAt, d.facts)
  }

  /** The registered sources: judged documents, and an event source that returns nothing. */
  function CollectCandidates(ds: seq<JudgedDocument>, m: OpenMove, window: Range): CandidateSet {
    var chosen := SortBy(Newest(Distinct(Matching(ds, m, window))), Older);
    CandidateSet(seq(|chosen|, i requires 0 <= i < |chosen| => ToCandidate(chosen[i], i)), [])
  }

  ghost predicate SoundCandidates(c: CandidateSet, ds: seq<JudgedDocument>, m: OpenMove, window: Range) {
    && c.events == [] && |c.documents| <= 20
    && forall i :: 0 <= i < |c.documents| ==> IsCandidateOf(c.documents[i], i, ds, m, window)
  }

  /** The `i`-th candidate is a judged document about the symbol, in the move's direction and inside the window. */
  ghost predicate IsCandidateOf(c: Candidate, i: nat, ds: seq<JudgedDocument>, m: OpenMove, window: Range) {
    && c.ref == DocumentRef(i + 1) && c.sourceType == Document && window.start <= c.publishedAt <= window.end
    && exists d :: d in ds && CopyOf(c, d) && m.symbol in d.tickers && !d.failed && GoesWith(d.direction, m.priceState)
  }

  ghost predicate CopyOf(c: Candidate, d: JudgedDocument) {
    c.sourceId == d.documentId && c.sourceVersion == d.version && c.publishedAt == d.publishedAt && c.facts == d.facts
  }

  ghost predicate GoesWith(direction: int, p: PriceState) {
    && (p == Positive ==> direction == 1) && (p == Negative ==> direction == -1) && (p == Neutral ==> direction == 0)
  }

  ghost predicate IsAmong(d: JudgedDocument, c: CandidateSet) {
    exists x :: x in c.documents && CopyOf(x, d)
  }

  /** The set is full of documents that are newer than `d`, or as new with a smaller id. */
  ghost predicate CrowdedOut(d: JudgedDocument, c: CandidateSet) {
    |c.documents| == 20
    && forall i :: 0 <= i < |c.documents| ==>
         var x := c.documents[i];
         x.publishedAt > d.publishedAt || (x.publishedAt == d.publishedAt && x.sourceId <= d.documentId)
  }

  lemma SameElements<T>(a: seq<T>, b: seq<T>)
    requires multiset(a) == multiset(b)
    ensures |a| == |b|
    ensures forall x :: x in a <==> x in b
  {
    assert |multiset(a)| == |a| && |multiset(b)| == |b|;
    forall x ensures x in a <==> x in b {
      assert x in a <==> x in multiset(a);
      assert x in b <==> x in multiset(b);
    }
  }

  lemma MatchIsCandidate(d: JudgedDocument, i: nat, ds: seq<JudgedDocument>, m: OpenMove, window: Range)
    requires d in ds && Matches(d, m, window)
    ensures IsCandidateOf(ToCandidate(d, i), i, ds, m, window)
  {
    assert CopyOf(ToCandidate(d, i), d) && GoesWith(d.direction, m.priceState);
  }

  /** Candidates are matching documents inside the window, numbered from 1. */
  lemma CandidatesAreMatches(ds: seq<JudgedDocument>, m: OpenMove, window: Range)
    ensures SoundCandidates(CollectCandidates(ds, m, window), ds, m, window)
  {
    var matching := Distinct(Matching(ds, m, window));
    var newest := Newest(matching);
    var chosen := SortBy(newest, Older);
    SameElements(SortBy(matching, Newer), matching);
    SameElements(chosen, newest);
    forall i | 0 <= i < |chosen| ensures IsCandidateOf(ToCandidate(chosen[i], i), i, ds, m, window) {
      assert chosen[i] in newest;
      assert chosen[i] in SortBy(matching, Newer);
      assert chosen[i] in Matching(ds, m, window);
      MatchIsCandidate(chosen[i], i, ds, m, window);
    }
  }

  /** The primary keys: a document has one version and one judgement of it. */
  ghost predicate KeyedDocuments(ds: seq<JudgedDocument>) {
    forall a, b :: a in ds && b in ds && a.documentId == b.documentId ==>
      a.version == b.version && a.publishedAt == b.publishedAt && a.facts == b.facts
  }

  lemma DistinctRowsSurvive(a: seq<JudgedDocument>, b: seq<JudgedDocument>)
    requires multiset(a) == multiset(b) && DistinctRows(a)
    ensures DistinctRows(b)
  {
    SameElements(a, b);
    forall i, j | 0 <= i < j < |b| ensures !SameRow(b[i], b[j]) {
      TwiceInMultiset(b, i, j);
      OnceInMultiset(a, b[i]);
      var k :| 0 <= k < |a| && a[k] == b[i];
      assert b[j] in a;
      var l :| 0 <= l < |a| && a[l] == b[j];
      if k != l { assert !SameRow(a[k], a[l]) || !SameRow(a[l], a[k]); }
    }
  }

  lemma TwiceInMultiset(b: seq<JudgedDocument>, i: nat, j: nat)
    requires i < j < |b|
    ensures b[i] == b[j] ==> multiset(b)[b[i]] >= 2
  {
    assert b == b[..j] + [b[j]] + b[j + 1..];
    assert b[i] in b[..j];
  }

  lemma {:induction false} OnceInMultiset(a: seq<JudgedDocument>, d: JudgedDocument)
    requires DistinctRows(a)
    ensures multiset(a)[d] <= 1
  {
    if a != [] {
      var front, last := a[..|a| - 1], a[|a| - 1];
      assert a == front + [last];
      OnceInMultiset(front, d);
      assert forall k :: 0 <= k < |front| ==> front[k] == a[k] && !SameRow(a[k], last);
      assert last !in front;
      assert multiset(a) == multiset(front) + multiset{last};
    }
  }

  lemma ChosenRows(rows: seq<JudgedDocument>)
    requires DistinctRows(rows)
    ensures DistinctRows(SortBy(Newest(rows), Older))
    ensures forall d :: d in SortBy(Newest(rows), Older) ==> d in rows
  {
    var byNew, newest := SortBy(rows, Newer), Newest(rows);
    var chosen := SortBy(newest, Older);
    SameElements(byNew, rows);
    SameElements(chosen, newest);
    forall d | d in chosen ensures d in rows {
      assert d in newest;
      assert d in byNew;
    }
    DistinctRowsSurvive(rows, byNew);
    DistinctRowsSurvive(newest, chosen);
  }

  /** Each document is a candidate at most once, however many of its entities are linked to the symbol. */
  lemma CandidatesAreDistinct(ds: seq<JudgedDocument>, m: OpenMove, window: Range)
    requires KeyedDocuments(ds)
    ensures var c := CollectCandidates(ds, m, window);
            forall i, j :: 0 <= i < j < |c.documents| ==> c.documents[i].sourceId != c.documents[j].sourceId
  {
    var rows := Distinct(Matching(ds, m, window));
    var chosen := SortBy(Newest(rows), Older);
    DistinctHasNoDuplicate(Matching(ds, m, window));
    ChosenRows(rows);
    forall i, j | 0 <= i < j < |chosen| ensures chosen[i].documentId != chosen[j].documentId {
      assert chosen[i] in rows && chosen[j] in rows;
      assert !SameRow(chosen[i], chosen[j]);
    }
  }

  /** Candidates come oldest first, and by id where they are equally old. */
  lemma CandidatesAscend(ds: seq<JudgedDocument>, m: OpenMove, window: Range)
    ensures var c := CollectCandidates(ds, m, window).documents;
            forall i, j :: 0 <= i < j < |c| ==>
              c[i].publishedAt < c[j].publishedAt || (c[i].publishedAt == c[j].publishedAt && c[i].sourceId <= c[j].sourceId)
  {
    var newest := Newest(Distinct(Matching(ds, m, window)));
    SortBySorts(newest, Older);
    var chosen := SortBy(newest, Older);
    assert forall i, j :: 0 <= i < j < |chosen| ==> Older(chosen[i], chosen[j]);
  }

  /** A matching document is left out only when twenty that are no older were taken. */
  lemma OnlyOlderDocumentsAreLeftOut(ds: seq<JudgedDocument>, m: OpenMove, window: Range, d: JudgedDocument)
    requires d in ds && m.symbol in d.tickers && !d.failed && GoesWith(d.direction, m.priceState)
    requires window.start <= d.publishedAt <= window.end
    ensures IsAmong(d, CollectCandidates(ds, m, window)) || CrowdedOut(d, CollectCandidates(ds, m, window))
  {
    DistinctLosesNoRow(Matching(ds, m, window), d);
    var e :| e in Distinct(Matching(ds, m, window)) && SameRow(e, d);
    var c := CollectCandidates(ds, m, window);
    DistinctRowIsAmong(Distinct(Matching(ds, m, window)), e, c);
    if x :| x in c.documents && CopyOf(x, e) {
      assert CopyOf(x, d);
    }
  }

  lemma DistinctRowIsAmong(matching: seq<JudgedDocument>, d: JudgedDocument, c: CandidateSet)
    requires d in matching
    requires var chosen := SortBy(Newest(matching), Older);
             c.documents == seq(|chosen|, i requires 0 <= i < |chosen| => ToCandidate(chosen[i], i))
    ensures IsAmong(d, c) || CrowdedOut(d, c)
  {
    var byNew := SortBy(matching, Newer);
    var newest := Newest(matching);
    var chosen := SortBy(newest, Older);
    NewestFirst(matching);
    SameElements(byNew, matching);
    SameElements(chosen, newest);
    var k :| 0 <= k < |byNew| && byNew[k] == d;
    if k < |newest| {
      assert newest[k] == d && d in newest;
      ChosenIsAmong(chosen, d, c);
    } else {
      LaterIsCrowdedOut(byNew, k, chosen, c);
    }
  }

  lemma NewestFirst(ds: seq<JudgedDocument>)
    ensures Sorted(SortBy(ds, Newer), Newer)
  {
    SortBySorts(ds, Newer);
  }

  lemma ChosenIsAmong(chosen: seq<JudgedDocument>, d: JudgedDocument, c: CandidateSet)
    requires d in chosen && |c.documents| == |chosen|
    requires forall i :: 0 <= i < |chosen| ==> c.documents[i] == ToCandidate(chosen[i], i)
    ensures IsAmong(d, c)
  {
    var i :| 0 <= i < |chosen| && chosen[i] == d;
    assert c.documents[i] in c.documents && CopyOf(c.documents[i], d);
  }

  /** Of documents in order, one after the first twenty is crowded out by these. */
  lemma LaterIsCrowdedOut(byNew: seq<JudgedDocument>, k: nat, chosen: seq<JudgedDocument>, c: CandidateSet)
    requires Sorted(byNew, Newer) && 20 <= k < |byNew| && |chosen| == 20 == |c.documents|
    requires forall d :: d in chosen ==> d in byNew[..20]
    requires forall i :: 0 <= i < 20 ==> c.documents[i] == ToCandidate(chosen[i], i)
    ensures CrowdedOut(byNew[k], c)
  {
    forall i | 0 <= i < |c.documents|
      ensures var x := c.documents[i];
              x.publishedAt > byNew[k].publishedAt || (x.publishedAt == byNew[k].publishedAt && x.sourceId <= byNew[k].documentId)
    {
      assert chosen[i] in byNew[..20];
      var j :| 0 <= j < 20 && byNew[j] == chosen[i];
      assert Newer(byNew[j], byNew[k]);
    }
  }

  // ----- the request shown to the model

  datatype CurrentSignal = CurrentSignal(version: int, asOf: Option<Time>)

  datatype GenerationRequest = GenerationRequest(
    move: OpenMove, candidates: CandidateSet, current: Option<CurrentSignal>, eventTime: Time)

  predicate AllowKeep(r: GenerationRequest) { r.current.Some? }

  predicate IsNew(c: Candidate, r: GenerationRequest) {
    r.current.Some? && r.current.value.asOf.Some?
    && r.current.value.asOf.value < c.publishedAt <= r.eventTime
  }

  function NewRefs(r: GenerationRequest): set<Ref> {
    set c | c in r.candidates.All() && IsNew(c, r) :: c.ref
  }

  // ----- the model's answer

  datatype OutputCause = OutputCause(
    rank: int, labelText: string, explanation: string, scope: string, effect: PriceState,
    documentRefs: seq<Ref>, eventRefs: seq<Ref>)

  datatype Output = Output(
    keep: bool, reason: string, headlineRank: int, causes: seq<OutputCause>, probability: real)

  /** What the JSON schema of the answer enforces before the decision is taken. */
  predicate SchemaValid(o: Output) {
    1 <= o.headlineRank <= 3 && |o.causes| <= 3
    && forall i :: 0 <= i < |o.causes| ==> 1 <= o.causes[i].rank <= 3
  }

  datatype GeneratedCause = GeneratedCause(
    rank: int, labelText: string, explanation: string, scope: string, sources: seq<Candidate>)

  datatype Decision = Decision(
    status: Status, headlineRank: Option<int>, causes: seq<GeneratedCause>, probability: Option<real>,
    keep: bool, reason: string, guardApplied: bool)

  const HIDDEN := Decision(Hidden, None, [], None, false, "", false)
  const NO_CANDIDATE := Decision(NoCandidate, None, [], None, false, "", false)

  function Dedup<T(==)>(xs: seq<T>): (r: seq<T>)
    ensures forall x: T {:trigger x in r} :: x in r ==> x in xs
    ensures |r| <= |xs|
  {
    if xs == [] then []
    else
      var front := Dedup(xs[..|xs| - 1]);
      if xs[|xs| - 1] in xs[..|xs| - 1] then front else front + [xs[|xs| - 1]]
  }

  lemma {:induction false} DedupIsExact<T>(xs: seq<T>)
    ensures NoDuplicates(Dedup(xs)) && Elems(Dedup(xs)) == Elems(xs)
  {
    if xs != [] {
      var front, last := xs[..|xs| - 1], xs[|xs| - 1];
      assert xs == front + [last];
      DedupIsExact(front);
      ElemsSnoc(front, last);
      ElemsSnoc(Dedup(front), last);
      assert last in front <==> last in Elems(front);
      assert last !in front ==> last !in Elems(Dedup(front));
    }
  }

  /** The later of two candidates with one ref wins, as in a dict built in order. */
  function ByRef(cs: seq<Candidate>): map<Ref, Candidate> {
    if cs == [] then map[] else ByRef(cs[..|cs| - 1])[cs[|cs| - 1].ref := cs[|cs| - 1]]
  }

  lemma {:induction false} ByRefHoldsCandidates(cs: seq<Candidate>)
    ensures forall r :: r in ByRef(cs) ==> ByRef(cs)[r] in cs && ByRef(cs)[r].ref == r
  {
    if cs != [] {
      ByRefHoldsCandidates(cs[..|cs| - 1]);
    }
  }

  function Lookup(refs: seq<Ref>, byRef: map<Ref, Candidate>): (r: seq<Candidate>)
    ensures forall c :: c in r ==> exists k :: k in refs && k in byRef && byRef[k] == c
  {
    if refs == [] then []
    else
      assert refs == [refs[0]] + refs[1..];
      (if refs[0] in byRef then [byRef[refs[0]]] else []) + Lookup(refs[1..], byRef)
  }

  function SourcesOf(c: OutputCause, byRef: map<Ref, Candidate>): seq<Candidate> {
    Lookup(Dedup(c.documentRefs + c.eventRefs), byRef)
  }

  function InsertByRank(c: OutputCause, cs: seq<OutputCause>): seq<OutputCause> {
    if cs == [] || c.rank <= cs[0].rank then [c] + cs else [cs[0]] + InsertByRank(c, cs[1..])
  }

  /** A stable sort by rank. */
  function SortByRank(cs: seq<OutputCause>): seq<OutputCause> {
    if cs == [] then [] else InsertByRank(cs[0], SortByRank(cs[1..]))
  }

  /** The causes kept so far, the ranks already seen, and the position of the headline. */
  datatype Kept = Kept(causes: seq<GeneratedCause>, seen: set<int>, headline: Option<int>)

  const NOTHING_KEPT := Kept([], {}, None)

  function KeepCause(k: Kept, c: OutputCause, byRef: map<Ref, Candidate>, headlineRank: int): Kept {
    var sources := SourcesOf(c, byRef);
    if sources == [] || c.rank in k.seen then k
    else
      var rank := |k.causes| + 1;
      Kept(k.causes + [GeneratedCause(rank, c.labelText, c.explanation, c.scope, sources)], k.seen + {c.rank},
           if c.rank == headlineRank then Some(rank) else k.headline)
  }

  function KeepAll(k: Kept, cs: seq<OutputCause>, byRef: map<Ref, Candidate>, headlineRank: int): Kept {
    if cs == [] then k
    else KeepCause(KeepAll(k, cs[..|cs| - 1], byRef, headlineRank), cs[|cs| - 1], byRef, headlineRank)
  }

  function Resolve(o: Output, cs: CandidateSet): Option<Decision> {
    var k := KeepAll(NOTHING_KEPT, SortByRank(o.causes), ByRef(cs.All()), o.headlineRank);
    if k.causes == [] || k.headline.None? then None
    else Some(Decision(Shown, k.headline, k.causes, Some(o.probability), false, "", false))
  }

  /** The loop that resolves an answer, over its growing list and rank set. */
  method ResolveOutput(o: Output, cs: CandidateSet) returns (d: Option<Decision>)
    ensures d == Resolve(o, cs)
  {
    var byRef := ByRef(cs.All());
    var causes: seq<GeneratedCause> := [];
    var headline: Option<int> := None;
    var seenRanks: set<int> := {};
    var sorted := SortByRank(o.causes);
    for i := 0 to |sorted|
      invariant Kept(causes, seenRanks, headline) == KeepAll(NOTHING_KEPT, sorted[..i], byRef, o.headlineRank)
    {
      assert sorted[..i + 1][..i] == sorted[..i];
      var cause := sorted[i];
      var sources := SourcesOf(cause, byRef);
      if sources == [] || cause.rank in seenRanks {
        continue;
      }
      seenRanks := seenRanks + {cause.rank};
      var rank := |causes| + 1;
      if cause.rank == o.headlineRank {
        headline := Some(rank);
      }
      causes := causes + [GeneratedCause(rank, cause.labelText, cause.explanation, cause.scope, sources)];
    }
    assert sorted[..|sorted|] == sorted;
    if causes == [] || headline.None? {
      return None;
    }
    return Some(Decision(Shown, headline, causes, Some(o.probability), false, "", false));
  }

  // ----- an independent reading of a resolved answer

  /** The causes of one rank, in the order the model gave them. */
  function OfRank(cs: seq<OutputCause>, rank: int): seq<OutputCause> {
    if cs == [] then []
    else (if cs[0].rank == rank then [cs[0]] else []) + OfRank(cs[1..], rank)
  }

  /** The first cause of a rank with at least one source that is a candidate. */
  function FirstUsable(cs: seq<OutputCause>, rank: int, byRef: map<Ref, Candidate>): Option<OutputCause> {
    if cs == [] then None
    else if cs[0].rank == rank && SourcesOf(cs[0], byRef) != [] then Some(cs[0])
    else FirstUsable(cs[1..], rank, byRef)
  }

  /** Number of ranks up to `rank` that have a usable cause. */
  function UsableUpTo(cs: seq<OutputCause>, rank: nat, byRef: map<Ref, Candidate>): nat {
    if rank == 0 then 0
    else UsableUpTo(cs, rank - 1, byRef) + if FirstUsable(cs, rank, byRef).Some? then 1 else 0
  }

  /** The usable causes of ranks 1..rank, renumbered without holes. */
  function Renumbered(cs: seq<OutputCause>, rank: nat, byRef: map<Ref, Candidate>): (r: seq<GeneratedCause>)
    ensures |r| == UsableUpTo(cs, rank, byRef)
  {
    if rank == 0 then []
    else
      var front := Renumbered(cs, rank - 1, byRef);
      match FirstUsable(cs, rank, byRef)
      case None => front
      case Some(c) =>
        front + [GeneratedCause(|front| + 1, c.labelText, c.explanation, c.scope, SourcesOf(c, byRef))]
  }

  lemma {:induction false} InsertPast(c: OutputCause, low: seq<OutputCause>, high: seq<OutputCause>)
    requires forall x :: x in low ==> x.rank < c.rank
    requires forall x :: x in high ==> x.rank >= c.rank
    ensures InsertByRank(c, low + high) == low + ([c] + high)
  {
    if low != [] {
      InsertPast(c, low[1..], high);
      assert (low + high)[1..] == low[1..] + high;
      assert low == [low[0]] + low[1..];
      assert [low[0]] + (low[1..] + ([c] + high)) == low + ([c] + high);
    } else {
      assert low + high == high;
    }
  }

  lemma JoinsRegroup<T>(a: seq<T>, b: seq<T>, c: seq<T>)
    ensures a + (b + c) == a + b + c
  {}

  lemma InsertIntoGroups(c: OutputCause, g1: seq<OutputCause>, g2: seq<OutputCause>, g3: seq<OutputCause>)
    requires 1 <= c.rank <= 3
    requires forall x :: x in g1 ==> x.rank == 1
    requires forall x :: x in g2 ==> x.rank == 2
    requires forall x :: x in g3 ==> x.rank == 3
    ensures InsertByRank(c, g1 + g2 + g3) ==
            if c.rank == 1 then ([c] + g1) + g2 + g3
            else if c.rank == 2 then g1 + ([c] + g2) + g3
            else g1 + g2 + ([c] + g3)
  {
    JoinsRegroup(g1, g2, g3);
    if c.rank == 1 {
      InsertFirst(c, g1 + (g2 + g3));
      JoinsRegroup([c], g1, g2 + g3);
      JoinsRegroup([c] + g1, g2, g3);
    } else if c.rank == 2 {
      InsertPast(c, g1, g2 + g3);
      JoinsRegroup([c], g2, g3);
      JoinsRegroup(g1, [c] + g2, g3);
    } else {
      InsertPast(c, g1 + g2, g3);
    }
  }

  lemma InsertFirst(c: OutputCause, cs: seq<OutputCause>)
    requires forall x :: x in cs ==> x.rank >= c.rank
    ensures InsertByRank(c, cs) == [c] + cs
  {}

  lemma {:induction false} OfRankIsOfRank(cs: seq<OutputCause>, rank: int)
    ensures forall x :: x in OfRank(cs, rank) ==> x.rank == rank && x in cs
  {
    if cs != [] {
      OfRankIsOfRank(cs[1..], rank);
      assert cs == [cs[0]] + cs[1..];
    }
  }

  /** A stable sort of ranks 1..3 is the three rank groups in order. */
  lemma {:induction false} SortIsGroups(cs: seq<OutputCause>)
    requires forall i :: 0 <= i < |cs| ==> 1 <= cs[i].rank <= 3
    ensures SortByRank(cs) == OfRank(cs, 1) + OfRank(cs, 2) + OfRank(cs, 3)
  {
    if cs != [] {
      var r1, r2, r3 := OfRank(cs[1..], 1), OfRank(cs[1..], 2), OfRank(cs[1..], 3);
      SortIsGroups(cs[1..]);
      OfRankIsOfRank(cs[1..], 1);
      OfRankIsOfRank(cs[1..], 2);
      OfRankIsOfRank(cs[1..], 3);
      InsertIntoGroups(cs[0], r1, r2, r3);
      OfRankSteps(cs, 1);
      OfRankSteps(cs, 2);
      OfRankSteps(cs, 3);
    }
  }

  lemma OfRankSteps(cs: seq<OutputCause>, rank: int)
    requires cs != []
    ensures OfRank(cs, rank) == if cs[0].rank == rank then [cs[0]] + OfRank(cs[1..], rank) else OfRank(cs[1..], rank)
  {
    assert [] + OfRank(cs[1..], rank) == OfRank(cs[1..], rank);
  }

  lemma {:induction false} KeepAllSplits(k: Kept, a: seq<OutputCause>, b: seq<OutputCause>, byRef: map<Ref, Candidate>, h: int)
    ensures KeepAll(k, a + b, byRef, h) == KeepAll(KeepAll(k, a, byRef, h), b, byRef, h)
    decreases |b|
  {
    if b == [] {
      assert a + b == a;
    } else {
      KeepAllSplits(k, a, b[..|b| - 1], byRef, h);
      assert (a + b)[..|a + b| - 1] == a + b[..|b| - 1];
    }
  }

  /** One rank group contributes its first usable cause and nothing else. */
  lemma {:induction false} GroupKeepsFirstUsable(k: Kept, cs: seq<OutputCause>, rank: int, byRef: map<Ref, Candidate>, h: int)
    requires rank !in k.seen
    ensures KeepAll(k, OfRank(cs, rank), byRef, h) ==
            match FirstUsable(cs, rank, byRef) case None => k case Some(c) => KeepCause(k, c, byRef, h)
    ensures FirstUsable(cs, rank, byRef).Some? ==>
              FirstUsable(cs, rank, byRef).value.rank == rank && SourcesOf(FirstUsable(cs, rank, byRef).value, byRef) != []
  {
    if cs != [] {
      var rest := OfRank(cs[1..], rank);
      GroupKeepsFirstUsable(k, cs[1..], rank, byRef, h);
      OfRankSteps(cs, rank);
      if cs[0].rank == rank {
        KeepAllSplits(k, [cs[0]], rest, byRef, h);
        assert [cs[0]][..0] == [];
        assert KeepAll(k, [cs[0]], byRef, h) == KeepCause(k, cs[0], byRef, h);
        if SourcesOf(cs[0], byRef) != [] {
          OfRankIsOfRank(cs[1..], rank);
          SeenRankIsSkipped(KeepCause(k, cs[0], byRef, h), rest, rank, byRef, h);
        }
      }
    }
  }

  lemma {:induction false} SeenRankIsSkipped(k: Kept, cs: seq<OutputCause>, rank: int, byRef: map<Ref, Candidate>, h: int)
    requires rank in k.seen && forall x :: x in cs ==> x.rank == rank
    ensures KeepAll(k, cs, byRef, h) == k
  {
    if cs != [] {
      SeenRankIsSkipped(k, cs[..|cs| - 1], rank, byRef, h);
      assert cs[|cs| - 1] in cs;
    }
  }

  /** What a schema-valid answer resolves to, said without sorting or scanning. */
  lemma ResolvedAnswer(o: Output, cs: CandidateSet)
    requires SchemaValid(o)
    ensures var byRef := ByRef(cs.All());
            Resolve(o, cs) ==
              if FirstUsable(o.causes, o.headlineRank, byRef).None? then None
              else Some(Decision(Shown, Some(UsableUpTo(o.causes, o.headlineRank, byRef)),
                                 Renumbered(o.causes, 3, byRef), Some(o.probability), false, "", false))
  {
    var byRef, h := ByRef(cs.All()), o.headlineRank;
    var g1, g2, g3 := OfRank(o.causes, 1), OfRank(o.causes, 2), OfRank(o.causes, 3);
    SortIsGroups(o.causes);
    KeepAllSplits(NOTHING_KEPT, g1 + g2, g3, byRef, h);
    KeepAllSplits(NOTHING_KEPT, g1, g2, byRef, h);
    var k1 := KeepAll(NOTHING_KEPT, g1, byRef, h);
    var k2 := KeepAll(k1, g2, byRef, h);
    RankStep(NOTHING_KEPT, o, 1, byRef);
    RankStep(k1, o, 2, byRef);
    RankStep(k2, o, 3, byRef);
    UsableUpToGrows(o.causes, o.headlineRank, 3, byRef);
  }

  /** The scan's state after the first `rank` rank groups. */
  ghost predicate AfterRank(k: Kept, o: Output, rank: nat, byRef: map<Ref, Candidate>) {
    && k.causes == Renumbered(o.causes, rank, byRef)
    && (forall r :: r in k.seen ==> 1 <= r <= rank)
    && k.headline == if 1 <= o.headlineRank <= rank && FirstUsable(o.causes, o.headlineRank, byRef).Some?
                     then Some(UsableUpTo(o.causes, o.headlineRank, byRef)) else None
  }

  lemma RankStep(k: Kept, o: Output, rank: nat, byRef: map<Ref, Candidate>)
    requires 1 <= rank && AfterRank(k, o, rank - 1, byRef)
    ensures AfterRank(KeepAll(k, OfRank(o.causes, rank), byRef, o.headlineRank), o, rank, byRef)
  {
    GroupKeepsFirstUsable(k, o.causes, rank, byRef, o.headlineRank);
  }

  // ----- the decision

  predicate EffectOk(o: Output, m: OpenMove) {
    forall i :: 0 <= i < |o.causes| ==> o.causes[i].effect == m.priceState
  }

  function Cited(causes: seq<GeneratedCause>): set<Ref> {
    set c, s | c in causes && s in c.sources :: s.ref
  }

  const GUARD_REASON := "no new source cited"

  /** Validate an answer; None is a schema failure. Wording rules are an arbitrary predicate. */
  function Decide(o: Output, r: GenerationRequest, wording: GeneratedCause -> bool): Option<Decision> {
    if o.keep then
      if AllowKeep(r) then Some(Decision(Shown, None, [], None, true, o.reason, false)) else None
    else if !EffectOk(o, r.move) then None
    else
      match Resolve(o, r.candidates)
      case None => None
      case Some(d) =>
        if exists i :: 0 <= i < |d.causes| && !wording(d.causes[i]) then None
        else if AllowKeep(r) && Cited(d.causes) * NewRefs(r) == {} then
          Some(Decision(Shown, None, [], None, true, GUARD_REASON, true))
        else Some(d.(reason := o.reason))
  }

  datatype ErrorKind = ErrorKind(name: string)

  const SCHEMA := ErrorKind("SCHEMA")

  /** What one model step did: an error of its own, or a schema-valid answer. */
  datatype Answer = ModelError(kind: ErrorKind) | Answered(output: Output)

  datatype Generated = Generated(decision: Decision, decidedBy: Option<string>, lastError: Option<ErrorKind>)

  predicate LlmFailed(g: Generated) { g.decision.status == Hidden && g.lastError.Some? }

  /** The model steps in order, then the terminal step that hides the signal. */
  function RunSteps(answers: seq<Answer>, r: GenerationRequest, wording: GeneratedCause -> bool, lastError: Option<ErrorKind>): Generated {
    if answers == [] then Generated(HIDDEN, None, lastError)
    else
      match answers[0]
      case ModelError(kind) => RunSteps(answers[1..], r, wording, Some(kind))
      case Answered(o) =>
        match Decide(o, r, wording)
        case None => RunSteps(answers[1..], r, wording, Some(SCHEMA))
        case Some(d) => Generated(d, Some("llm"), lastError)
  }

  function Generate(answers: seq<Answer>, r: GenerationRequest, wording: GeneratedCause -> bool): Generated {
    if r.candidates.All() == [] then Generated(NO_CANDIDATE, None, None)
    else RunSteps(answers, r, wording, None)
  }

  // ----- what every stored decision satisfies

  /** Causes ranked 1..k with k <= 3, each with a source, and a headline among them. */
  ghost predicate WellRanked(d: Decision) {
    && 1 <= |d.causes| <= 3
    && (forall i :: 0 <= i < |d.causes| ==> d.causes[i].rank == i + 1 && d.causes[i].sources != [])
    && d.headlineRank.Some? && 1 <= d.headlineRank.value <= |d.causes|
  }

  ghost predicate CitesCandidates(d: Decision, cs: CandidateSet) {
    forall c, s :: c in d.causes && s in c.sources ==> s in cs.All()
  }

  /** Some cited source was published after the signal the answer replaces. */
  ghost predicate CitesNewer(d: Decision, r: GenerationRequest) {
    exists c, s :: c in d.causes && s in c.sources && s in r.candidates.All() && IsNew(s, r)
  }

  ghost predicate DecisionSound(d: Decision, r: GenerationRequest) {
    if d.status == Shown && !d.keep
    then WellRanked(d) && CitesCandidates(d, r.candidates) && (AllowKeep(r) ==> CitesNewer(d, r))
    else d.causes == [] && d.headlineRank == None && (d.keep ==> d.status == Shown && AllowKeep(r))
         && !d.status.Unrecognised?
  }

  ghost predicate UniqueRefs(cs: CandidateSet) {
    forall x, y :: x in cs.All() && y in cs.All() && x.ref == y.ref ==> x == y
  }

  ghost predicate AnswersValid(answers: seq<Answer>) {
    forall i :: 0 <= i < |answers| && answers[i].Answered? ==> SchemaValid(answers[i].output)
  }

  lemma {:induction false} FirstUsableIsUsable(cs: seq<OutputCause>, rank: int, byRef: map<Ref, Candidate>)
    ensures FirstUsable(cs, rank, byRef).Some? ==> SourcesOf(FirstUsable(cs, rank, byRef).value, byRef) != []
  {
    if cs != [] {
      FirstUsableIsUsable(cs[1..], rank, byRef);
    }
  }

  lemma {:induction false} RenumberedIsSound(cs: seq<OutputCause>, rank: nat, candidates: seq<Candidate>)
    ensures var r := Renumbered(cs, rank, ByRef(candidates));
            && |r| <= rank
            && (forall i :: 0 <= i < |r| ==> r[i].rank == i + 1 && r[i].sources != [])
            && (forall c, s :: c in r && s in c.sources ==> s in candidates)
  {
    var byRef := ByRef(candidates);
    if rank > 0 {
      RenumberedIsSound(cs, rank - 1, candidates);
      FirstUsableIsUsable(cs, rank, byRef);
      ByRefHoldsCandidates(candidates);
    }
  }

  lemma {:induction false} UsableUpToGrows(cs: seq<OutputCause>, rank: nat, top: nat, byRef: map<Ref, Candidate>)
    requires 1 <= rank <= top
    ensures UsableUpTo(cs, rank, byRef) <= UsableUpTo(cs, top, byRef)
    ensures FirstUsable(cs, rank, byRef).Some? ==> 1 <= UsableUpTo(cs, rank, byRef)
  {
    if rank < top {
      UsableUpToGrows(cs, rank, top - 1, byRef);
    }
  }

  /** Every decision taken on an answer is sound for the request it answers. */
  lemma DecideIsSound(o: Output, r: GenerationRequest, wording: GeneratedCause -> bool)
    requires SchemaValid(o) && UniqueRefs(r.candidates)
    ensures Decide(o, r, wording).Some? ==> DecisionSound(Decide(o, r, wording).value, r)
  {
    var candidates := r.candidates.All();
    ResolvedAnswer(o, r.candidates);
    RenumberedIsSound(o.causes, 3, candidates);
    UsableUpToGrows(o.causes, o.headlineRank, 3, ByRef(candidates));
    var resolved := Resolve(o, r.candidates);
    if resolved.Some? && AllowKeep(r) && Cited(resolved.value.causes) * NewRefs(r) != {} {
      CitedNewRefIsNewSource(resolved.value.causes, r);
    }
  }

  /** Refs are unique, so a cited new ref is a cited new source. */
  lemma CitedNewRefIsNewSource(causes: seq<GeneratedCause>, r: GenerationRequest)
    requires forall c, s :: c in causes && s in c.sources ==> s in r.candidates.All()
    requires Cited(causes) * NewRefs(r) != {}
    requires UniqueRefs(r.candidates)
    ensures exists c, s :: c in causes && s in c.sources && s in r.candidates.All() && IsNew(s, r)
  {
    var ref :| ref in Cited(causes) * NewRefs(r);
    var c, s :| c in causes && s in c.sources && s.ref == ref;
    var n :| n in r.candidates.All() && IsNew(n, r) && n.ref == ref;
    assert s == n;
  }

  // ----- what an answer may cite

  /** An answer with one cause that names one candidate. */
  function LoneAnswer(m: OpenMove, c: Candidate): Output {
    Output(false, "", 1, [OutputCause(1, "", "", "", m.priceState, if c.sourceType == Document then [c.ref] else [],
                                      if c.sourceType == Document then [] else [c.ref])], 1.0)
  }

  function LoneCause(c: Candidate): GeneratedCause { GeneratedCause(1, "", "", "", [c]) }

  lemma {:induction false} ByRefFinds(cs: seq<Candidate>, c: Candidate)
    requires c in cs && forall x :: x in cs && x.ref == c.ref ==> x == c
    ensures c.ref in ByRef(cs) && ByRef(cs)[c.ref] == c
  {
    var front, last := cs[..|cs| - 1], cs[|cs| - 1];
    if last != c {
      assert c in front;
      ByRefFinds(front, c);
    }
  }

  lemma OneRefResolves(c: OutputCause, ref: Ref, byRef: map<Ref, Candidate>)
    requires c.documentRefs + c.eventRefs == [ref] && ref in byRef
    ensures SourcesOf(c, byRef) == [byRef[ref]]
  {
    assert Dedup([ref]) == [ref] by {
      assert [ref][..0] == [] && Dedup<Ref>([]) == [];
    }
    assert [ref][1..] == [] && Lookup([], byRef) == [];
    assert Lookup([ref], byRef) == [byRef[ref]];
  }

  lemma LoneCauseIsKept(o: OutputCause, source: Candidate, byRef: map<Ref, Candidate>)
    requires o.rank == 1 && SourcesOf(o, byRef) == [source]
    ensures KeepAll(NOTHING_KEPT, [o], byRef, 1)
            == Kept([GeneratedCause(1, o.labelText, o.explanation, o.scope, [source])], {1}, Some(1))
  {
    assert [o][..0] == [] && KeepAll(NOTHING_KEPT, [], byRef, 1) == NOTHING_KEPT;
    assert {} + {1} == {1};
  }

  lemma LoneAnswerResolves(m: OpenMove, c: Candidate, cs: CandidateSet)
    requires c in cs.All() && UniqueRefs(cs)
    ensures Resolve(LoneAnswer(m, c), cs) == Some(Decision(Shown, Some(1), [LoneCause(c)], Some(1.0), false, "", false))
  {
    var cause, byRef := LoneAnswer(m, c).causes[0], ByRef(cs.All());
    ByRefFinds(cs.All(), c);
    OneRefResolves(cause, c.ref, byRef);
    LoneCauseIsKept(cause, c, byRef);
    assert [cause][1..] == [] && SortByRank([]) == [] && SortByRank([cause]) == [cause];
  }

  /** Wording rules that let everything pass. */
  predicate AnyWording(c: GeneratedCause) { true }

  /** Some cited source was published after `t`. */
  ghost predicate CitesAfter(causes: seq<GeneratedCause>, t: Time) {
    exists c, s :: c in causes && s in c.sources && s.publishedAt > t
  }

  /** A candidate on which an accepted answer may rest alone. */
  ghost predicate Suffices(c: Candidate, r: GenerationRequest) {
    c in r.candidates.All() && (AllowKeep(r) ==> IsNew(c, r))
  }

  ghost predicate AcceptedCitesAfter(o: Output, r: GenerationRequest, wording: GeneratedCause -> bool, t: Time) {
    var d := Decide(o, r, wording);
    d.Some? && !d.value.keep ==> CitesAfter(d.value.causes, t)
  }

  /** Every signal that an answer to `r` may lead to cites a source after `t` exactly when no candidate it may rest
      on alone is as old as `t`. */
  lemma AnswersCiteAfterIff(r: GenerationRequest, t: Time)
    requires UniqueRefs(r.candidates)
    ensures (forall o, wording :: SchemaValid(o) ==> AcceptedCitesAfter(o, r, wording, t))
            <==> forall c :: Suffices(c, r) ==> c.publishedAt > t
  {
    if c :| Suffices(c, r) && c.publishedAt <= t {
      LoneAnswerIsAccepted(r, c);
      assert !AcceptedCitesAfter(LoneAnswer(r.move, c), r, AnyWording, t);
    } else {
      forall o, wording | SchemaValid(o) ensures AcceptedCitesAfter(o, r, wording, t) {
        DecideIsSound(o, r, wording);
        AcceptedRestsOn(o, r, wording);
      }
    }
  }

  lemma ResolvedIsAccepted(o: Output, r: GenerationRequest, d: Decision)
    requires !o.keep && EffectOk(o, r.move) && Resolve(o, r.candidates) == Some(d)
    requires AllowKeep(r) ==> Cited(d.causes) * NewRefs(r) != {}
    ensures Decide(o, r, AnyWording) == Some(d.(reason := o.reason))
  {}

  lemma LoneAnswerIsAccepted(r: GenerationRequest, c: Candidate)
    requires UniqueRefs(r.candidates) && Suffices(c, r)
    ensures SchemaValid(LoneAnswer(r.move, c))
    ensures Decide(LoneAnswer(r.move, c), r, AnyWording)
            == Some(Decision(Shown, Some(1), [LoneCause(c)], Some(1.0), false, "", false))
  {
    var d := Decision(Shown, Some(1), [LoneCause(c)], Some(1.0), false, "", false);
    LoneAnswerResolves(r.move, c, r.candidates);
    if AllowKeep(r) {
      assert LoneCause(c) in d.causes && c in LoneCause(c).sources;
      assert c.ref in Cited(d.causes) * NewRefs(r);
    }
    ResolvedIsAccepted(LoneAnswer(r.move, c), r, d);
  }

  /** An accepted answer cites a candidate on which it may rest alone. */
  lemma AcceptedRestsOn(o: Output, r: GenerationRequest, wording: GeneratedCause -> bool)
    requires SchemaValid(o) && UniqueRefs(r.candidates)
    ensures var d := Decide(o, r, wording);
            d.Some? && !d.value.keep ==> exists c, s :: c in d.value.causes && s in c.sources && Suffices(s, r)
  {
    DecideIsSound(o, r, wording);
    var d := Decide(o, r, wording);
    if d.Some? && !d.value.keep {
      SoundDecisionRestsOn(d.value, r);
    }
  }

  lemma SoundDecisionRestsOn(d: Decision, r: GenerationRequest)
    requires DecisionSound(d, r) && d.status == Shown && !d.keep
    ensures exists c, s :: c in d.causes && s in c.sources && Suffices(s, r)
  {
    if AllowKeep(r) {
      var c, s :| c in d.causes && s in c.sources && s in r.candidates.All() && IsNew(s, r);
      assert Suffices(s, r);
    } else {
      var c := d.causes[0];
      assert c in d.causes && c.sources[0] in c.sources;
      assert Suffices(c.sources[0], r);
    }
  }

  // ----- what an answer comes to

  /** `a` is named before any mention of `b`. */
  ghost predicate NamedBefore<T>(xs: seq<T>, a: T, b: T) {
    exists k :: 0 <= k < |xs| && xs[k] == a && b !in xs[..k + 1]
  }

  lemma NamedBeforeGrows<T>(xs: seq<T>, more: seq<T>, a: T, b: T)
    requires NamedBefore(xs, a, b)
    ensures NamedBefore(xs + more, a, b)
  {
    var k :| 0 <= k < |xs| && xs[k] == a && b !in xs[..k + 1];
    assert (xs + more)[k] == a && (xs + more)[..k + 1] == xs[..k + 1];
  }

  lemma NamedBeforeNew<T>(xs: seq<T>, a: T, b: T)
    requires a in xs && b !in xs
    ensures NamedBefore(xs + [b], a, b)
  {
    var k :| 0 <= k < |xs| && xs[k] == a;
    assert (xs + [b])[k] == a && (xs + [b])[..k + 1] == xs[..k + 1];
  }

  lemma {:induction false} DedupInOrder<T>(xs: seq<T>, i: nat, j: nat)
    requires i < j < |Dedup(xs)|
    ensures NamedBefore(xs, Dedup(xs)[i], Dedup(xs)[j])
  {
    var front, last := xs[..|xs| - 1], xs[|xs| - 1];
    assert xs == front + [last];
    if j < |Dedup(front)| {
      DedupInOrder(front, i, j);
      NamedBeforeGrows(front, [last], Dedup(xs)[i], Dedup(xs)[j]);
    } else {
      assert Dedup(front)[i] in Dedup(front);
      NamedBeforeNew(front, Dedup(xs)[i], last);
    }
  }

  lemma {:induction false} LookupFinds(refs: seq<Ref>, byRef: map<Ref, Candidate>, ref: Ref)
    requires ref in refs && ref in byRef
    ensures byRef[ref] in Lookup(refs, byRef)
  {
    if refs[0] != ref {
      assert refs == [refs[0]] + refs[1..];
      LookupFinds(refs[1..], byRef, ref);
    }
  }

  /** What is looked up keeps the order of the refs. */
  lemma {:induction false} LookupInOrder(refs: seq<Ref>, byRef: map<Ref, Candidate>, i: nat, j: nat) returns (p: nat, q: nat)
    requires i < j < |Lookup(refs, byRef)|
    ensures p < q < |refs| && refs[p] in byRef && refs[q] in byRef
    ensures byRef[refs[p]] == Lookup(refs, byRef)[i] && byRef[refs[q]] == Lookup(refs, byRef)[j]
  {
    var head := if refs[0] in byRef then 1 else 0;
    if i >= head {
      p, q := LookupInOrder(refs[1..], byRef, i - head, j - head);
      p, q := p + 1, q + 1;
    } else {
      var rest := Lookup(refs[1..], byRef);
      assert rest[j - 1] in rest;
      var ref :| ref in refs[1..] && ref in byRef && byRef[ref] == rest[j - 1];
      var k :| 0 <= k < |refs[1..]| && refs[1..][k] == ref;
      p, q := 0, k + 1;
    }
  }

  /** The sources of a cause are the candidates it names, each once, in the order in which it names them first. */
  lemma SourcesAre(c: OutputCause, cs: CandidateSet)
    requires UniqueRefs(cs)
    ensures var sources, refs := SourcesOf(c, ByRef(cs.All())), c.documentRefs + c.eventRefs;
            && (forall s :: s in sources <==> s in cs.All() && s.ref in refs)
            && (forall i, j :: 0 <= i < j < |sources| ==> NamedBefore(refs, sources[i].ref, sources[j].ref))
  {
    var byRef, refs := ByRef(cs.All()), c.documentRefs + c.eventRefs;
    var sources := Lookup(Dedup(refs), byRef);
    ByRefHoldsCandidates(cs.All());
    DedupIsExact(refs);
    forall s ensures s in sources <==> s in cs.All() && s.ref in refs {
      if s in cs.All() && s.ref in refs {
        ByRefFinds(cs.All(), s);
        assert s.ref in Elems(refs) && s.ref in Elems(Dedup(refs));
        LookupFinds(Dedup(refs), byRef, s.ref);
      }
    }
    forall i, j | 0 <= i < j < |sources| ensures NamedBefore(refs, sources[i].ref, sources[j].ref) {
      var p, q := LookupInOrder(Dedup(refs), byRef, i, j);
      DedupInOrder(refs, p, q);
    }
  }

  /** The answer cannot be used: it keeps without a current signal, pushes the price another way, leaves its headline
      without a candidate, or breaks a wording rule. */
  ghost predicate Unusable(o: Output, r: GenerationRequest, wording: GeneratedCause -> bool) {
    var byRef := ByRef(r.candidates.All());
    if o.keep then r.current == None
    else || (exists c :: c in o.causes && c.effect != r.move.priceState)
         || FirstUsable(o.causes, o.headlineRank, byRef) == None
         || exists c :: c in Renumbered(o.causes, 3, byRef) && !wording(c)
  }

  /** A rewrite that cites nothing published after the current signal's event time, up to the request's own. */
  ghost predicate NothingNewer(causes: seq<GeneratedCause>, r: GenerationRequest) {
    && r.current.Some?
    && forall c, s :: c in causes && s in c.sources && r.current.value.asOf.Some? ==>
         s.publishedAt <= r.current.value.asOf.value || s.publishedAt > r.eventTime
  }

  /** Which answers are refused, which keep the current signal and why, and which are shown with what. */
  lemma DecideIs(o: Output, r: GenerationRequest, wording: GeneratedCause -> bool)
    requires SchemaValid(o) && UniqueRefs(r.candidates)
    ensures var byRef := ByRef(r.candidates.All());
            var causes := Renumbered(o.causes, 3, byRef);
            Decide(o, r, wording) ==
              if Unusable(o, r, wording) then None
              else if o.keep then Some(Decision(Shown, None, [], None, true, o.reason, false))
              else if NothingNewer(causes, r) then Some(Decision(Shown, None, [], None, true, "no new source cited", true))
              else Some(Decision(Shown, Some(UsableUpTo(o.causes, o.headlineRank, byRef)), causes, Some(o.probability), false, o.reason, false))
  {
    var byRef := ByRef(r.candidates.All());
    var causes := Renumbered(o.causes, 3, byRef);
    ResolvedAnswer(o, r.candidates);
    RenumberedIsSound(o.causes, 3, r.candidates.All());
    EffectMeans(o, r.move);
    NothingNewerIs(causes, r);
    WordingMeans(causes, wording);
  }

  lemma EffectMeans(o: Output, m: OpenMove)
    ensures EffectOk(o, m) <==> !exists c :: c in o.causes && c.effect != m.priceState
  {
    forall i | 0 <= i < |o.causes| && o.causes[i].effect != m.priceState
      ensures exists c :: c in o.causes && c.effect != m.priceState
    {
      assert o.causes[i] in o.causes;
    }
  }

  lemma WordingMeans(causes: seq<GeneratedCause>, wording: GeneratedCause -> bool)
    ensures (exists i :: 0 <= i < |causes| && !wording(causes[i])) <==> exists c :: c in causes && !wording(c)
  {
    if i :| 0 <= i < |causes| && !wording(causes[i]) {
      assert causes[i] in causes;
    }
  }

  lemma NothingNewerIs(causes: seq<GeneratedCause>, r: GenerationRequest)
    requires UniqueRefs(r.candidates) && forall c, s :: c in causes && s in c.sources ==> s in r.candidates.All()
    ensures NothingNewer(causes, r) <==> AllowKeep(r) && Cited(causes) * NewRefs(r) == {}
  {
    if AllowKeep(r) && Cited(causes) * NewRefs(r) != {} {
      CitedNewRefIsNewSource(causes, r);
      var c, s :| c in causes && s in c.sources && s in r.candidates.All() && IsNew(s, r);
      assert r.current.value.asOf.Some? && s.publishedAt > r.current.value.asOf.value && s.publishedAt <= r.eventTime;
    } else if AllowKeep(r) {
      forall c, s | c in causes && s in c.sources && r.current.value.asOf.Some?
        ensures s.publishedAt <= r.current.value.asOf.value || s.publishedAt > r.eventTime
      {
        assert s.ref in Cited(causes);
        assert s.ref !in Cited(causes) * NewRefs(r);
        assert s in r.candidates.All() && !IsNew(s, r);
      }
    }
  }

  /** The step was answered, and the answer decides. */
  ghost predicate Decides(a: Answer, r: GenerationRequest, wording: GeneratedCause -> bool) {
    a.Answered? && Decide(a.output, r, wording).Some?
  }

  /** The error that a step leaves when it decides nothing. */
  ghost function ErrorOf(a: Answer): ErrorKind {
    match a case ModelError(kind) => kind case Answered(_) => ErrorKind("SCHEMA")
  }

  ghost predicate FirstDeciding(answers: seq<Answer>, r: GenerationRequest, wording: GeneratedCause -> bool, i: int) {
    0 <= i < |answers| && Decides(answers[i], r, wording) && forall j :: 0 <= j < i ==> !Decides(answers[j], r, wording)
  }

  lemma {:induction false} RunStepsIs(answers: seq<Answer>, r: GenerationRequest, wording: GeneratedCause -> bool, e: Option<ErrorKind>)
    ensures var g := RunSteps(answers, r, wording, e);
            && (forall i :: FirstDeciding(answers, r, wording, i) ==>
                  g == Generated(Decide(answers[i].output, r, wording).value, Some("llm"), if i == 0 then e else Some(ErrorOf(answers[i - 1]))))
            && ((forall a :: a in answers ==> !Decides(a, r, wording)) ==>
                  g == Generated(Decision(Hidden, None, [], None, false, "", false), None,
                                 if answers == [] then e else Some(ErrorOf(answers[|answers| - 1]))))
  {
    if answers == [] {
      assert forall i :: !FirstDeciding([], r, wording, i);
    } else if Decides(answers[0], r, wording) {
      assert answers[0] in answers;
      FirstDecides(answers, r, wording, e);
    } else {
      var rest := answers[1..];
      assert answers == [answers[0]] + rest;
      RunStepsIs(rest, r, wording, Some(ErrorOf(answers[0])));
      forall i | FirstDeciding(answers, r, wording, i) ensures FirstDeciding(rest, r, wording, i - 1) {
        forall j | 0 <= j < i - 1 ensures !Decides(rest[j], r, wording) {
          assert rest[j] == answers[j + 1];
        }
      }
    }
  }

  lemma FirstDecides(answers: seq<Answer>, r: GenerationRequest, wording: GeneratedCause -> bool, e: Option<ErrorKind>)
    requires answers != [] && Decides(answers[0], r, wording)
    ensures RunSteps(answers, r, wording, e) == Generated(Decide(answers[0].output, r, wording).value, Some("llm"), e)
    ensures forall i :: FirstDeciding(answers, r, wording, i) ==> i == 0
  {}

  /** Without candidates nothing is asked. Otherwise the first answer that decides is taken, and the error before it is
      kept; when none decides, the signal is hidden with the last error. */
  lemma GenerateIs(answers: seq<Answer>, r: GenerationRequest, wording: GeneratedCause -> bool)
    ensures var g := Generate(answers, r, wording);
            if r.candidates.documents == [] && r.candidates.events == []
            then g == Generated(Decision(NoCandidate, None, [], None, false, "", false), None, None)
            else
              && (forall i :: FirstDeciding(answers, r, wording, i) ==>
                    g == Generated(Decide(answers[i].output, r, wording).value, Some("llm"), if i == 0 then None else Some(ErrorOf(answers[i - 1]))))
              && ((forall a :: a in answers ==> !Decides(a, r, wording)) ==>
                    g == Generated(Decision(Hidden, None, [], None, false, "", false), None,
                                   if answers == [] then None else Some(ErrorOf(answers[|answers| - 1]))))
  {
    RunStepsIs(answers, r, wording, None);
    assert r.candidates.All() == [] <==> r.candidates.documents == [] && r.candidates.events == [];
  }
}
