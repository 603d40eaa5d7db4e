/**
 * News documents: one row per document, one revision per new title, at most one
 * judgement per revision, and at most one round of signal requests per judgement.
 * Messages about a document arrive any number of times and in any order.
 */
module DocumentRevisions {
  import opened Prelude

  datatype Key = Key(doc: int, version: nat)

  datatype Doc = Doc(version: nat, title: string, publisher: string, publishedAt: int)

  /** What the judge said, and whether an article of this character may rewrite a signal. */
  datatype Verdict = Verdict(output: int, regenerates: bool)

  datatype Request = Request(key: Key, symbols: seq<string>, at: int)

  datatype Tables = Tables(docs: map<int, Doc>, revisions: map<Key, string>, judgements: map<Key, Verdict>, requests: seq<Request>)

  /** One delivered title. `judge` answers for a title or passes; `enabled` tells whether a linked symbol is
      signal-enabled; `aligned` are the symbols whose price state agrees and that have not seen the event. */
  datatype Message = Message(doc: int, title: string, publisher: string, publishedAt: int, enabled: bool,
                             judge: string -> Option<Verdict>, aligned: seq<string>)

  /** The revision a message leaves current. */
  datatype State = State(doc: int, version: nat, title: string)

  // ----- the statements

  predicate Seen(t: Tables, doc: int, version: nat, title: string) {
    exists v :: 0 <= v <= version && Key(doc, v) in t.revisions && t.revisions[Key(doc, v)] == title
  }

  function Upsert(t: Tables, m: Message): Tables {
    if m.doc !in t.docs then
      t.(docs := t.docs[m.doc := Doc(1, m.title, m.publisher, m.publishedAt)],
         revisions := InsertRevision(t.revisions, Key(m.doc, 1), m.title))
    else
      var d := t.docs[m.doc];
      if d.title == m.title || Seen(t, m.doc, d.version, m.title) then t
      else
        t.(docs := t.docs[m.doc := d.(version := d.version + 1, title := m.title)],
           revisions := InsertRevision(t.revisions, Key(m.doc, d.version + 1), m.title))
  }

  function InsertRevision(revisions: map<Key, string>, key: Key, title: string): map<Key, string> {
    if key in revisions then revisions else revisions[key := title]
  }

  /** The judging half of a message, on the current revision of its document. */
  function Judge(t: Tables, m: Message): Tables
    requires m.doc in t.docs
  {
    var key := Key(m.doc, t.docs[m.doc].version);
    if !m.enabled || key in t.judgements then t
    else
      match m.judge(t.docs[m.doc].title)
      case None => t
      case Some(verdict) =>
        t.(judgements := t.judgements[key := verdict],
           requests := if verdict.regenerates then t.requests + [Request(key, m.aligned, m.publishedAt)] else t.requests)
  }

  function Process(t: Tables, m: Message): Tables {
    Judge(Upsert(t, m), m)
  }

  function After(t: Tables, ms: seq<Message>): Tables {
    if ms == [] then t else Process(After(t, ms[..|ms| - 1]), ms[|ms| - 1])
  }

  class DocumentProcessor {
    var docs: map<int, Doc>
    var revisions: map<Key, string>
    var judgements: map<Key, Verdict>
    var requests: seq<Request>

    ghost function View(): Tables
      reads this
    {
      Tables(docs, revisions, judgements, requests)
    }

    method InsertRevisionRow(m: Message, version: nat)
      modifies this`revisions
      ensures revisions == InsertRevision(old(revisions), Key(m.doc, version), m.title)
    {
      if Key(m.doc, version) !in revisions {
        revisions := revisions[Key(m.doc, version) := m.title];
      }
    }

    method UpsertDocument(m: Message) returns (state: State)
      modifies this`docs, this`revisions
      ensures View() == Upsert(old(View()), m)
      ensures m.doc in docs && state == State(m.doc, docs[m.doc].version, docs[m.doc].title)
    {
      if m.doc !in docs {
        docs := docs[m.doc := Doc(1, m.title, m.publisher, m.publishedAt)];
        InsertRevisionRow(m, 1);
        return State(m.doc, 1, m.title);
      }
      var current := docs[m.doc];
      if current.title == m.title {
        return State(m.doc, current.version, current.title);
      }
      var seen := FindRevision(m.doc, current.version, m.title);
      if seen {
        return State(m.doc, current.version, current.title);
      }
      docs := docs[m.doc := current.(version := current.version + 1, title := m.title)];
      InsertRevisionRow(m, current.version + 1);
      return State(m.doc, current.version + 1, m.title);
    }

    method FindRevision(doc: int, version: nat, title: string) returns (seen: bool)
      ensures seen <==> Seen(View(), doc, version, title)
    {
      for v := 0 to version + 1
        invariant forall w :: 0 <= w < v && Key(doc, w) in revisions ==> revisions[Key(doc, w)] != title
      {
        if Key(doc, v) in revisions && revisions[Key(doc, v)] == title {
          assert Seen(View(), doc, version, title);
          return true;
        }
      }
      return false;
    }

    method Handle(m: Message)
      modifies this
      ensures View() == Process(old(View()), m)
    {
      var state := UpsertDocument(m);
      if !m.enabled || Key(state.doc, state.version) in judgements {
        return;
      }
      var verdict := m.judge(state.title);
      if verdict.None? {
        return;
      }
      judgements := judgements[Key(state.doc, state.version) := verdict.value];
      if verdict.value.regenerates {
        requests := requests + [Request(Key(state.doc, state.version), m.aligned, m.publishedAt)];
      }
    }
  }

  // ----- histories

  const EMPTY := Tables(map[], map[], map[], [])

  /** The titles a document was delivered with, in order. */
  function Titles(ms: seq<Message>, doc: int): seq<string> {
    if ms == [] then []
    else Titles(ms[..|ms| - 1], doc) + if ms[|ms| - 1].doc == doc then [ms[|ms| - 1].title] else []
  }

  /** Each title once, in the order of its first arrival. */
  function FirstArrivals(titles: seq<string>): seq<string> {
    if titles == [] then []
    else
      var front := FirstArrivals(titles[..|titles| - 1]);
      if titles[|titles| - 1] in front then front else front + [titles[|titles| - 1]]
  }

  lemma {:induction false} FirstArrivalsAre(titles: seq<string>)
    ensures forall x :: x in FirstArrivals(titles) <==> x in titles
    ensures forall i, j :: 0 <= i < j < |FirstArrivals(titles)| ==> FirstArrivals(titles)[i] != FirstArrivals(titles)[j]
  {
    if titles != [] {
      FirstArrivalsAre(titles[..|titles| - 1]);
      assert titles == titles[..|titles| - 1] + [titles[|titles| - 1]];
    }
  }

  /** A document's rows spell out its history: revision `v` is its `v`-th distinct title, the last one is current. */
  ghost predicate Records(t: Tables, doc: int, history: seq<string>) {
    && (doc in t.docs <==> history != [])
    && (doc in t.docs ==> t.docs[doc].version == |history| && t.docs[doc].title == history[|history| - 1])
    && (forall v: nat :: Key(doc, v) in t.revisions <==> 1 <= v <= |history|)
    && (forall v: nat :: 1 <= v <= |history| ==> t.revisions[Key(doc, v)] == history[v - 1])
  }

  lemma UpsertRecords(t: Tables, m: Message, doc: int, history: seq<string>)
    requires Records(t, doc, history)
    ensures Records(Upsert(t, m), doc, if m.doc != doc || m.title in history then history else history + [m.title])
  {
    if m.doc == doc && doc in t.docs {
      SeenIff(t, doc, history, m.title);
    }
  }

  lemma SeenIff(t: Tables, doc: int, history: seq<string>, title: string)
    requires Records(t, doc, history)
    ensures Seen(t, doc, |history|, title) <==> title in history
  {
    if title in history {
      var i :| 0 <= i < |history| && history[i] == title;
      assert t.revisions[Key(doc, i + 1)] == title;
    }
  }

  lemma ProcessRecords(t: Tables, m: Message, doc: int, history: seq<string>)
    requires Records(t, doc, history)
    ensures Records(Process(t, m), doc, if m.doc != doc || m.title in history then history else history + [m.title])
  {
    UpsertRecords(t, m, doc, history);
    assert Process(t, m).docs == Upsert(t, m).docs && Process(t, m).revisions == Upsert(t, m).revisions;
  }

  lemma FirstArrivalsSnoc(titles: seq<string>, title: string)
    ensures FirstArrivals(titles + [title])
            == if title in FirstArrivals(titles) then FirstArrivals(titles) else FirstArrivals(titles) + [title]
  {
    assert (titles + [title])[..|titles|] == titles;
  }

  /** Revisions are the distinct titles in first-arrival order, and the version is their count. */
  lemma {:induction false} RevisionsAreFirstArrivals(ms: seq<Message>, doc: int)
    ensures Records(After(EMPTY, ms), doc, FirstArrivals(Titles(ms, doc)))
  {
    if ms != [] {
      var front, m := ms[..|ms| - 1], ms[|ms| - 1];
      RevisionsAreFirstArrivals(front, doc);
      ProcessRecords(After(EMPTY, front), m, doc, FirstArrivals(Titles(front, doc)));
      if m.doc == doc {
        FirstArrivalsSnoc(Titles(front, doc), m.title);
      } else {
        assert Titles(front, doc) + [] == Titles(front, doc);
      }
    }
  }

  /** Every row of `t` is still in `t'`, unchanged. */
  ghost predicate Settled(t: Tables, t': Tables) {
    && (forall key :: key in t.revisions ==> key in t'.revisions && t'.revisions[key] == t.revisions[key])
    && (forall key :: key in t.judgements ==> key in t'.judgements && t'.judgements[key] == t.judgements[key])
    && t.requests <= t'.requests
  }

  lemma ProcessSettles(t: Tables, m: Message)
    ensures Settled(t, Process(t, m))
  {}

  lemma SettledChains(a: Tables, b: Tables, c: Tables)
    requires Settled(a, b) && Settled(b, c)
    ensures Settled(a, c)
  {}

  /** Nothing recorded is ever rewritten: revisions, judgements and requests only grow. */
  lemma {:induction false} HistoryOnlyGrows(t: Tables, ms: seq<Message>, i: nat)
    requires i <= |ms|
    ensures Settled(After(t, ms[..i]), After(t, ms))
  {
    if i == |ms| {
      assert ms[..i] == ms;
    } else {
      assert ms[..|ms| - 1][..i] == ms[..i];
      HistoryOnlyGrows(t, ms[..|ms| - 1], i);
      ProcessSettles(After(t, ms[..|ms| - 1]), ms[|ms| - 1]);
      SettledChains(After(t, ms[..i]), After(t, ms[..|ms| - 1]), After(t, ms));
    }
  }

  /** Judgements are of existing revisions, and requests are one per regenerating judgement. */
  ghost predicate Judged(t: Tables) {
    && (forall doc :: doc in t.docs ==> Key(doc, t.docs[doc].version) in t.revisions)
    && (forall key :: key in t.judgements ==> key in t.revisions)
    && (forall i :: 0 <= i < |t.requests| ==> t.requests[i].key in t.judgements && t.judgements[t.requests[i].key].regenerates)
    && (forall i, j :: 0 <= i < j < |t.requests| ==> t.requests[i].key != t.requests[j].key)
    && (forall key :: key in t.judgements && t.judgements[key].regenerates ==> Requested(t, key))
  }

  ghost predicate Requested(t: Tables, key: Key) {
    exists i :: 0 <= i < |t.requests| && t.requests[i].key == key
  }

  lemma JudgeKeepsJudged(t: Tables, m: Message)
    requires Judged(t) && m.doc in t.docs
    ensures Judged(Judge(t, m))
  {
    var u := Judge(t, m);
    if u != t {
      var key := Key(m.doc, t.docs[m.doc].version);
      forall k | k in u.judgements && u.judgements[k].regenerates ensures Requested(u, k) {
        if k != key {
          var i :| 0 <= i < |t.requests| && t.requests[i].key == k;
          assert u.requests[i].key == k;
        } else {
          assert u.requests[|t.requests|].key == key;
        }
      }
    }
  }

  lemma UpsertKeepsJudged(t: Tables, m: Message)
    requires Judged(t)
    ensures Judged(Upsert(t, m))
  {
    var u := Upsert(t, m);
    forall k | k in u.judgements && u.judgements[k].regenerates ensures Requested(u, k) {
      var i :| 0 <= i < |t.requests| && t.requests[i].key == k;
      assert u.requests[i].key == k;
    }
  }

  /** At most one judgement per revision, and exactly one round of requests per judgement that calls for one. */
  lemma {:induction false} OneRequestRoundPerJudgement(ms: seq<Message>)
    ensures Judged(After(EMPTY, ms))
  {
    if ms != [] {
      var front, m := ms[..|ms| - 1], ms[|ms| - 1];
      OneRequestRoundPerJudgement(front);
      UpsertKeepsJudged(After(EMPTY, front), m);
      JudgeKeepsJudged(Upsert(After(EMPTY, front), m), m);
    }
  }

  /** Once its current revision is judged, delivering any known title of a document again changes nothing. */
  lemma KnownTitleIsNoOp(ms: seq<Message>, m: Message)
    requires m.title in Titles(ms, m.doc)
    requires var t := After(EMPTY, ms); m.doc in t.docs ==> Key(m.doc, t.docs[m.doc].version) in t.judgements
    ensures After(EMPTY, ms + [m]) == After(EMPTY, ms)
  {
    assert (ms + [m])[..|ms|] == ms;
    var history := FirstArrivals(Titles(ms, m.doc));
    RevisionsAreFirstArrivals(ms, m.doc);
    FirstArrivalsAre(Titles(ms, m.doc));
    SeenIff(After(EMPTY, ms), m.doc, history, m.title);
  }

  /** What a new judgement judges: the title of the revision it is stored under. */
  lemma JudgesTheCurrentTitle(ms: seq<Message>, m: Message, key: Key)
    requires key in After(EMPTY, ms + [m]).judgements && key !in After(EMPTY, ms).judgements
    ensures key.doc == m.doc && key in After(EMPTY, ms + [m]).revisions
    ensures m.judge(After(EMPTY, ms + [m]).revisions[key]) == Some(After(EMPTY, ms + [m]).judgements[key])
  {
    assert (ms + [m])[..|ms|] == ms;
    RevisionsAreFirstArrivals(ms + [m], m.doc);
  }

  /** What one message leaves. The document's current title is the latest distinct one, its publisher and time those of its
      first message. If a linked symbol is enabled, the current revision is unjudged and the judge answers for its title,
      the verdict is stored, and asks for signals when it calls for them. */
  lemma MessageIsHandled(ms: seq<Message>, m: Message)
    ensures var t, t', titles := After(EMPTY, ms), After(EMPTY, ms + [m]), FirstArrivals(Titles(ms + [m], m.doc));
            titles != [] &&
            var key, title := Key(m.doc, |titles|), titles[|titles| - 1];
            var verdict := if m.enabled && key !in t.judgements then m.judge(title) else None;
            && t'.docs == t.docs[m.doc := Doc(|titles|, title, if m.doc in t.docs then t.docs[m.doc].publisher else m.publisher,
                                              if m.doc in t.docs then t.docs[m.doc].publishedAt else m.publishedAt)]
            && t'.judgements == (if verdict == None then t.judgements else t.judgements[key := verdict.value])
            && t'.requests == t.requests + if verdict != None && verdict.value.regenerates
                                           then [Request(key, m.aligned, m.publishedAt)] else []
  {
    assert (ms + [m])[..|ms|] == ms;
    var t, titles := After(EMPTY, ms), FirstArrivals(Titles(ms + [m], m.doc));
    RevisionsAreFirstArrivals(ms + [m], m.doc);
    FirstArrivalsAre(Titles(ms + [m], m.doc));
    assert m.title in Titles(ms + [m], m.doc);
    UpsertKeepsRest(t, m);
    JudgeIs(Upsert(t, m), m, Key(m.doc, |titles|), titles[|titles| - 1]);
  }

  /** Besides revisions a title changes the row of its own document only, and of that neither publisher nor time. */
  lemma UpsertKeepsRest(t: Tables, m: Message)
    ensures var u := Upsert(t, m);
            && u.judgements == t.judgements && u.requests == t.requests && m.doc in u.docs
            && u.docs == t.docs[m.doc := Doc(u.docs[m.doc].version, u.docs[m.doc].title,
                                             if m.doc in t.docs then t.docs[m.doc].publisher else m.publisher,
                                             if m.doc in t.docs then t.docs[m.doc].publishedAt else m.publishedAt)]
  {
    if m.doc in t.docs {
      assert t.docs == t.docs[m.doc := t.docs[m.doc]];
    }
  }

  lemma JudgeIs(t: Tables, m: Message, key: Key, title: string)
    requires m.doc in t.docs && key == Key(m.doc, t.docs[m.doc].version) && title == t.docs[m.doc].title
    ensures var verdict := if m.enabled && key !in t.judgements then m.judge(title) else None;
            && Judge(t, m).docs == t.docs && Judge(t, m).revisions == t.revisions
            && Judge(t, m).judgements == (if verdict == None then t.judgements else t.judgements[key := verdict.value])
            && Judge(t, m).requests == t.requests + if verdict != None && verdict.value.regenerates
                                                    then [Request(key, m.aligned, m.publishedAt)] else []
  {
    assert t.requests + [] == t.requests;
  }
}
