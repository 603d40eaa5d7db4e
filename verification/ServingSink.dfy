/**
 * The serving sink: `signal-updates` events applied to the `serving` schema.
 *
 * A symbol keeps one current row. An update replaces it when it wins under the
 * condition in the WHERE clause of the upsert, and every version is appended to
 * a history keyed by (move, version). Updates may arrive reordered and more
 * than once; this module says exactly when that does not matter.
 */
module ServingSink {
  import opened Prelude

  type Symbol = string
  /** A move id, as its rank in the order of the canonical text form. */
  type MoveId = nat
  type DocumentId = nat
  /** An instant, in any fixed unit. */
  type Time = int

  datatype Status = Shown | Hidden | NoCandidate | Unrecognised(text: string)

  datatype Cause = Cause(rank: int, explanation: string, sourceCount: int, documents: seq<DocumentId>)

  datatype Row = Row(
    symbol: Symbol, symbolName: string, moveId: MoveId, version: int, moveVersion: int,
    windowEnd: Time, status: Status, headline: Option<string>, decidedBy: Option<string>, updatedAt: Time)

  datatype Update = Update(row: Row, causes: seq<Cause>)

  const MAX_CAUSE_RANK := 3

  // ----- which causes are served

  predicate NoDuplicates<T(==)>(xs: seq<T>) {
    forall i, j :: 0 <= i < j < |xs| ==> xs[i] != xs[j]
  }

  predicate ValidCause(c: Cause) {
    && 1 <= c.rank <= MAX_CAUSE_RANK
    && c.sourceCount >= 1
    && c.sourceCount == |c.documents|
    && NoDuplicates(c.documents)
  }

  function KeepValid(causes: seq<Cause>): seq<Cause> {
    if causes == [] then []
    else (if ValidCause(causes[0]) then [causes[0]] else []) + KeepValid(causes[1..])
  }

  function ServedCauses(u: Update): seq<Cause> {
    if u.row.status != Shown then [] else KeepValid(u.causes)
  }

  // ----- the winning condition of the upsert

  predicate LexLess(a: (int, int), b: (int, int)) {
    a.0 < b.0 || (a.0 == b.0 && a.1 < b.1)
  }

  /** The new row `e` replaces the stored row `c`. */
  predicate Beats(e: Row, c: Row) {
    if e.moveId == c.moveId
    then LexLess((c.moveVersion, c.version), (e.moveVersion, e.version))
    else LexLess((c.windowEnd, c.moveId), (e.windowEnd, e.moveId))
  }

  // ----- the tables

  type HistoryKey = (MoveId, int)

  /** Cause rows are grouped under the key they are deleted and read by. */
  datatype Tables = Tables(
    current: map<Symbol, Row>, causes: map<Symbol, seq<Cause>>,
    history: map<HistoryKey, Row>, historyCauses: map<HistoryKey, seq<Cause>>)

  const EMPTY := Tables(map[], map[], map[], map[])

  function Key(u: Update): HistoryKey { (u.row.moveId, u.row.version) }

  predicate DistinctRanks(causes: seq<Cause>) {
    forall i, j :: 0 <= i < j < |causes| ==> causes[i].rank != causes[j].rank
  }

  predicate KnownStatus(u: Update) { !u.row.status.Unrecognised? }

  /** The row satisfies the column checks of both signal tables. */
  predicate MeetsChecks(u: Update) { u.row.version >= 1 && u.row.moveVersion >= 1 }

  /** The update passes the status filter and violates no table constraint. */
  predicate Storable(u: Update) {
    KnownStatus(u) && MeetsChecks(u) && DistinctRanks(ServedCauses(u))
  }

  predicate Wins(t: Tables, u: Update) {
    u.row.symbol in t.current ==> Beats(u.row, t.current[u.row.symbol])
  }

  /** The transaction for `u` commits: its status is skipped, or it satisfies every constraint, or it repeats a
      known version and does not win, so that its causes are never written. Any other update fails every time. */
  predicate Accepts(t: Tables, u: Update) {
    !KnownStatus(u) || Storable(u) || (MeetsChecks(u) && Key(u) in t.history && !Wins(t, u))
  }

  function PutCauses<K>(m: map<K, seq<Cause>>, k: K, causes: seq<Cause>): map<K, seq<Cause>> {
    if causes == [] then m - {k} else m[k := causes]
  }

  /** The committed effect of one delivery; a skipped or failed delivery has none. */
  function Apply(t: Tables, u: Update): Tables {
    if !Storable(u) then t
    else
      var logged := if Key(u) in t.history then t
                    else t.(history := t.history[Key(u) := u.row],
                            historyCauses := PutCauses(t.historyCauses, Key(u), ServedCauses(u)));
      if !Wins(t, u) then logged
      else logged.(current := t.current[u.row.symbol := u.row],
                   causes := PutCauses(t.causes, u.row.symbol, ServedCauses(u)))
  }

  function ApplyAll(t: Tables, ds: seq<Update>): Tables {
    if ds == [] then t else Apply(ApplyAll(t, ds[..|ds| - 1]), ds[|ds| - 1])
  }

  // ----- the statements of the sink, in order, inside one transaction

  datatype Outcome = Skipped | Failed | Done(applied: bool)

  class ServingDatabase {
    var current: map<Symbol, Row>
    var causes: map<Symbol, seq<Cause>>
    var history: map<HistoryKey, Row>
    var historyCauses: map<HistoryKey, seq<Cause>>

    constructor ()
      ensures View() == EMPTY
    {
      current, causes, history, historyCauses := map[], map[], map[], map[];
    }

    ghost function View(): Tables
      reads this
    {
      Tables(current, causes, history, historyCauses)
    }

    /** Every history cause belongs to a history row (a foreign key of the schema). */
    ghost predicate Valid()
      reads this
    {
      historyCauses.Keys <= history.Keys
    }

    /** One message: filter the status, then write history, current row and causes.
        A constraint violation rolls the whole transaction back. */
    method Handle(u: Update) returns (outcome: Outcome)
      requires Valid()
      modifies this
      ensures Valid()
      ensures View() == Apply(old(View()), u)
      ensures outcome == Skipped <==> !KnownStatus(u)
      ensures outcome == Failed <==> !Accepts(old(View()), u)
      ensures outcome.Done? ==> outcome.applied == Wins(old(View()), u)
    {
      if !KnownStatus(u) {
        return Skipped;
      }
      var before := (current, causes, history, historyCauses);
      var served := ServedCauses(u);
      if !MeetsChecks(u) {
        return Failed;
      }
      if Key(u) !in history {
        history := history[Key(u) := u.row];
        if served != [] {
          if !DistinctRanks(served) {
            history := before.2;
            return Failed;
          }
          historyCauses := historyCauses[Key(u) := served];
        }
        assert served == [] ==> historyCauses == historyCauses - {Key(u)};
      }
      if u.row.symbol in current && !Beats(u.row, current[u.row.symbol]) {
        return Done(false);
      }
      current := current[u.row.symbol := u.row];
      causes := causes - {u.row.symbol};
      if served != [] {
        if !DistinctRanks(served) {
          current, causes, history, historyCauses := before.0, before.1, before.2, before.3;
          return Failed;
        }
        causes := causes[u.row.symbol := served];
        assert causes == old(causes)[u.row.symbol := served];
      }
      return Done(true);
    }
  }

  // ----- what a set of deliveries determines

  /** Events of one (move, version) are the same event. */
  ghost predicate KeyConsistent(s: set<Update>) {
    forall a, b :: a in s && b in s && Key(a) == Key(b) ==> a == b
  }

  /** Two versions of one move whose window ends run backwards past another move of the symbol. */
  ghost predicate Straddle(a: Update, b: Update, c: Update) {
    && a.row.symbol == b.row.symbol == c.row.symbol
    && a.row.moveId == b.row.moveId != c.row.moveId
    && Beats(b.row, a.row) && Beats(c.row, b.row) && Beats(a.row, c.row)
  }

  ghost predicate NoStraddle(s: set<Update>) {
    forall a, b, c :: a in s && b in s && c in s ==> !Straddle(a, b, c)
  }

  /** The window end of a move never falls as (move version, version) grows. */
  ghost predicate Monotone(s: set<Update>) {
    forall a, b :: a in s && b in s && a.row.moveId == b.row.moveId && Beats(b.row, a.row)
      ==> a.row.windowEnd <= b.row.windowEnd
  }

  ghost predicate AllStorable(s: set<Update>) { forall u :: u in s ==> Storable(u) }

  /** `w` is in `s` and wins against every other update of its symbol. */
  ghost predicate Best(s: set<Update>, w: Update) {
    w in s && forall v :: v in s && v.row.symbol == w.row.symbol && v != w ==> Beats(w.row, v.row)
  }

  ghost predicate CurrentSettled(t: Tables, s: set<Update>) {
    && (forall u :: u in s ==> u.row.symbol in t.current)
    && (forall x :: x in t.current ==> exists w :: Best(s, w) && w.row.symbol == x && HoldsCurrent(t, w))
    && (forall x :: x in t.causes ==> x in t.current)
  }

  /** The symbol of `w` shows `w` with its served causes. */
  ghost predicate HoldsCurrent(t: Tables, w: Update) {
    && w.row.symbol in t.current && t.current[w.row.symbol] == w.row
    && (if ServedCauses(w) == [] then w.row.symbol !in t.causes
        else w.row.symbol in t.causes && t.causes[w.row.symbol] == ServedCauses(w))
  }

  ghost predicate HoldsHistory(t: Tables, w: Update) {
    && Key(w) in t.history && t.history[Key(w)] == w.row
    && (if ServedCauses(w) == [] then Key(w) !in t.historyCauses
        else Key(w) in t.historyCauses && t.historyCauses[Key(w)] == ServedCauses(w))
  }

  ghost predicate HistorySettled(t: Tables, s: set<Update>) {
    && (forall u :: u in s ==> HoldsHistory(t, u))
    && (forall k :: k in t.history ==> exists u :: u in s && Key(u) == k)
    && t.historyCauses.Keys <= t.history.Keys
  }

  /** `t` is the one table state that the set `s` of updates stands for. */
  ghost predicate Settled(t: Tables, s: set<Update>) {
    CurrentSettled(t, s) && HistorySettled(t, s)
  }

  lemma BeatsIsAsymmetric(a: Row, b: Row)
    requires Beats(a, b)
    ensures !Beats(b, a)
  {}

  lemma BeatsIsTotal(s: set<Update>, a: Update, b: Update)
    requires KeyConsistent(s) && a in s && b in s && a != b
    ensures Beats(a.row, b.row) || Beats(b.row, a.row)
  {
    assert Key(a) != Key(b);
  }

  /** Without a straddle the condition is transitive, so it is a strict total order per symbol. */
  lemma BeatsIsTransitive(s: set<Update>, a: Update, b: Update, c: Update)
    requires KeyConsistent(s) && NoStraddle(s) && a in s && b in s && c in s
    requires a.row.symbol == b.row.symbol == c.row.symbol
    requires Beats(a.row, b.row) && Beats(b.row, c.row)
    ensures a != c && Beats(a.row, c.row)
  {
    if a == c {
      BeatsIsAsymmetric(a.row, b.row);
    } else if Beats(c.row, a.row) {
      // a > b > c > a is a cycle, and two of its rows share a move.
      assert !Straddle(a, c, b) && !Straddle(b, a, c) && !Straddle(c, b, a);
    } else {
      BeatsIsTotal(s, a, c);
    }
  }

  /** Window ends that follow the versions rule straddles out. */
  lemma MonotoneHasNoStraddle(s: set<Update>)
    requires Monotone(s)
    ensures NoStraddle(s)
  {
    forall a, b, c | a in s && b in s && c in s ensures !Straddle(a, b, c) {
      assert a.row.moveId == b.row.moveId && Beats(b.row, a.row) ==> a.row.windowEnd <= b.row.windowEnd;
    }
  }

  /** Two table states settled on one set are equal. */
  lemma SettledIsUnique(t1: Tables, t2: Tables, s: set<Update>)
    requires Settled(t1, s) && Settled(t2, s)
    ensures t1 == t2
  {
    forall x ensures SameSymbol(t1, t2, x) {
      if x in t1.current {
        CurrentIsUnique(t1, t2, s, x);
      } else if x in t2.current {
        CurrentIsUnique(t2, t1, s, x);
      }
    }
    forall k ensures SameKey(t1, t2, k) {
      if k in t1.history {
        HistoryIsUnique(t1, t2, s, k);
      } else if k in t2.history {
        HistoryIsUnique(t2, t1, s, k);
      }
    }
    SameEverywhere(t1, t2);
  }

  ghost predicate SameSymbol(t1: Tables, t2: Tables, x: Symbol) {
    && (x in t1.current <==> x in t2.current) && (x in t1.current ==> t1.current[x] == t2.current[x])
    && (x in t1.causes <==> x in t2.causes) && (x in t1.causes ==> t1.causes[x] == t2.causes[x])
  }

  ghost predicate SameKey(t1: Tables, t2: Tables, k: HistoryKey) {
    && (k in t1.history <==> k in t2.history) && (k in t1.history ==> t1.history[k] == t2.history[k])
    && (k in t1.historyCauses <==> k in t2.historyCauses)
    && (k in t1.historyCauses ==> t1.historyCauses[k] == t2.historyCauses[k])
  }

  lemma SameEverywhere(t1: Tables, t2: Tables)
    requires forall x :: SameSymbol(t1, t2, x)
    requires forall k :: SameKey(t1, t2, k)
    ensures t1 == t2
  {
    assert t1.current == t2.current by {
      forall x ensures x in t1.current <==> x in t2.current { assert SameSymbol(t1, t2, x); }
      forall x | x in t1.current ensures t1.current[x] == t2.current[x] { assert SameSymbol(t1, t2, x); }
    }
    assert t1.causes == t2.causes by {
      forall x ensures x in t1.causes <==> x in t2.causes { assert SameSymbol(t1, t2, x); }
      forall x | x in t1.causes ensures t1.causes[x] == t2.causes[x] { assert SameSymbol(t1, t2, x); }
    }
    assert t1.history == t2.history by {
      forall k ensures k in t1.history <==> k in t2.history { assert SameKey(t1, t2, k); }
      forall k | k in t1.history ensures t1.history[k] == t2.history[k] { assert SameKey(t1, t2, k); }
    }
    assert t1.historyCauses == t2.historyCauses by {
      forall k ensures k in t1.historyCauses <==> k in t2.historyCauses { assert SameKey(t1, t2, k); }
      forall k | k in t1.historyCauses ensures t1.historyCauses[k] == t2.historyCauses[k] { assert SameKey(t1, t2, k); }
    }
  }

  lemma CurrentIsUnique(t1: Tables, t2: Tables, s: set<Update>, x: Symbol)
    requires CurrentSettled(t1, s) && CurrentSettled(t2, s) && x in t1.current
    ensures SameSymbol(t1, t2, x)
  {
    var w1 :| Best(s, w1) && w1.row.symbol == x && HoldsCurrent(t1, w1);
    assert w1 in s;
    var w2 :| Best(s, w2) && w2.row.symbol == x && HoldsCurrent(t2, w2);
    BestIsUnique(s, w1, w2);
  }

  lemma BestIsUnique(s: set<Update>, w1: Update, w2: Update)
    requires Best(s, w1) && Best(s, w2) && w1.row.symbol == w2.row.symbol
    ensures w1 == w2
  {
    assert w1 != w2 ==> Beats(w1.row, w2.row) && Beats(w2.row, w1.row);
  }

  lemma HistoryIsUnique(t1: Tables, t2: Tables, s: set<Update>, k: HistoryKey)
    requires HistorySettled(t1, s) && HistorySettled(t2, s) && k in t1.history
    ensures SameKey(t1, t2, k)
  {
    var u :| u in s && Key(u) == k;
    assert HoldsHistory(t1, u) && HoldsHistory(t2, u);
  }

  /** One delivery moves the tables from what `s` stands for to what `s + {u}` stands for. */
  lemma ApplySettles(t: Tables, s: set<Update>, u: Update)
    requires Settled(t, s) && Storable(u)
    requires KeyConsistent(s + {u}) && NoStraddle(s + {u})
    ensures Settled(Apply(t, u), s + {u})
  {
    HistorySettles(t, s, u);
    CurrentSettles(t, s, u);
  }

  lemma HistorySettles(t: Tables, s: set<Update>, u: Update)
    requires HistorySettled(t, s) && Storable(u) && KeyConsistent(s + {u})
    ensures HistorySettled(Apply(t, u), s + {u})
  {
    HistoryShape(t, u);
    if Key(u) in t.history {
      var v :| v in s && Key(v) == Key(u);
      SameKeySameUpdate(s + {u}, u, v);
      assert s + {u} == s;
    } else {
      forall v | v in s + {u} ensures HoldsHistory(Apply(t, u), v) {
        if v in s {
          HistoryIsKept(t, u, v);
        } else {
          NewVersionIsHeld(t, u);
        }
      }
      HistoryKeysCovered(t, Apply(t, u), s, u);
    }
  }

  lemma HistoryKeysCovered(t: Tables, t': Tables, s: set<Update>, u: Update)
    requires forall k :: k in t.history ==> exists v :: v in s && Key(v) == k
    requires t'.history.Keys == t.history.Keys + {Key(u)}
    ensures forall k :: k in t'.history ==> exists v :: v in s + {u} && Key(v) == k
  {
    forall k | k in t'.history ensures exists v :: v in s + {u} && Key(v) == k {
      if k == Key(u) {
        assert u in s + {u};
      } else {
        assert k in t.history;
        var v :| v in s && Key(v) == k;
        assert v in s + {u};
      }
    }
  }

  lemma SameKeySameUpdate(s: set<Update>, a: Update, b: Update)
    requires KeyConsistent(s) && a in s && b in s && Key(a) == Key(b)
    ensures a == b
  {}

  lemma HistoryShape(t: Tables, u: Update)
    requires Storable(u) && t.historyCauses.Keys <= t.history.Keys
    ensures Apply(t, u).history.Keys == t.history.Keys + {Key(u)}
    ensures Apply(t, u).historyCauses.Keys <= Apply(t, u).history.Keys
    ensures Key(u) in t.history ==> Apply(t, u).history == t.history && Apply(t, u).historyCauses == t.historyCauses
  {}

  lemma NewVersionIsHeld(t: Tables, u: Update)
    requires Storable(u) && Key(u) !in t.history
    ensures HoldsHistory(Apply(t, u), u)
  {}

  lemma HistoryIsKept(t: Tables, u: Update, v: Update)
    requires HoldsHistory(t, v) && Storable(u) && Key(u) !in t.history
    ensures HoldsHistory(Apply(t, u), v)
  {}

  lemma OtherSymbolIsKept(t: Tables, u: Update, w: Update)
    requires HoldsCurrent(t, w) && u.row.symbol != w.row.symbol
    ensures HoldsCurrent(Apply(t, u), w)
  {}

  lemma WinnerIsHeld(t: Tables, u: Update)
    requires Storable(u)
    ensures Wins(t, u) ==> HoldsCurrent(Apply(t, u), u)
    ensures !Wins(t, u) ==> Apply(t, u).current == t.current && Apply(t, u).causes == t.causes
  {}

  lemma CurrentSettles(t: Tables, s: set<Update>, u: Update)
    requires CurrentSettled(t, s) && Storable(u)
    requires KeyConsistent(s + {u}) && NoStraddle(s + {u})
    ensures CurrentSettled(Apply(t, u), s + {u})
  {
    CurrentShape(t, u);
    forall x | x in Apply(t, u).current
      ensures exists w :: Best(s + {u}, w) && w.row.symbol == x && HoldsCurrent(Apply(t, u), w)
    {
      var w := BestAfter(t, s, u, x);
    }
    assert forall v :: v in s + {u} ==> v.row.symbol in Apply(t, u).current;
  }

  lemma CurrentShape(t: Tables, u: Update)
    requires Storable(u) && t.causes.Keys <= t.current.Keys
    ensures Apply(t, u).current.Keys == t.current.Keys + {u.row.symbol}
    ensures Apply(t, u).causes.Keys <= Apply(t, u).current.Keys
  {}

  /** The update the symbol `x` shows after `u` was delivered. */
  lemma BestAfter(t: Tables, s: set<Update>, u: Update, x: Symbol) returns (w: Update)
    requires CurrentSettled(t, s) && Storable(u)
    requires KeyConsistent(s + {u}) && NoStraddle(s + {u})
    requires x in Apply(t, u).current
    ensures Best(s + {u}, w) && w.row.symbol == x && HoldsCurrent(Apply(t, u), w)
  {
    WinnerIsHeld(t, u);
    if x !in t.current {
      w := u;
    } else {
      w :| Best(s, w) && w.row.symbol == x && HoldsCurrent(t, w);
      if x != u.row.symbol {
        OtherSymbolIsKept(t, u, w);
      } else if Beats(u.row, w.row) {
        NewBest(s, u, w);
        w := u;
      } else if w != u {
        BeatsIsTotal(s + {u}, w, u);
      }
    }
  }

  /** An update that beats the best one is the best one. */
  lemma NewBest(s: set<Update>, u: Update, w: Update)
    requires KeyConsistent(s + {u}) && NoStraddle(s + {u})
    requires Best(s, w) && w.row.symbol == u.row.symbol && Beats(u.row, w.row)
    ensures Best(s + {u}, u)
  {
    forall v | v in s + {u} && v.row.symbol == u.row.symbol && v != u ensures Beats(u.row, v.row) {
      if v != w {
        BeatsIsTransitive(s + {u}, u, w, v);
      }
    }
  }

  lemma SubsetIsConsistent(part: set<Update>, all: set<Update>)
    requires part <= all && KeyConsistent(all) && NoStraddle(all)
    ensures KeyConsistent(part) && NoStraddle(part)
    ensures AllStorable(all) ==> AllStorable(part)
  {}

  /** Any delivery sequence leaves exactly what the set of its updates stands for. */
  lemma {:induction false} DeliveriesSettle(ds: seq<Update>)
    requires AllStorable(Elems(ds)) && KeyConsistent(Elems(ds)) && NoStraddle(Elems(ds))
    ensures Settled(ApplyAll(EMPTY, ds), Elems(ds))
  {
    if ds != [] {
      var front, last := ds[..|ds| - 1], ds[|ds| - 1];
      assert ds == front + [last];
      ElemsSnoc(front, last);
      SubsetIsConsistent(Elems(front), Elems(ds));
      DeliveriesSettle(front);
      ApplySettles(ApplyAll(EMPTY, front), Elems(front), last);
    }
  }

  /** Reordering and duplication of one set of updates leave the same tables. */
  ghost predicate OrderFree(s: set<Update>) {
    forall d1: seq<Update>, d2: seq<Update> ::
      Elems(d1) <= s && Elems(d1) == Elems(d2) ==> ApplyAll(EMPTY, d1) == ApplyAll(EMPTY, d2)
  }

  /** The exact condition under which the order of deliveries out of `s` never matters. */
  lemma OrderFreeIffNoStraddle(s: set<Update>)
    requires AllStorable(s) && KeyConsistent(s)
    ensures OrderFree(s) <==> NoStraddle(s)
  {
    if NoStraddle(s) {
      forall d1: seq<Update>, d2: seq<Update> | Elems(d1) <= s && Elems(d1) == Elems(d2)
        ensures ApplyAll(EMPTY, d1) == ApplyAll(EMPTY, d2)
      {
        DeliveriesSettle(d1);
        DeliveriesSettle(d2);
        SettledIsUnique(ApplyAll(EMPTY, d1), ApplyAll(EMPTY, d2), Elems(d1));
      }
    }
    if OrderFree(s) {
      forall a, b, c | a in s && b in s && c in s ensures !Straddle(a, b, c) {
        StraddleSplitsOrders(a, b, c);
        assert Elems([a, b, c]) == {a, b, c} == Elems([a, b, c, a]);
      }
    }
  }

  /** A straddling triple ends on `c`, and on `a` when `a` is delivered once more. */
  lemma StraddleSplitsOrders(a: Update, b: Update, c: Update)
    requires Storable(a) && Storable(b) && Storable(c)
    ensures Straddle(a, b, c) ==> ApplyAll(EMPTY, [a, b, c]) != ApplyAll(EMPTY, [a, b, c, a])
  {
    assert [a, b, c, a][..3] == [a, b, c] && [a, b, c][..2] == [a, b] && [a, b][..1] == [a] && [a][..0] == [];
    var t1 := Apply(EMPTY, a);
    var t2 := Apply(t1, b);
    var t3 := Apply(t2, c);
    var t4 := Apply(t3, a);
    assert ApplyAll(EMPTY, []) == EMPTY;
    assert ApplyAll(EMPTY, [a]) == t1;
    assert ApplyAll(EMPTY, [a, b]) == t2;
    assert ApplyAll(EMPTY, [a, b, c]) == t3;
    assert ApplyAll(EMPTY, [a, b, c, a]) == t4;
    if Straddle(a, b, c) {
      WinnerIsHeld(EMPTY, a);
      WinnerIsHeld(t1, b);
      WinnerIsHeld(t2, c);
      WinnerIsHeld(t3, a);
      assert t3.current[a.row.symbol] == c.row && t4.current[a.row.symbol] == a.row;
    }
  }

  /** Convergence as the system relies on it: monotone window ends make every order equal. */
  lemma MonotoneConverges(d1: seq<Update>, d2: seq<Update>)
    requires Elems(d1) == Elems(d2)
    requires AllStorable(Elems(d1)) && KeyConsistent(Elems(d1)) && Monotone(Elems(d1))
    ensures ApplyAll(EMPTY, d1) == ApplyAll(EMPTY, d2)
  {
    MonotoneHasNoStraddle(Elems(d1));
    OrderFreeIffNoStraddle(Elems(d1));
  }

  /** The hypothesis is needed: three storable updates of one symbol with distinct keys straddle. */
  lemma ThreeUpdatesCanStraddle() returns (a: Update, b: Update, c: Update)
    ensures AllStorable({a, b, c}) && KeyConsistent({a, b, c}) && Straddle(a, b, c)
    ensures !OrderFree({a, b, c})
  {
    a := Update(Row("S", "n", 1, 1, 1, 30, Hidden, None, None, 0), []);
    b := Update(Row("S", "n", 1, 2, 2, 10, Hidden, None, None, 0), []);
    c := Update(Row("S", "n", 2, 1, 1, 20, Hidden, None, None, 0), []);
    OrderFreeIffNoStraddle({a, b, c});
  }

  // ----- the rules in terms of the rows

  /** The causes that readers get of a shown update: of a rank from one to three, with at least one document, counted
      right and each once. Other updates bring none. */
  lemma {:induction false} KeepValidIs(causes: seq<Cause>, x: Cause)
    ensures x in KeepValid(causes) <==>
              && x in causes && (x.rank == 1 || x.rank == 2 || x.rank == 3)
              && x.documents != [] && x.sourceCount == |x.documents|
              && forall i, j :: 0 <= i < j < |x.documents| ==> x.documents[i] != x.documents[j]
  {
    if causes != [] {
      KeepValidIs(causes[1..], x);
      assert causes == [causes[0]] + causes[1..];
    }
  }

  lemma {:induction false} KeepValidInOrder(causes: seq<Cause>, i: nat, j: nat) returns (p: nat, q: nat)
    requires i < j < |KeepValid(causes)|
    ensures p < q < |causes| && causes[p] == KeepValid(causes)[i] && causes[q] == KeepValid(causes)[j]
  {
    var head := if ValidCause(causes[0]) then 1 else 0;
    var rest := KeepValid(causes[1..]);
    if i >= head {
      p, q := KeepValidInOrder(causes[1..], i - head, j - head);
      p, q := p + 1, q + 1;
    } else {
      KeepValidIs(causes[1..], rest[j - 1]);
      assert rest[j - 1] in rest;
      var k :| 0 <= k < |causes[1..]| && causes[1..][k] == rest[j - 1];
      p, q := 0, k + 1;
    }
  }

  lemma ServedAre(u: Update)
    ensures u.row.status == Shown ==> ServedCauses(u) == KeepValid(u.causes)
    ensures u.row.status != Shown ==> ServedCauses(u) == []
  {}

  /** `c` is at least as new as `e`: of one move by move version and version, else by window end and then move id. */
  ghost predicate AtLeastAsNew(c: Row, e: Row) {
    if c.moveId == e.moveId
    then e.moveVersion < c.moveVersion || (e.moveVersion == c.moveVersion && e.version <= c.version)
    else e.windowEnd < c.windowEnd || (e.windowEnd == c.windowEnd && e.moveId < c.moveId)
  }

  /** The row shown after any deliveries is the newest of its symbol. */
  lemma ShownIsNewest(t: Tables, s: set<Update>, u: Update)
    requires Settled(t, s) && u in s
    ensures u.row.symbol in t.current && AtLeastAsNew(t.current[u.row.symbol], u.row)
  {
    var w :| Best(s, w) && w.row.symbol == u.row.symbol && HoldsCurrent(t, w);
  }

  /** Two served causes of one rank. */
  ghost predicate RepeatsRank(u: Update) {
    exists i, j :: 0 <= i < j < |ServedCauses(u)| && ServedCauses(u)[i].rank == ServedCauses(u)[j].rank
  }

  /** A known status fails on a version below one, and on a repeated rank unless the version is known and not newer than
      the row shown. */
  lemma FailsWhen(t: Tables, u: Update)
    ensures !Accepts(t, u) <==>
              && (u.row.status == Shown || u.row.status == Hidden || u.row.status == NoCandidate)
              && (u.row.version < 1 || u.row.moveVersion < 1
                  || (RepeatsRank(u) && !((u.row.moveId, u.row.version) in t.history && u.row.symbol in t.current
                                          && !NewerThan(u.row, t.current[u.row.symbol]))))
  {}

  /** `e` is newer than `c`. */
  ghost predicate NewerThan(e: Row, c: Row) {
    if e.moveId == c.moveId
    then c.moveVersion < e.moveVersion || (c.moveVersion == e.moveVersion && c.version < e.version)
    else c.windowEnd < e.windowEnd || (c.windowEnd == e.windowEnd && c.moveId < e.moveId)
  }
}
