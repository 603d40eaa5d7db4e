/**
 * The loop around the serving sink: each message is handled in its own transaction,
 * with a few retries, and its offset is committed only afterwards.
 */
module Consumer {
  import opened ServingSink
  import opened Transport

  const MAX_ATTEMPTS := 3

  /** How one message fares besides its content: which attempts are broken off by the environment, and whether
      the offset commit succeeds. */
  datatype Round = Round(faults: seq<bool>, commits: bool)

  datatype Processed = Committed | Unconfirmed | Raised

  predicate SomeAttemptRuns(faults: seq<bool>) {
    exists k :: 0 <= k < 3 && k < |faults| && !faults[k]
  }

  lemma AppliedSnoc(t: Tables, messages: seq<Update>, n: nat)
    requires n < |messages|
    ensures ApplyAll(t, messages[..n + 1]) == Apply(ApplyAll(t, messages[..n]), messages[n])
  {
    assert messages[..n + 1][..n] == messages[..n];
  }

  class ServingConsumer {
    const db: ServingDatabase
    /** The transport as this consumer sees it: the topic, the committed offset, and the tables. */
    ghost var bus: Bus

    constructor (db: ServingDatabase, bus: Bus)
      ensures this.db == db && this.bus == bus
    {
      this.db, this.bus := db, bus;
    }

    /** Between two messages: no transaction is ahead of the committed offset. */
    ghost predicate Idle()
      reads this, db
    {
      Stopped() && bus.sink.applied == bus.sink.offset
    }

    /** Wherever a run ended. */
    ghost predicate Stopped()
      reads this, db
    {
      db.Valid() && BusInv(bus) && bus.sink.tables == db.View()
    }

    /** One transaction per attempt; a failed attempt leaves no trace, and no attempt follows a successful one. */
    method HandleMessage(u: Update, faults: seq<bool>) returns (ok: bool)
      requires db.Valid() && |faults| >= MAX_ATTEMPTS
      modifies db
      ensures db.Valid()
      ensures ok <==> SomeAttemptRuns(faults) && Accepts(old(db.View()), u)
      ensures db.View() == if ok then Apply(old(db.View()), u) else old(db.View())
    {
      for attempt := 0 to MAX_ATTEMPTS
        invariant db.Valid() && db.View() == old(db.View())
        invariant forall k :: 0 <= k < attempt ==> faults[k] || !Accepts(old(db.View()), u)
      {
        if !faults[attempt] {
          var outcome := db.Handle(u);
          if outcome != Failed {
            return true;
          }
        }
      }
      return false;
    }

    /** Handle the next message, then commit its offset; a message that cannot be handled keeps its offset. */
    method Process(u: Update, round: Round) returns (result: Processed)
      requires Idle() && bus.sink.offset < |bus.updates| && u == bus.updates[bus.sink.offset] && |round.faults| >= MAX_ATTEMPTS
      modifies this`bus, db
      ensures Stopped()
      ensures result == Raised <==> !(SomeAttemptRuns(round.faults) && Accepts(old(db.View()), u))
      ensures bus.updates == old(bus).updates
      ensures bus.sink.offset == old(bus).sink.offset + if result == Committed then 1 else 0
      ensures bus.sink.applied == old(bus).sink.offset + if result == Raised then 0 else 1
      ensures db.View() == if result == Raised then old(db.View()) else Apply(old(db.View()), u)
      ensures result == Raised ==> bus == old(bus)
      ensures result == Unconfirmed ==> !round.commits && bus == Do(old(bus), SinkTransaction)
      ensures result == Committed ==> round.commits && bus == Do(Do(old(bus), SinkTransaction), CommitOffset)
    {
      var ok := HandleMessage(u, round.faults);
      if !ok {
        return Raised;
      }
      StepKeepsBusInv(bus, SinkTransaction);
      bus := Do(bus, SinkTransaction);
      if !round.commits {
        return Unconfirmed;
      }
      StepKeepsBusInv(bus, CommitOffset);
      bus := Do(bus, CommitOffset);
      return Committed;
    }

    /** A restarted consumer resumes at the committed offset, whatever its last transaction did. */
    ghost method Restart()
      requires Stopped()
      modifies this`bus
      ensures Idle() && bus == Do(old(bus), SinkRestarts)
    {
      StepKeepsBusInv(bus, SinkRestarts);
      bus := Do(bus, SinkRestarts);
    }

    /** Poll and process until a message fails: each committed message moves the offset by one, and the
        tables take every message up to it, in order. */
    method Run(messages: seq<Update>, rounds: seq<Round>) returns (handled: nat)
      requires Idle() && bus.updates[bus.sink.offset..] == messages && |rounds| == |messages|
      requires forall i :: 0 <= i < |rounds| ==> |rounds[i].faults| >= MAX_ATTEMPTS
      modifies this`bus, db
      ensures Stopped() && handled <= |messages|
      ensures bus.sink.offset == old(bus).sink.offset + handled && bus.updates == old(bus).updates
      ensures bus.sink.applied == bus.sink.offset ==> db.View() == ApplyAll(old(db.View()), messages[..handled])
      ensures bus.sink.applied != bus.sink.offset ==>
                handled < |messages| && db.View() == ApplyAll(old(db.View()), messages[..handled + 1])
    {
      handled := 0;
      while handled < |messages|
        invariant Idle() && handled <= |messages| && bus.updates == old(bus).updates
        invariant bus.sink.offset == old(bus).sink.offset + handled
        invariant db.View() == ApplyAll(old(db.View()), messages[..handled])
        decreases |messages| - handled
      {
        AppliedSnoc(old(db.View()), messages, handled);
        assert messages[handled] == bus.updates[bus.sink.offset];
        var result := Process(messages[handled], rounds[handled]);
        if result != Committed {
          return;
        }
        handled := handled + 1;
      }
    }

    /** The next run of a consumer that stopped anywhere: it starts at the committed offset, so a message whose offset
        was not committed is taken once more. Runs may follow each other without end. */
    method Resume(messages: seq<Update>, rounds: seq<Round>) returns (handled: nat)
      requires Stopped() && bus.updates[bus.sink.offset..] == messages && |rounds| == |messages|
      requires forall i :: 0 <= i < |rounds| ==> |rounds[i].faults| >= MAX_ATTEMPTS
      modifies this`bus, db
      ensures Stopped() && handled <= |messages|
      ensures bus.sink.offset == old(bus).sink.offset + handled && bus.updates == old(bus).updates
      ensures bus.sink.applied == bus.sink.offset ==> db.View() == ApplyAll(old(db.View()), messages[..handled])
      ensures bus.sink.applied != bus.sink.offset ==>
                handled < |messages| && db.View() == ApplyAll(old(db.View()), messages[..handled + 1])
    {
      Restart();
      handled := Run(messages, rounds);
    }
  }
}
