/**
 * The sliding-window limiter shared by the pollers of one app key.
 *
 * The clock is the sequence of its readings during one call: any nondecreasing
 * sequence, so a sleep may end early or late. Seconds are reals.
 */
module RateLimiter {
  import opened Prelude

  ghost predicate Nondecreasing(ts: seq<real>) {
    forall i, j :: 0 <= i < j < |ts| ==> ts[i] <= ts[j]
  }

  /** Any grant and the one `max` later are a period apart. */
  ghost predicate Spaced(grants: seq<real>, max: nat, period: real) {
    forall i, j :: 0 <= i && j == i + max && j < |grants| ==> grants[i] + period <= grants[j]
  }

  /** The queue holds the latest grants, and every grant it dropped is a period old at `clock`. */
  ghost predicate Tracks(calls: seq<real>, grants: seq<real>, clock: real, max: nat, period: real) {
    && |calls| <= max && |calls| <= |grants| && calls == grants[|grants| - |calls|..]
    && (grants != [] ==> grants[|grants| - 1] <= clock)
    && forall i :: 0 <= i < |grants| - |calls| ==> grants[i] + period <= clock
  }

  /** A grant is allowed at `now` when fewer than `max` grants lie within the last period. */
  ghost predicate Allowed(grants: seq<real>, max: nat, period: real, now: real)
    requires max >= 1
  {
    |grants| < max || grants[|grants| - max] + period <= now
  }

  lemma DropKeepsTracks(calls: seq<real>, grants: seq<real>, clock: real, max: nat, period: real)
    requires Tracks(calls, grants, clock, max, period) && calls != [] && clock - calls[0] >= period
    ensures Tracks(calls[1..], grants, clock, max, period)
  {
    assert calls[0] == grants[|grants| - |calls|];
  }

  lemma GrantKeepsTracks(calls: seq<real>, grants: seq<real>, clock: real, max: nat, period: real)
    requires max >= 1 && Tracks(calls, grants, clock, max, period) && |calls| < max
    requires Nondecreasing(grants) && Spaced(grants, max, period)
    ensures Allowed(grants, max, period, clock)
    ensures Tracks(calls + [clock], grants + [clock], clock, max, period)
    ensures Nondecreasing(grants + [clock]) && Spaced(grants + [clock], max, period)
  {}

  lemma FullMeansNotAllowed(calls: seq<real>, grants: seq<real>, clock: real, max: nat, period: real)
    requires max >= 1 && Tracks(calls, grants, clock, max, period) && |calls| == max && clock - calls[0] < period
    ensures |grants| >= max && grants[|grants| - max] == calls[0]
    ensures !Allowed(grants, max, period, clock)
  {}

  class SharedRateLimiter {
    const maxCalls: nat
    const period: real
    var calls: seq<real>
    /** All grants ever made, and the latest clock reading. */
    ghost var grants: seq<real>
    ghost var clock: real

    ghost predicate Valid()
      reads this
    {
      && maxCalls >= 1 && period > 0.0
      && Tracks(calls, grants, clock, maxCalls, period)
      && Nondecreasing(grants) && Spaced(grants, maxCalls, period)
    }

    constructor (maxCalls: nat, period: real)
      requires maxCalls >= 1 && period > 0.0
      ensures Valid() && grants == [] && this.maxCalls == maxCalls && this.period == period && clock == 0.0
    {
      this.maxCalls, this.period, calls := maxCalls, period, [];
      grants, clock := [], 0.0;
    }

    /** Invalid limits are refused. */
    static method Make(maxCalls: int, period: real) returns (limiter: Option<SharedRateLimiter>)
      ensures limiter.Some? <==> maxCalls >= 1 && period > 0.0
      ensures limiter.Some? ==> fresh(limiter.value) && limiter.value.Valid() && limiter.value.grants == []
    {
      if maxCalls < 1 || period <= 0.0 {
        return None;
      }
      var made := new SharedRateLimiter(maxCalls, period);
      return Some(made);
    }

    method DropExpired(now: real)
      requires Valid() && clock == now
      modifies this`calls
      ensures Valid() && (calls == [] || now - calls[0] < period)
    {
      while calls != [] && now - calls[0] >= period
        invariant Valid()
        decreases |calls|
      {
        DropKeepsTracks(calls, grants, clock, maxCalls, period);
        calls := calls[1..];
      }
    }

    /** One turn of the waiting loop at the clock reading `now`: a grant, or how long to sleep. */
    method Attempt(now: real) returns (sleep: Option<real>)
      requires Valid() && clock <= now
      modifies this
      ensures Valid() && clock == now
      ensures sleep.None? ==> grants == old(grants) + [now] && Allowed(old(grants), maxCalls, period, now)
      ensures sleep.Some? ==> grants == old(grants) && Refused(old(grants), maxCalls, period, now, sleep.value)
    {
      clock := now;
      DropExpired(now);
      if |calls| < maxCalls {
        GrantKeepsTracks(calls, grants, clock, maxCalls, period);
        calls, grants := calls + [now], grants + [now];
        return None;
      }
      FullMeansNotAllowed(calls, grants, clock, maxCalls, period);
      return Some(period - (now - calls[0]));
    }

    /**
     * Wait for the next grant. The result is the reading that was granted, or none when the readings
     * end first, which leaves the caller asleep.
     */
    method Acquire(readings: seq<real>) returns (granted: Option<real>, slept: seq<real>)
      requires Valid() && Nondecreasing(readings) && (readings != [] ==> clock <= readings[0])
      modifies this
      ensures Valid()
      ensures granted.Some? ==> |slept| < |readings| && granted.value == readings[|slept|] == clock
      ensures granted.Some? ==> grants == old(grants) + [granted.value]
      ensures granted.Some? ==> Allowed(old(grants), maxCalls, period, granted.value)
      ensures granted.None? ==> |slept| == |readings| && grants == old(grants)
      ensures forall i :: 0 <= i < |slept| ==> Refused(old(grants), maxCalls, period, readings[i], slept[i])
      ensures forall i :: 0 <= i < |slept| && i + 1 < |readings| && SleptInFull(readings, slept, i) ==>
                |slept| == i + 1 && granted == Some(readings[i + 1])
    {
      slept := [];
      granted := None;
      while |slept| < |readings|
        invariant Valid() && grants == old(grants) && |slept| <= |readings|
        invariant |slept| < |readings| ==> clock <= readings[|slept|]
        invariant forall i :: 0 <= i < |slept| ==> Refused(grants, maxCalls, period, readings[i], slept[i])
        decreases |readings| - |slept|
      {
        var now := readings[|slept|];
        var sleep := Attempt(now);
        if sleep.None? {
          return Some(now), slept;
        }
        slept := slept + [sleep.value];
      }
    }
  }

  /** The reading was not granted, and the sleep asked for lasts until the oldest call of the window expires. */
  ghost predicate Refused(grants: seq<real>, max: nat, period: real, now: real, asked: real)
    requires max >= 1
  {
    !Allowed(grants, max, period, now) && asked > 0.0 && now + asked == grants[|grants| - max] + period
  }

  /** The reading after the sleep `i` is no earlier than that sleep was asked to last. */
  ghost predicate SleptInFull(readings: seq<real>, slept: seq<real>, i: nat)
    requires i < |slept| && i + 1 < |readings|
  {
    readings[i + 1] >= readings[i] + slept[i]
  }

  /** No reading is refused after a full sleep: a second sleep means that the first one ended early. */
  lemma SecondSleepMeansShortSleep(grants: seq<real>, max: nat, period: real, readings: seq<real>, slept: seq<real>, i: nat)
    requires max >= 1 && i + 1 < |slept| <= |readings|
    requires Refused(grants, max, period, readings[i], slept[i]) && Refused(grants, max, period, readings[i + 1], slept[i + 1])
    ensures !SleptInFull(readings, slept, i)
  {}

  function CountIn(grants: seq<real>, from: real, until: real): nat {
    if grants == [] then 0
    else CountIn(grants[..|grants| - 1], from, until) + if from <= grants[|grants| - 1] < until then 1 else 0
  }

  /** The half-open period from `from` holds at most `max` grants. */
  predicate Within(grants: seq<real>, max: nat, period: real, from: real) {
    CountIn(grants, from, from + period) <= max
  }

  lemma {:induction false} CountAfter(grants: seq<real>, from: real, until: real, k: nat)
    requires k <= |grants| && forall i :: 0 <= i < k ==> grants[i] < from
    ensures CountIn(grants, from, until) <= |grants| - k
  {
    if |grants| > k {
      CountAfter(grants[..|grants| - 1], from, until, k);
    } else if grants != [] {
      CountAfter(grants[..|grants| - 1], from, until, k - 1);
    }
  }

  /** No half-open period, wherever it starts, holds more than `max` grants. */
  lemma {:induction false} NoPeriodHoldsMore(grants: seq<real>, max: nat, period: real, from: real)
    requires max >= 1 && Nondecreasing(grants) && Spaced(grants, max, period)
    ensures Within(grants, max, period, from)
  {
    if grants != [] {
      var front, last := grants[..|grants| - 1], grants[|grants| - 1];
      if from <= last < from + period && |grants| > max {
        forall i | 0 <= i < |grants| - max ensures grants[i] < from {
          var k := |grants| - 1 - max;
          assert grants[k] + period <= grants[k + max];
          assert i == k || grants[i] <= grants[k];
        }
        CountAfter(grants, from, from + period, |grants| - max);
      } else if |grants| <= max {
        CountAfter(grants, from, from + period, 0);
      } else {
        NoPeriodHoldsMore(front, max, period, from);
      }
    }
  }

  /** The bound is exactly the spacing: grants that keep every period within `max` are spaced. */
  lemma BoundedPeriodsAreSpaced(grants: seq<real>, max: nat, period: real)
    requires max >= 1 && Nondecreasing(grants)
    requires forall from :: Within(grants, max, period, from)
    ensures Spaced(grants, max, period)
  {
    forall i, j | 0 <= i && j == i + max && j < |grants| ensures grants[i] + period <= grants[j] {
      assert Within(grants, max, period, grants[i]);
      if grants[j] < grants[i] + period {
        CountRun(grants, i, j, grants[i], grants[i] + period);
      }
    }
  }

  lemma {:induction false} CountRun(grants: seq<real>, i: nat, j: nat, from: real, until: real)
    requires i <= j < |grants| && forall k :: i <= k <= j ==> from <= grants[k] < until
    ensures CountIn(grants, from, until) >= j - i + 1
  {
    if j < |grants| - 1 {
      CountRun(grants[..|grants| - 1], i, j, from, until);
    } else if i < j {
      CountRun(grants[..|grants| - 1], i, j - 1, from, until);
    }
  }
}
