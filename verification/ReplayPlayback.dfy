/**
 * Replay playback: the windows around key events, and the playhead that runs at
 * the selected speed inside them and hurries through the gaps between them.
 * Positions and times are milliseconds, as reals.
 */
module ReplayPlayback {
  import opened Prelude

  const LEAD := 300_000.0
  const TRAIL := 600_000.0
  const IDLE_TARGET := 2_500.0

  datatype Window = Window(start: real, end: real)

  datatype Plan = Plan(start: real, end: real, windows: seq<Window>)

  /** Windows are sorted, strictly separated and inside the plan. */
  ghost predicate WellFormed(p: Plan) {
    && (forall i :: 0 <= i < |p.windows| ==> p.start <= p.windows[i].start <= p.windows[i].end <= p.end)
    && forall i, j :: 0 <= i < j < |p.windows| ==> p.windows[i].end < p.windows[j].start
  }

  // ----- building the plan

  ghost predicate Ascending(ts: seq<real>) {
    forall i, j :: 0 <= i < j < |ts| ==> ts[i] < ts[j]
  }

  function InsertTime(t: real, ts: seq<real>): seq<real> {
    if ts == [] || t < ts[0] then [t] + ts
    else if t == ts[0] then ts
    else [ts[0]] + InsertTime(t, ts[1..])
  }

  /** Distinct event times inside [start, end], in ascending order. */
  function EventTimes(events: seq<real>, start: real, end: real): seq<real> {
    if events == [] then []
    else
      var rest := EventTimes(events[1..], start, end);
      if start <= events[0] <= end then InsertTime(events[0], rest) else rest
  }

  lemma {:induction false} InsertTimeSorts(t: real, ts: seq<real>)
    requires Ascending(ts)
    ensures Ascending(InsertTime(t, ts))
    ensures forall x :: x in InsertTime(t, ts) <==> x == t || x in ts
  {
    if ts != [] && ts[0] < t {
      InsertTimeSorts(t, ts[1..]);
      var rest := InsertTime(t, ts[1..]);
      forall j | 0 <= j < |rest| ensures ts[0] < rest[j] {
        assert rest[j] in rest;
      }
      assert ts == [ts[0]] + ts[1..];
    }
  }

  lemma {:induction false} EventTimesAreSorted(events: seq<real>, start: real, end: real)
    ensures Ascending(EventTimes(events, start, end))
    ensures forall x :: x in EventTimes(events, start, end) <==> x in events && start <= x <= end
  {
    if events != [] {
      EventTimesAreSorted(events[1..], start, end);
      assert events == [events[0]] + events[1..];
      if start <= events[0] <= end {
        InsertTimeSorts(events[0], EventTimes(events[1..], start, end));
      }
    }
  }

  /** `x` lies in the clipped lead and trail interval of the event at `t`. */
  ghost predicate Near(t: real, start: real, end: real, x: real) {
    Max(start, t - 300_000.0) <= x <= Min(end, t + 600_000.0)
  }

  ghost predicate CoveredBy(ws: seq<Window>, x: real) {
    exists i :: 0 <= i < |ws| && ws[i].start <= x <= ws[i].end
  }

  ghost predicate NearSome(ts: seq<real>, start: real, end: real, x: real) {
    exists i :: 0 <= i < |ts| && Near(ts[i], start, end, x)
  }

  /** What the first `k` event times have produced. */
  ghost predicate Built(ws: seq<Window>, times: seq<real>, k: nat, start: real, end: real)
    requires k <= |times|
  {
    && WellFormed(Plan(start, end, ws))
    && (ws == [] <==> k == 0)
    && (k > 0 ==> ws[|ws| - 1].end == Min(end, times[k - 1] + TRAIL) && ws[|ws| - 1].start <= Max(start, times[k - 1] - LEAD))
    && forall x :: CoveredBy(ws, x) <==> NearSome(times[..k], start, end, x)
  }

  /** Merge into the last window on contact, or open a new one. */
  function AddWindow(ws: seq<Window>, w: Window): seq<Window> {
    if ws != [] && w.start <= ws[|ws| - 1].end
    then ws[|ws| - 1 := ws[|ws| - 1].(end := Max(ws[|ws| - 1].end, w.end))]
    else ws + [w]
  }

  lemma AddWindowBuilds(ws: seq<Window>, times: seq<real>, k: nat, start: real, end: real)
    requires k < |times| && Built(ws, times, k, start, end) && Ascending(times) && start <= times[k] <= end
    ensures Built(AddWindow(ws, Window(Max(start, times[k] - LEAD), Min(end, times[k] + TRAIL))), times, k + 1, start, end)
  {
    var w := Window(Max(start, times[k] - LEAD), Min(end, times[k] + TRAIL));
    assert k > 0 ==> times[k - 1] < times[k];
    if ws != [] && w.start <= ws[|ws| - 1].end {
      MergedCoverage(ws, w, AddWindow(ws, w));
    } else {
      AppendedCoverage(ws, w);
    }
    NearSomeSnoc(times, k, start, end);
    AddWindowStaysWellFormed(ws, w, start, end);
  }

  lemma AddWindowStaysWellFormed(ws: seq<Window>, w: Window, start: real, end: real)
    requires WellFormed(Plan(start, end, ws)) && start <= w.start <= w.end <= end
    requires ws != [] ==> ws[|ws| - 1].start <= w.start
    ensures WellFormed(Plan(start, end, AddWindow(ws, w)))
  {}

  /** A window that touches the last one extends it in place; any other is appended. */
  method MergeOrOpen(windows: seq<Window>, window: Window) returns (merged: seq<Window>)
    ensures merged == AddWindow(windows, window)
  {
    if windows != [] && window.start <= windows[|windows| - 1].end {
      var previous := windows[|windows| - 1];
      merged := windows[|windows| - 1 := previous.(end := Max(previous.end, window.end))];
    } else {
      merged := windows + [window];
    }
  }

  /** The windows are well formed and cover exactly the surroundings of the events in range. */
  method BuildPlaybackPlan(events: seq<real>, start: real, end: real) returns (plan: Plan)
    ensures plan.start == start && plan.end == end && WellFormed(plan)
    ensures forall x :: CoveredBy(plan.windows, x) <==>
              exists t :: t in events && start <= t <= end && Near(t, start, end, x)
  {
    var windows: seq<Window> := [];
    var times := EventTimes(events, start, end);
    EventTimesAreSorted(events, start, end);
    for k := 0 to |times|
      invariant Built(windows, times, k, start, end)
    {
      assert times[k] in times;
      AddWindowBuilds(windows, times, k, start, end);
      windows := MergeOrOpen(windows, Window(Max(start, times[k] - LEAD), Min(end, times[k] + TRAIL)));
    }
    plan := Plan(start, end, windows);
    NearSomeEvent(events, times, start, end);
  }

  lemma NearSomeEvent(events: seq<real>, times: seq<real>, start: real, end: real)
    requires forall x :: x in times <==> x in events && start <= x <= end
    ensures forall x :: NearSome(times[..|times|], start, end, x) <==>
              exists t :: t in events && start <= t <= end && Near(t, start, end, x)
  {
    assert times[..|times|] == times;
    forall x | NearSome(times, start, end, x)
      ensures exists t :: t in events && start <= t <= end && Near(t, start, end, x)
    {
      var i :| 0 <= i < |times| && Near(times[i], start, end, x);
      assert times[i] in times;
    }
    forall x, t | t in events && start <= t <= end && Near(t, start, end, x) ensures NearSome(times, start, end, x) {
      assert t in times;
      var i :| 0 <= i < |times| && times[i] == t;
    }
  }

  lemma NearSomeSnoc(times: seq<real>, k: nat, start: real, end: real)
    requires k < |times|
    ensures forall x :: NearSome(times[..k + 1], start, end, x) <==>
              NearSome(times[..k], start, end, x) || Near(times[k], start, end, x)
  {
    forall x | NearSome(times[..k], start, end, x) || Near(times[k], start, end, x)
      ensures NearSome(times[..k + 1], start, end, x)
    {
      if Near(times[k], start, end, x) {
        assert times[..k + 1][k] == times[k];
      } else {
        var i :| 0 <= i < k && Near(times[..k][i], start, end, x);
        assert times[..k + 1][i] == times[..k][i];
      }
    }
    forall x | NearSome(times[..k + 1], start, end, x)
      ensures NearSome(times[..k], start, end, x) || Near(times[k], start, end, x)
    {
      var i :| 0 <= i < k + 1 && Near(times[..k + 1][i], start, end, x);
      if i < k {
        assert times[..k][i] == times[..k + 1][i];
      }
    }
  }

  lemma AppendedCoverage(ws: seq<Window>, w: Window)
    ensures forall x :: CoveredBy(ws + [w], x) <==> CoveredBy(ws, x) || w.start <= x <= w.end
  {
    forall x | CoveredBy(ws, x) || w.start <= x <= w.end ensures CoveredBy(ws + [w], x) {
      if w.start <= x <= w.end {
        assert (ws + [w])[|ws|] == w;
      } else {
        var i :| 0 <= i < |ws| && ws[i].start <= x <= ws[i].end;
        assert (ws + [w])[i] == ws[i];
      }
    }
  }

  lemma MergedCoverage(ws: seq<Window>, w: Window, ws': seq<Window>)
    requires ws != [] && ws[|ws| - 1].start <= w.start <= ws[|ws| - 1].end
    requires ws' == ws[|ws| - 1 := ws[|ws| - 1].(end := Max(ws[|ws| - 1].end, w.end))]
    ensures forall x :: CoveredBy(ws', x) <==> CoveredBy(ws, x) || w.start <= x <= w.end
  {
    var last := |ws| - 1;
    forall x | CoveredBy(ws, x) || w.start <= x <= w.end ensures CoveredBy(ws', x) {
      if w.start <= x <= w.end {
        assert ws'[last].start <= x <= ws'[last].end;
      } else {
        var i :| 0 <= i < |ws| && ws[i].start <= x <= ws[i].end;
        assert ws'[i].start <= x <= ws'[i].end;
      }
    }
    forall x | CoveredBy(ws', x) ensures CoveredBy(ws, x) || w.start <= x <= w.end {
      var i :| 0 <= i < |ws'| && ws'[i].start <= x <= ws'[i].end;
      assert i < last ==> ws[i] == ws'[i];
      assert i == last ==> ws[last].start <= x <= ws[last].end || w.start <= x <= w.end;
    }
  }

  // ----- the segment at a position

  function FindActive(ws: seq<Window>, p: real): Option<Window> {
    if ws == [] then None
    else if ws[0].start <= p < ws[0].end then Some(ws[0])
    else FindActive(ws[1..], p)
  }

  function FindNext(ws: seq<Window>, p: real): Option<Window> {
    if ws == [] then None
    else if ws[0].start > p then Some(ws[0])
    else FindNext(ws[1..], p)
  }

  function FindPrevious(ws: seq<Window>, p: real): Option<Window> {
    if ws == [] then None
    else if ws[|ws| - 1].end <= p then Some(ws[|ws| - 1])
    else FindPrevious(ws[..|ws| - 1], p)
  }

  /** Where the segment at `p` ends, and the rate in it. */
  datatype Segment = Segment(end: real, rate: real)

  function SegmentAt(plan: Plan, normal: real, p: real): Segment {
    match FindActive(plan.windows, p)
    case Some(active) => Segment(active.end, normal)
    case None =>
      var previous, next := FindPrevious(plan.windows, p), FindNext(plan.windows, p);
      var idleStart := if previous.Some? then previous.value.end else plan.start;
      var idleEnd := if next.Some? then next.value.start else plan.end;
      Segment(idleEnd, Max(normal, (idleEnd - idleStart) / IDLE_TARGET))
  }

  // ----- termination: boundaries ahead

  function Boundaries(plan: Plan): seq<real> { BoundariesOf(plan.windows) + [plan.end] }

  function BoundariesOf(ws: seq<Window>): seq<real> {
    if ws == [] then [] else [ws[0].start, ws[0].end] + BoundariesOf(ws[1..])
  }

  function CountAbove(bs: seq<real>, p: real): nat {
    if bs == [] then 0 else (if bs[0] > p then 1 else 0) + CountAbove(bs[1..], p)
  }

  /** Segment boundaries strictly ahead of a position. */
  function Ahead(plan: Plan, p: real): nat { CountAbove(Boundaries(plan), p) }

  lemma {:induction false} CountAboveFalls(bs: seq<real>, p: real, q: real)
    requires p <= q
    ensures CountAbove(bs, q) <= CountAbove(bs, p)
    ensures q in bs && p < q ==> CountAbove(bs, q) < CountAbove(bs, p)
  {
    if bs != [] {
      CountAboveFalls(bs[1..], p, q);
      assert bs == [bs[0]] + bs[1..];
    }
  }

  lemma {:induction false} FoundAreBoundaries(ws: seq<Window>, p: real)
    ensures FindActive(ws, p).Some? ==> FindActive(ws, p).value.end in BoundariesOf(ws) && p < FindActive(ws, p).value.end
    ensures FindNext(ws, p).Some? ==> FindNext(ws, p).value.start in BoundariesOf(ws) && p < FindNext(ws, p).value.start
  {
    if ws != [] {
      FoundAreBoundaries(ws[1..], p);
    }
  }

  /** Reaching the end of the segment leaves fewer boundaries ahead, on any plan. */
  lemma SegmentEndIsAhead(plan: Plan, normal: real, p: real)
    requires p < plan.end
    ensures p < SegmentAt(plan, normal, p).end
    ensures Ahead(plan, SegmentAt(plan, normal, p).end) < Ahead(plan, p)
  {
    FoundAreBoundaries(plan.windows, p);
    CountAboveFalls(Boundaries(plan), p, SegmentAt(plan, normal, p).end);
  }

  // ----- advancing

  /** Position and flag after running `wall` milliseconds from `p`. */
  datatype Advance = Advance(next: real, fastForwarding: bool)

  function Flow(plan: Plan, normal: real, p: real, wall: real, flag: bool): Advance
    decreases Ahead(plan, p)
  {
    if wall <= 0.0 || p >= plan.end then Advance(p, flag)
    else
      SegmentEndIsAhead(plan, normal, p);
      var s := SegmentAt(plan, normal, p);
      var fast := FindActive(plan.windows, p).None? && s.rate > normal;
      if s.rate <= 0.0 then Advance(p, fast)
      else
        var toBoundary := (s.end - p) / s.rate;
        if wall <= toBoundary then Advance(p + wall * s.rate, fast)
        else Flow(plan, normal, s.end, wall - toBoundary, fast)
  }

  function NormalRate(speed: real): real { Max(0.0, speed) * 60.0 }

  function Clamp(plan: Plan, p: real): real { Max(plan.start, Min(plan.end, p)) }

  function AdvancePlayhead(current: real, elapsed: real, speed: real, plan: Plan, skipIdle: bool): Advance {
    var p, normal := Clamp(plan, current), NormalRate(speed);
    if !skipIdle || p >= plan.end || elapsed <= 0.0
    then Advance(Min(plan.end, p + Max(0.0, elapsed) * normal), false)
    else var f := Flow(plan, normal, p, elapsed, false);
         Advance(Min(plan.end, f.next), f.fastForwarding)
  }

  /** Moving forward at a positive rate never adds boundaries ahead. */
  lemma RunningIsForward(plan: Plan, p: real, wall: real, rate: real)
    requires wall > 0.0 && rate > 0.0
    ensures p < p + wall * rate && Ahead(plan, p + wall * rate) <= Ahead(plan, p)
  {
    CountAboveFalls(Boundaries(plan), p, p + wall * rate);
  }

  /** The flag of the segment at `p`. */
  function FastAt(plan: Plan, normal: real, p: real): bool {
    FindActive(plan.windows, p).None? && SegmentAt(plan, normal, p).rate > normal
  }

  lemma FlowEndsInSegment(plan: Plan, normal: real, p: real, wall: real, flag: bool)
    requires wall > 0.0 && p < plan.end
    ensures var s := SegmentAt(plan, normal, p);
            && (s.rate <= 0.0 ==> Flow(plan, normal, p, wall, flag) == Advance(p, FastAt(plan, normal, p)))
            && (s.rate > 0.0 && wall <= (s.end - p) / s.rate ==>
                  Flow(plan, normal, p, wall, flag) == Advance(p + wall * s.rate, FastAt(plan, normal, p)))
            && (s.rate > 0.0 && wall > (s.end - p) / s.rate ==>
                  Flow(plan, normal, p, wall, flag)
                    == Flow(plan, normal, s.end, wall - (s.end - p) / s.rate, FastAt(plan, normal, p)))
  {}

  /** The segment search of the loop body. */
  method LookUpSegment(plan: Plan, normal: real, p: real) returns (segmentEnd: real, rate: real, fast: bool)
    ensures Segment(segmentEnd, rate) == SegmentAt(plan, normal, p) && fast == FastAt(plan, normal, p)
  {
    var active := FindActive(plan.windows, p);
    if active.Some? {
      return active.value.end, normal, false;
    }
    var previous := FindPrevious(plan.windows, p);
    var following := FindNext(plan.windows, p);
    var idleStart := if previous.Some? then previous.value.end else plan.start;
    segmentEnd := if following.Some? then following.value.start else plan.end;
    rate := Max(normal, (segmentEnd - idleStart) / IDLE_TARGET);
    fast := rate > normal;
  }

  /** One round of the loop: run to the segment's end, or as far as the wall time lasts. */
  method PlaySegment(plan: Plan, normal: real, p: real, wall: real, ghost flag: bool)
    returns (next: real, remaining: real, fast: bool, stuck: bool)
    requires wall > 0.0 && p < plan.end
    ensures stuck ==> Flow(plan, normal, p, wall, flag) == Advance(p, fast)
    ensures !stuck ==> Flow(plan, normal, p, wall, flag) == Flow(plan, normal, next, remaining, fast)
    ensures !stuck ==> Ahead(plan, next) < Ahead(plan, p) || (remaining == 0.0 && Ahead(plan, next) <= Ahead(plan, p))
    ensures next == p || !stuck
  {
    SegmentEndIsAhead(plan, normal, p);
    FlowEndsInSegment(plan, normal, p, wall, flag);
    var segmentEnd, rate;
    segmentEnd, rate, fast := LookUpSegment(plan, normal, p);
    if rate <= 0.0 {
      return p, wall, fast, true;
    }
    var toBoundary := (segmentEnd - p) / rate;
    if wall <= toBoundary {
      RunningIsForward(plan, p, wall, rate);
      return p + wall * rate, 0.0, fast, false;
    }
    return segmentEnd, wall - toBoundary, fast, false;
  }

  /** The playback loop. It terminates on every plan: each round but the last passes a boundary. */
  method RunLoop(plan: Plan, normal: real, from: real, elapsed: real) returns (next: real, fastForwarding: bool)
    ensures Advance(next, fastForwarding) == Flow(plan, normal, from, elapsed, false)
  {
    next := from;
    var remaining := elapsed;
    fastForwarding := false;
    while remaining > 0.0 && next < plan.end
      invariant Flow(plan, normal, next, remaining, fastForwarding) == Flow(plan, normal, from, elapsed, false)
      decreases Ahead(plan, next), remaining > 0.0
    {
      var stuck;
      next, remaining, fastForwarding, stuck := PlaySegment(plan, normal, next, remaining, fastForwarding);
      if stuck {
        return;
      }
    }
  }

  method AdvanceReplayPlayhead(current: real, elapsed: real, speed: real, plan: Plan, skipIdle: bool)
    returns (next: real, fastForwarding: bool)
    ensures Advance(next, fastForwarding) == AdvancePlayhead(current, elapsed, speed, plan, skipIdle)
    ensures !skipIdle ==>
              && next == Min(plan.end, Max(plan.start, Min(plan.end, current)) + Max(0.0, elapsed) * (Max(0.0, speed) * 60.0))
              && !fastForwarding
  {
    var clamped := Max(plan.start, Min(plan.end, current));
    var normal := Max(0.0, speed) * 60.0;
    if !skipIdle || clamped >= plan.end || elapsed <= 0.0 {
      return Min(plan.end, clamped + Max(0.0, elapsed) * normal), false;
    }
    next, fastForwarding := RunLoop(plan, normal, clamped, elapsed);
    next := Min(plan.end, next);
  }
}
