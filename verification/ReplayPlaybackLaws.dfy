/** Laws of the playhead: frame-rate independence, bounds, and the time a whole plan takes. */
module ReplayPlaybackLaws {
  import opened Prelude
  import opened ReplayPlayback

  // ----- the searches, by index

  lemma {:induction false} ActiveIs(ws: seq<Window>, p: real, i: nat)
    requires i < |ws| && ws[i].start <= p < ws[i].end
    requires forall j :: 0 <= j < i ==> ws[j].end < ws[i].start
    ensures FindActive(ws, p) == Some(ws[i])
  {
    if i > 0 {
      assert ws[0].end < ws[i].start;
      ActiveIs(ws[1..], p, i - 1);
    }
  }

  lemma {:induction false} NoneActive(ws: seq<Window>, p: real)
    requires forall j :: 0 <= j < |ws| ==> !(ws[j].start <= p < ws[j].end)
    ensures FindActive(ws, p) == None
  {
    if ws != [] {
      NoneActive(ws[1..], p);
    }
  }

  lemma {:induction false} NextIs(ws: seq<Window>, p: real, i: nat)
    requires i <= |ws| && (forall j :: 0 <= j < i ==> ws[j].start <= p) && (i < |ws| ==> p < ws[i].start)
    ensures FindNext(ws, p) == if i < |ws| then Some(ws[i]) else None
  {
    if i > 0 {
      NextIs(ws[1..], p, i - 1);
    }
  }

  lemma {:induction false} PreviousIs(ws: seq<Window>, p: real, i: nat)
    requires i <= |ws| && (forall j :: i <= j < |ws| ==> p < ws[j].end) && (i > 0 ==> ws[i - 1].end <= p)
    ensures FindPrevious(ws, p) == if i > 0 then Some(ws[i - 1]) else None
  {
    if i < |ws| {
      PreviousIs(ws[..|ws| - 1], p, i);
    }
  }

  /** `p` is in the gap before window `i`: past window i - 1 and before window i. */
  ghost predicate InGap(plan: Plan, i: nat, p: real) {
    && i <= |plan.windows|
    && (i > 0 ==> plan.windows[i - 1].end <= p)
    && (i < |plan.windows| ==> p < plan.windows[i].start)
  }

  ghost predicate InWindow(plan: Plan, i: nat, p: real) {
    i < |plan.windows| && plan.windows[i].start <= p < plan.windows[i].end
  }

  function GapStart(plan: Plan, i: nat): real
    requires i <= |plan.windows|
  {
    if i > 0 then plan.windows[i - 1].end else plan.start
  }

  function GapEnd(plan: Plan, i: nat): real
    requires i <= |plan.windows|
  {
    if i < |plan.windows| then plan.windows[i].start else plan.end
  }

  function GapRate(plan: Plan, normal: real, i: nat): real
    requires i <= |plan.windows|
  {
    Max(normal, (GapEnd(plan, i) - GapStart(plan, i)) / IDLE_TARGET)
  }

  lemma WindowSegment(plan: Plan, normal: real, i: nat, p: real)
    requires WellFormed(plan) && InWindow(plan, i, p)
    ensures SegmentAt(plan, normal, p) == Segment(plan.windows[i].end, normal) && !FastAt(plan, normal, p)
  {
    ActiveIs(plan.windows, p, i);
  }

  lemma GapSegment(plan: Plan, normal: real, i: nat, p: real)
    requires WellFormed(plan) && InGap(plan, i, p)
    ensures SegmentAt(plan, normal, p) == Segment(GapEnd(plan, i), GapRate(plan, normal, i))
    ensures FastAt(plan, normal, p) <==> GapRate(plan, normal, i) > normal
  {
    var ws := plan.windows;
    forall j | 0 <= j < |ws| ensures if j < i then ws[j].start <= ws[j].end <= p else p < ws[j].start <= ws[j].end {
      assert j < i - 1 ==> ws[j].end < ws[i - 1].start;
      assert i < j ==> ws[i].end < ws[j].start;
    }
    NoneActive(ws, p);
    NextIs(ws, p, i);
    PreviousIs(ws, p, i);
  }

  /** Every position before the end is in exactly one window or gap. */
  lemma {:induction false} Locate(plan: Plan, p: real, i: nat) returns (k: nat)
    requires WellFormed(plan) && i <= |plan.windows| && (i > 0 ==> plan.windows[i - 1].end <= p)
    ensures InGap(plan, k, p) || InWindow(plan, k, p)
    decreases |plan.windows| - i
  {
    if i == |plan.windows| || p < plan.windows[i].end {
      k := i;
    } else {
      k := Locate(plan, p, i + 1);
    }
  }

  /** The rate is constant up to the segment's end. */
  lemma SegmentIsConstant(plan: Plan, normal: real, p: real, q: real)
    requires WellFormed(plan) && p < plan.end && p <= q < SegmentAt(plan, normal, p).end
    ensures SegmentAt(plan, normal, q) == SegmentAt(plan, normal, p)
    ensures FastAt(plan, normal, q) == FastAt(plan, normal, p)
  {
    var i := Locate(plan, p, 0);
    if InGap(plan, i, p) {
      GapSegment(plan, normal, i, p);
      GapSegment(plan, normal, i, q);
    } else {
      WindowSegment(plan, normal, i, p);
      WindowSegment(plan, normal, i, q);
    }
  }

  lemma SegmentStaysInside(plan: Plan, normal: real, p: real)
    requires WellFormed(plan) && p < plan.end
    ensures p < SegmentAt(plan, normal, p).end <= plan.end
  {
    SegmentEndIsAhead(plan, normal, p);
    var i := Locate(plan, p, 0);
    if InGap(plan, i, p) {
      GapSegment(plan, normal, i, p);
    } else {
      WindowSegment(plan, normal, i, p);
    }
  }

  // ----- arithmetic of one segment

  lemma DivTimes(x: real, r: real)
    requires r > 0.0
    ensures (x / r) * r == x
  {}

  lemma TimesMonotone(a: real, b: real, r: real)
    requires r > 0.0
    ensures a < b <==> a * r < b * r
  {}

  /** Running part of a segment leaves the rest of its time. */
  lemma RestOfSegment(p: real, e: real, r: real, a: real)
    requires r > 0.0 && 0.0 <= a <= (e - p) / r
    ensures p <= p + a * r <= e
    ensures a < (e - p) / r <==> p + a * r < e
    ensures (e - (p + a * r)) / r == (e - p) / r - a
  {
    var t := (e - p) / r;
    DivTimes(e - p, r);
    TimesMonotone(a, t, r);
    TimesMonotone(t, a, r);
    assert a * r >= 0.0;
    assert e - (p + a * r) == (t - a) * r;
    assert ((t - a) * r) / r == t - a;
  }

  lemma RunsAddUp(p: real, r: real, a: real, b: real)
    ensures (p + a * r) + b * r == p + (a + b) * r
  {}

  // ----- frame-rate independence

  /** The position alone. */
  function Pos(plan: Plan, normal: real, p: real, wall: real): real {
    Flow(plan, normal, p, wall, false).next
  }

  lemma PosStops(plan: Plan, normal: real, p: real, wall: real)
    requires wall <= 0.0 || p >= plan.end
    ensures Pos(plan, normal, p, wall) == p
  {}

  /** The flag handed in never changes the position. */
  lemma FlagIsOutput(plan: Plan, normal: real, p: real, wall: real, f: bool)
    ensures Flow(plan, normal, p, wall, f).next == Pos(plan, normal, p, wall)
  {
    if wall > 0.0 && p < plan.end {
      FlowEndsInSegment(plan, normal, p, wall, f);
      FlowEndsInSegment(plan, normal, p, wall, false);
    }
  }

  lemma PosInside(plan: Plan, normal: real, p: real, wall: real, e: real, r: real)
    requires p < plan.end && SegmentAt(plan, normal, p) == Segment(e, r) && r > 0.0
    requires 0.0 < wall <= (e - p) / r
    ensures Pos(plan, normal, p, wall) == p + wall * r
  {
    FlowEndsInSegment(plan, normal, p, wall, false);
  }

  lemma PosStuck(plan: Plan, normal: real, p: real, wall: real)
    requires p < plan.end && SegmentAt(plan, normal, p).rate <= 0.0
    ensures Pos(plan, normal, p, wall) == p
  {
    if wall > 0.0 {
      FlowEndsInSegment(plan, normal, p, wall, false);
    }
  }

  lemma SegmentTakesTime(p: real, e: real, r: real)
    requires p < e && r > 0.0
    ensures (e - p) / r > 0.0 && p + ((e - p) / r) * r == e
  {
    DivTimes(e - p, r);
    TimesMonotone(0.0, (e - p) / r, r);
  }

  /** Running to a boundary and on: also when the time ends exactly there. */
  lemma PosThrough(plan: Plan, normal: real, p: real, wall: real, e: real, r: real)
    requires WellFormed(plan) && p < plan.end && SegmentAt(plan, normal, p) == Segment(e, r) && r > 0.0
    requires wall >= (e - p) / r
    ensures Pos(plan, normal, p, wall) == Pos(plan, normal, e, wall - (e - p) / r)
  {
    SegmentStaysInside(plan, normal, p);
    SegmentTakesTime(p, e, r);
    FlowEndsInSegment(plan, normal, p, wall, false);
    if wall == (e - p) / r {
      PosStops(plan, normal, e, wall - (e - p) / r);
    } else {
      FlagIsOutput(plan, normal, e, wall - (e - p) / r, FastAt(plan, normal, p));
    }
  }

  lemma RunsAddUpTo(p: real, r: real, a: real, b: real, c: real)
    requires c == a + b
    ensures p + c * r == (p + a * r) + b * r
  {
    RunsAddUp(p, r, a, b);
  }

  /** A run that stays in its segment, taken as two. */
  lemma PosOfWholeRun(plan: Plan, normal: real, p: real, a: real, b: real, c: real, e: real, r: real)
    requires p < plan.end && SegmentAt(plan, normal, p) == Segment(e, r) && r > 0.0
    requires 0.0 < a && b > 0.0 && c == a + b && c <= (e - p) / r
    ensures Pos(plan, normal, p, c) == (p + a * r) + b * r
  {
    PosInside(plan, normal, p, c, e, r);
    RunsAddUpTo(p, r, a, b, c);
  }

  /** A second run in the same segment starts where the first one ended. */
  lemma PosAfterRun(plan: Plan, normal: real, p: real, a: real, b: real, e: real, r: real)
    requires WellFormed(plan) && p < plan.end && SegmentAt(plan, normal, p) == Segment(e, r) && r > 0.0
    requires 0.0 < a && b > 0.0 && a + b <= (e - p) / r
    ensures Pos(plan, normal, p + a * r, b) == (p + a * r) + b * r
  {
    RestOfSegment(p, e, r, a);
    SegmentStaysInside(plan, normal, p);
    SegmentIsConstant(plan, normal, p, p + a * r);
    PosInside(plan, normal, p + a * r, b, e, r);
  }

  lemma PosAddsAcrossBoundary(plan: Plan, normal: real, p: real, a: real, b: real, e: real, r: real)
    requires WellFormed(plan) && p < plan.end && SegmentAt(plan, normal, p) == Segment(e, r) && r > 0.0
    requires 0.0 < a < (e - p) / r && b > 0.0 && a + b > (e - p) / r
    ensures Pos(plan, normal, p, a + b) == Pos(plan, normal, p + a * r, b)
  {
    var t := (e - p) / r;
    RestOfSegment(p, e, r, a);
    SegmentStaysInside(plan, normal, p);
    SegmentIsConstant(plan, normal, p, p + a * r);
    PosThrough(plan, normal, p, a + b, e, r);
    PosThrough(plan, normal, p + a * r, b, e, r);
    assert a + b - t == b - (t - a);
  }

  /** Within a segment, time adds up. */
  lemma PosAddsInside(plan: Plan, normal: real, p: real, a: real, b: real, e: real, r: real)
    requires WellFormed(plan) && p < plan.end && SegmentAt(plan, normal, p) == Segment(e, r) && r > 0.0
    requires 0.0 < a < (e - p) / r && b > 0.0
    ensures Pos(plan, normal, p, a + b) == Pos(plan, normal, Pos(plan, normal, p, a), b)
  {
    PosInside(plan, normal, p, a, e, r);
    if a + b <= (e - p) / r {
      PosOfWholeRun(plan, normal, p, a, b, a + b, e, r);
      PosAfterRun(plan, normal, p, a, b, e, r);
    } else {
      PosAddsAcrossBoundary(plan, normal, p, a, b, e, r);
    }
  }

  /** Running for `a` and then for `b` is running once for a + b. */
  lemma {:induction false} PosAdds(plan: Plan, normal: real, p: real, a: real, b: real)
    requires WellFormed(plan) && a >= 0.0 && b >= 0.0
    ensures Pos(plan, normal, p, a + b) == Pos(plan, normal, Pos(plan, normal, p, a), b)
    decreases Ahead(plan, p)
  {
    if p >= plan.end {
      PosStops(plan, normal, p, a + b);
      PosStops(plan, normal, p, a);
      PosStops(plan, normal, p, b);
    } else if a == 0.0 {
      PosStops(plan, normal, p, a);
    } else if b == 0.0 {
      PosStops(plan, normal, Pos(plan, normal, p, a), b);
    } else {
      var e, r := SegmentAt(plan, normal, p).end, SegmentAt(plan, normal, p).rate;
      if r <= 0.0 {
        PosStuck(plan, normal, p, a);
        PosStuck(plan, normal, p, b);
        PosStuck(plan, normal, p, a + b);
      } else if a < (e - p) / r {
        PosAddsInside(plan, normal, p, a, b, e, r);
      } else {
        PosThrough(plan, normal, p, a, e, r);
        PosThrough(plan, normal, p, a + b, e, r);
        SegmentEndIsAhead(plan, normal, p);
        PosAdds(plan, normal, e, a - (e - p) / r, b);
        assert a + b - (e - p) / r == (a - (e - p) / r) + b;
      }
    }
  }

  /** The playhead only moves forward and never leaves the plan. */
  lemma {:induction false} PosStaysInside(plan: Plan, normal: real, p: real, wall: real)
    requires WellFormed(plan) && p <= plan.end
    ensures p <= Pos(plan, normal, p, wall) <= plan.end
    decreases Ahead(plan, p)
  {
    if wall <= 0.0 || p >= plan.end {
      PosStops(plan, normal, p, wall);
    } else {
      var e, r := SegmentAt(plan, normal, p).end, SegmentAt(plan, normal, p).rate;
      SegmentStaysInside(plan, normal, p);
      if r <= 0.0 {
        PosStuck(plan, normal, p, wall);
      } else if wall < (e - p) / r {
        PosInside(plan, normal, p, wall, e, r);
        RestOfSegment(p, e, r, wall);
      } else {
        PosThrough(plan, normal, p, wall, e, r);
        SegmentEndIsAhead(plan, normal, p);
        PosStaysInside(plan, normal, e, wall - (e - p) / r);
      }
    }
  }

  /** The position a frame leads to while idle time is skipped. */
  lemma SkippingPosition(current: real, elapsed: real, speed: real, plan: Plan)
    requires WellFormed(plan) && plan.start <= plan.end
    ensures AdvancePlayhead(current, elapsed, speed, plan, true).next
         == Pos(plan, NormalRate(speed), Clamp(plan, current), Max(0.0, elapsed))
  {
    var p, normal := Clamp(plan, current), NormalRate(speed);
    PosStaysInside(plan, normal, p, Max(0.0, elapsed));
    if elapsed <= 0.0 || p >= plan.end {
      PosStops(plan, normal, p, Max(0.0, elapsed));
      RunIsNonNegative(Max(0.0, elapsed), normal);
    }
  }

  lemma RunIsNonNegative(wall: real, normal: real)
    requires wall >= 0.0 && normal >= 0.0
    ensures wall * normal >= 0.0 && (wall == 0.0 ==> wall * normal == 0.0)
  {}

  /** Frame-rate independence: any two frames give the position of one frame of their total time,
      with and without idle skipping. A non-positive frame counts as no time. */
  lemma FrameRateIndependence(current: real, a: real, b: real, speed: real, plan: Plan, skipIdle: bool)
    requires WellFormed(plan) && plan.start <= plan.end
    ensures AdvancePlayhead(AdvancePlayhead(current, a, speed, plan, skipIdle).next, b, speed, plan, skipIdle).next
         == AdvancePlayhead(current, Max(0.0, a) + Max(0.0, b), speed, plan, skipIdle).next
  {
    if skipIdle {
      SkippingFramesAddUp(current, a, b, speed, plan);
    } else {
      NormalRunsAddUp(Clamp(plan, current), plan.end, NormalRate(speed), Max(0.0, a), Max(0.0, b));
    }
  }

  lemma SkippingFramesAddUp(current: real, a: real, b: real, speed: real, plan: Plan)
    requires WellFormed(plan) && plan.start <= plan.end
    ensures AdvancePlayhead(AdvancePlayhead(current, a, speed, plan, true).next, b, speed, plan, true).next
         == AdvancePlayhead(current, Max(0.0, a) + Max(0.0, b), speed, plan, true).next
  {
    var p, normal := Clamp(plan, current), NormalRate(speed);
    var a', b' := Max(0.0, a), Max(0.0, b);
    var q := Pos(plan, normal, p, a');
    PosStaysInside(plan, normal, p, a');
    SkippingPosition(current, a, speed, plan);
    SkippingPosition(current, a' + b', speed, plan);
    SkippingPosition(q, b, speed, plan);
    PosAdds(plan, normal, p, a', b');
  }

  lemma NormalRunsAddUp(p: real, end: real, normal: real, a: real, b: real)
    requires normal >= 0.0 && a >= 0.0 && b >= 0.0 && p <= end
    ensures p <= Min(end, p + a * normal) <= Min(end, p + (a + b) * normal)
    ensures Min(end, Min(end, p + a * normal) + b * normal) == Min(end, p + (a + b) * normal)
  {
    RunIsNonNegative(a, normal);
    RunIsNonNegative(b, normal);
    RunsAddUp(p, normal, a, b);
  }

  lemma SkippingIsMonotone(current: real, a: real, b: real, speed: real, plan: Plan)
    requires WellFormed(plan) && plan.start <= plan.end && a <= b
    ensures Clamp(plan, current) <= AdvancePlayhead(current, a, speed, plan, true).next
         <= AdvancePlayhead(current, b, speed, plan, true).next <= plan.end
  {
    var p, normal := Clamp(plan, current), NormalRate(speed);
    var a', b' := Max(0.0, a), Max(0.0, b);
    SkippingPosition(current, a, speed, plan);
    SkippingPosition(current, b, speed, plan);
    PosAdds(plan, normal, p, a', b' - a');
    PosStaysInside(plan, normal, p, a');
    PosStaysInside(plan, normal, Pos(plan, normal, p, a'), b' - a');
  }

  lemma PlainIsMonotone(current: real, a: real, b: real, speed: real, plan: Plan)
    requires plan.start <= plan.end && a <= b
    ensures Clamp(plan, current) <= AdvancePlayhead(current, a, speed, plan, false).next
         <= AdvancePlayhead(current, b, speed, plan, false).next <= plan.end
  {
    NormalRunsAddUp(Clamp(plan, current), plan.end, NormalRate(speed), Max(0.0, a), Max(0.0, b) - Max(0.0, a));
  }

  /** More time never moves the playhead back, and it stays between the clamped start and the end. */
  lemma PlayheadIsMonotone(current: real, a: real, b: real, speed: real, plan: Plan, skipIdle: bool)
    requires WellFormed(plan) && plan.start <= plan.end && a <= b
    ensures plan.start <= Clamp(plan, current) <= AdvancePlayhead(current, a, speed, plan, skipIdle).next
    ensures AdvancePlayhead(current, a, speed, plan, skipIdle).next
         <= AdvancePlayhead(current, b, speed, plan, skipIdle).next <= plan.end
  {
    if skipIdle {
      SkippingIsMonotone(current, a, b, speed, plan);
    } else {
      PlainIsMonotone(current, a, b, speed, plan);
    }
  }

  lemma SegmentEndIsBoundary(plan: Plan, normal: real, p: real)
    ensures SegmentAt(plan, normal, p).end in Boundaries(plan)
  {
    FoundAreBoundaries(plan.windows, p);
  }

  ghost predicate FlagFits(plan: Plan, normal: real, f: Advance) {
    f.next < plan.end && f.next !in Boundaries(plan) ==> f.fastForwarding == FastAt(plan, normal, f.next)
  }

  lemma FlagInLastSegment(plan: Plan, normal: real, p: real, wall: real, e: real, r: real)
    requires WellFormed(plan) && p < plan.end && SegmentAt(plan, normal, p) == Segment(e, r) && r > 0.0
    requires 0.0 < wall <= (e - p) / r
    ensures FlagFits(plan, normal, Advance(p + wall * r, FastAt(plan, normal, p)))
  {
    var q := p + wall * r;
    RestOfSegment(p, e, r, wall);
    SegmentEndIsBoundary(plan, normal, p);
    if q < e {
      SegmentIsConstant(plan, normal, p, q);
    }
  }

  /** The flag tells whether the playhead ended in a hurried gap, unless it stands on a boundary. */
  lemma {:induction false} FlagTellsSegment(plan: Plan, normal: real, p: real, wall: real, flag: bool)
    requires WellFormed(plan) && wall > 0.0 && p < plan.end
    ensures FlagFits(plan, normal, Flow(plan, normal, p, wall, flag))
    decreases Ahead(plan, p)
  {
    var e, r := SegmentAt(plan, normal, p).end, SegmentAt(plan, normal, p).rate;
    var fast := FastAt(plan, normal, p);
    if r <= 0.0 {
      assert Flow(plan, normal, p, wall, flag) == Advance(p, fast);
    } else if wall <= (e - p) / r {
      assert Flow(plan, normal, p, wall, flag) == Advance(p + wall * r, fast);
      FlagInLastSegment(plan, normal, p, wall, e, r);
    } else {
      var rest := wall - (e - p) / r;
      assert Flow(plan, normal, p, wall, flag) == Flow(plan, normal, e, rest, fast);
      if e < plan.end {
        SegmentEndIsAhead(plan, normal, p);
        FlagTellsSegment(plan, normal, e, rest, fast);
      } else {
        FlowPastEnd(plan, normal, e, rest, fast);
      }
    }
  }

  lemma FlowPastEnd(plan: Plan, normal: real, p: real, wall: real, flag: bool)
    requires p >= plan.end
    ensures Flow(plan, normal, p, wall, flag) == Advance(p, flag)
  {}

  // ----- where a frame leads

  /** Without idle skipping the playhead runs at the selected speed, gaps and windows alike. */
  lemma PlainAdvance(current: real, elapsed: real, speed: real, plan: Plan)
    ensures AdvancePlayhead(current, elapsed, speed, plan, false)
            == Advance(Min(plan.end, Max(plan.start, Min(plan.end, current)) + Max(0.0, elapsed) * (Max(0.0, speed) * 60.0)), false)
  {}

  lemma StandingStill(p: real, elapsed: real, r: real)
    requires r == 0.0
    ensures p + elapsed * r == p
  {}

  /** A run that ends in its segment, at its end at the latest. */
  lemma FlowInSegment(plan: Plan, normal: real, p: real, elapsed: real, e: real, r: real, q: real)
    requires p < plan.end && elapsed > 0.0 && r >= 0.0
    requires SegmentAt(plan, normal, p) == Segment(e, r) && q == p + elapsed * r && q <= e
    ensures Flow(plan, normal, p, elapsed, false) == Advance(q, FastAt(plan, normal, p))
  {
    FlowEndsInSegment(plan, normal, p, elapsed, false);
    if r > 0.0 {
      TimesAtMost(elapsed, e - p, r);
    } else {
      StandingStill(p, elapsed, r);
    }
  }

  lemma AdvanceIsFlow(plan: Plan, p: real, elapsed: real, speed: real, q: real, fast: bool)
    requires plan.start <= p < plan.end && elapsed > 0.0 && q <= plan.end
    requires Flow(plan, NormalRate(speed), p, elapsed, false) == Advance(q, fast)
    ensures AdvancePlayhead(p, elapsed, speed, plan, true) == Advance(q, fast)
  {}

  lemma TimesAtMost(a: real, b: real, r: real)
    requires r > 0.0 && a * r <= b
    ensures a <= b / r
  {
    DivTimes(b, r);
    if a > b / r {
      TimesMonotone(b / r, a, r);
    }
  }

  /** With idle skipping a run inside a window goes at the selected speed, a minute per second for each step of it. */
  lemma AdvanceInWindow(plan: Plan, i: nat, p: real, elapsed: real, speed: real, q: real)
    requires WellFormed(plan) && plan.start <= plan.end && elapsed > 0.0
    requires i < |plan.windows| && plan.windows[i].start <= p < plan.windows[i].end
    requires q == p + elapsed * (Max(0.0, speed) * 60.0) && q <= plan.windows[i].end
    ensures AdvancePlayhead(p, elapsed, speed, plan, true) == Advance(q, false)
  {
    WindowSegment(plan, NormalRate(speed), i, p);
    FlowInSegment(plan, NormalRate(speed), p, elapsed, plan.windows[i].end, NormalRate(speed), q);
    AdvanceIsFlow(plan, p, elapsed, speed, q, false);
  }

  /** In a gap it goes at the speed that crosses the whole gap in two and a half seconds, or at the selected one where
      that is faster; it is fast forwarding exactly in the first case. */
  lemma AdvanceInGap(plan: Plan, i: nat, p: real, elapsed: real, speed: real, from: real, to: real, rate: real, q: real)
    requires WellFormed(plan) && plan.start <= p < plan.end && elapsed > 0.0 && i <= |plan.windows|
    requires from == (if i > 0 then plan.windows[i - 1].end else plan.start) <= p
    requires to == (if i < |plan.windows| then plan.windows[i].start else plan.end) > p
    requires rate == Max(Max(0.0, speed) * 60.0, (to - from) / 2_500.0) && q == p + elapsed * rate && q <= to
    ensures AdvancePlayhead(p, elapsed, speed, plan, true) == Advance(q, (to - from) / 2_500.0 > Max(0.0, speed) * 60.0)
  {
    GapSegment(plan, NormalRate(speed), i, p);
    FlowInSegment(plan, NormalRate(speed), p, elapsed, to, rate, q);
    AdvanceIsFlow(plan, p, elapsed, speed, q, FastAt(plan, NormalRate(speed), p));
  }

  lemma FlowFlagIn(plan: Plan, normal: real, p: real, wall: real, f: bool, g: bool)
    requires wall > 0.0 && p < plan.end
    ensures Flow(plan, normal, p, wall, f) == Flow(plan, normal, p, wall, g)
  {
    FlowEndsInSegment(plan, normal, p, wall, f);
    FlowEndsInSegment(plan, normal, p, wall, g);
  }

  lemma FlowThrough(plan: Plan, normal: real, p: real, wall: real, e: real, r: real, f: bool)
    requires WellFormed(plan) && p < plan.end && SegmentAt(plan, normal, p) == Segment(e, r) && r > 0.0 && wall > (e - p) / r
    ensures Flow(plan, normal, p, wall, f) == Flow(plan, normal, e, wall - (e - p) / r, FastAt(plan, normal, p))
  {
    SegmentStaysInside(plan, normal, p);
    SegmentTakesTime(p, e, r);
    FlowEndsInSegment(plan, normal, p, wall, f);
  }

  lemma FlowAddsInside(plan: Plan, normal: real, p: real, a: real, b: real, e: real, r: real, f: bool, g: bool)
    requires WellFormed(plan) && p < plan.end && SegmentAt(plan, normal, p) == Segment(e, r) && r > 0.0
    requires 0.0 < a < (e - p) / r && b > 0.0
    ensures Flow(plan, normal, p, a + b, f) == Flow(plan, normal, p + a * r, b, g)
  {
    var q, t := p + a * r, (e - p) / r;
    SegmentStaysInside(plan, normal, p);
    RestOfSegment(p, e, r, a);
    SegmentIsConstant(plan, normal, p, q);
    if a + b <= t {
      RunsAddUp(p, r, a, b);
      FlowStays(plan, normal, p, a + b, e, r, f, (p + a * r) + b * r);
      FlowStays(plan, normal, q, b, e, r, g, q + b * r);
    } else {
      FlowThrough(plan, normal, p, a + b, e, r, f);
      FlowThrough(plan, normal, q, b, e, r, g);
      assert a + b - t == b - (t - a);
    }
  }

  lemma FlowStays(plan: Plan, normal: real, p: real, wall: real, e: real, r: real, f: bool, q: real)
    requires p < plan.end && SegmentAt(plan, normal, p) == Segment(e, r) && r > 0.0 && 0.0 < wall <= (e - p) / r
    requires q == p + wall * r
    ensures Flow(plan, normal, p, wall, f) == Advance(q, FastAt(plan, normal, p))
  {
    FlowEndsInSegment(plan, normal, p, wall, f);
  }

  /** Running for `a` and then for `b` ends like one run for a + b, in position and flag. */
  lemma {:induction false} FlowAdds(plan: Plan, normal: real, p: real, a: real, b: real, f: bool, g: bool)
    requires WellFormed(plan) && a >= 0.0 && b > 0.0 && Pos(plan, normal, p, a) < plan.end
    ensures Flow(plan, normal, p, a + b, f) == Flow(plan, normal, Pos(plan, normal, p, a), b, g)
    decreases Ahead(plan, p)
  {
    if a == 0.0 || p >= plan.end {
      PosStops(plan, normal, p, a);
      FlowFlagIn(plan, normal, p, b, f, g);
    } else {
      var e, r := SegmentAt(plan, normal, p).end, SegmentAt(plan, normal, p).rate;
      if r <= 0.0 {
        PosStuck(plan, normal, p, a);
        FlowEndsInSegment(plan, normal, p, a + b, f);
        FlowEndsInSegment(plan, normal, p, b, g);
      } else if a < (e - p) / r {
        PosInside(plan, normal, p, a, e, r);
        FlowAddsInside(plan, normal, p, a, b, e, r, f, g);
      } else {
        PosThrough(plan, normal, p, a, e, r);
        SegmentEndIsAhead(plan, normal, p);
        FlowThrough(plan, normal, p, a + b, e, r, f);
        assert a + b - (e - p) / r == (a - (e - p) / r) + b;
        FlowAdds(plan, normal, e, a - (e - p) / r, b, FastAt(plan, normal, p), g);
      }
    }
  }

  /** Frames short of the plan's end may be split anywhere: position and flag are those of the last part. */
  lemma FramesSplit(current: real, a: real, b: real, speed: real, plan: Plan)
    requires WellFormed(plan) && plan.start <= plan.end && a >= 0.0 && b > 0.0
    requires AdvancePlayhead(current, a, speed, plan, true).next < plan.end
    ensures AdvancePlayhead(current, a + b, speed, plan, true)
            == AdvancePlayhead(AdvancePlayhead(current, a, speed, plan, true).next, b, speed, plan, true)
  {
    var p, normal := Clamp(plan, current), NormalRate(speed);
    SkippingPosition(current, a, speed, plan);
    PosStaysInside(plan, normal, p, a);
    FlowAdds(plan, normal, p, a, b, false, false);
  }

  // ----- the time a whole plan takes

  /** Length of the windows from `i` on. */
  function LengthFrom(plan: Plan, i: nat): real
    requires i <= |plan.windows|
    decreases |plan.windows| - i
  {
    if i == |plan.windows| then 0.0
    else (plan.windows[i].end - plan.windows[i].start) + LengthFrom(plan, i + 1)
  }

  /** Gaps of positive length from gap `i` on; the last one follows the last window. */
  function GapsFrom(plan: Plan, i: nat): nat
    requires i <= |plan.windows|
    decreases |plan.windows| - i
  {
    (if GapStart(plan, i) < GapEnd(plan, i) then 1 else 0)
    + if i == |plan.windows| then 0 else GapsFrom(plan, i + 1)
  }

  /** A gap takes at most the idle target. */
  lemma GapTime(length: real, normal: real)
    requires length > 0.0
    ensures Max(normal, length / IDLE_TARGET) > 0.0
    ensures length / Max(normal, length / IDLE_TARGET) <= IDLE_TARGET
  {
    var r := Max(normal, length / IDLE_TARGET);
    DivTimes(length, IDLE_TARGET);
    DivTimes(length, r);
    TimesMonotone(IDLE_TARGET, length / r, r);
    assert IDLE_TARGET * r >= IDLE_TARGET * (length / IDLE_TARGET);
  }

  /** Crossing gap `i` leaves all but at most the idle target. */
  lemma CrossGap(plan: Plan, normal: real, i: nat, wall: real) returns (rest: real)
    requires WellFormed(plan) && normal > 0.0 && i <= |plan.windows|
    requires GapStart(plan, i) < GapEnd(plan, i) && wall >= IDLE_TARGET
    ensures rest >= wall - IDLE_TARGET
    ensures Pos(plan, normal, GapStart(plan, i), wall) == Pos(plan, normal, GapEnd(plan, i), rest)
  {
    var p, e, r := GapStart(plan, i), GapEnd(plan, i), GapRate(plan, normal, i);
    GapSegment(plan, normal, i, p);
    GapTime(e - p, normal);
    PosThrough(plan, normal, p, wall, e, r);
    rest := wall - (e - p) / r;
  }

  lemma CrossWindow(plan: Plan, normal: real, i: nat, wall: real)
    requires WellFormed(plan) && normal > 0.0 && i < |plan.windows|
    requires wall >= (plan.windows[i].end - plan.windows[i].start) / normal
    ensures Pos(plan, normal, plan.windows[i].start, wall)
         == Pos(plan, normal, plan.windows[i].end, wall - (plan.windows[i].end - plan.windows[i].start) / normal)
  {
    var w := plan.windows[i];
    if w.start < w.end {
      WindowSegment(plan, normal, i, w.start);
      PosThrough(plan, normal, w.start, wall, w.end, normal);
    }
  }

  lemma {:induction false} LengthIsNonNegative(plan: Plan, i: nat)
    requires WellFormed(plan) && i <= |plan.windows|
    ensures LengthFrom(plan, i) >= 0.0
    decreases |plan.windows| - i
  {
    if i < |plan.windows| {
      LengthIsNonNegative(plan, i + 1);
    }
  }

  lemma DivAdds(x: real, y: real, r: real)
    requires r > 0.0 && x >= 0.0 && y >= 0.0
    ensures (x + y) / r == x / r + y / r && x / r >= 0.0 && y / r >= 0.0
  {}

  lemma {:induction false} RestOfPlanIsPlayed(plan: Plan, normal: real, i: nat, wall: real)
    requires WellFormed(plan) && normal > 0.0 && i <= |plan.windows|
    requires wall >= LengthFrom(plan, i) / normal + IDLE_TARGET * GapsFrom(plan, i) as real
    requires i == |plan.windows| ==> GapStart(plan, i) <= plan.end
    ensures Pos(plan, normal, GapStart(plan, i), wall) == plan.end
    decreases |plan.windows| - i
  {
    var rest := wall;
    LengthIsNonNegative(plan, i);
    DivAdds(LengthFrom(plan, i), 0.0, normal);
    if GapStart(plan, i) < GapEnd(plan, i) {
      rest := CrossGap(plan, normal, i, wall);
    }
    if i < |plan.windows| {
      var w := plan.windows[i];
      LengthIsNonNegative(plan, i + 1);
      DivAdds(w.end - w.start, LengthFrom(plan, i + 1), normal);
      CrossWindow(plan, normal, i, rest);
      RestOfPlanIsPlayed(plan, normal, i + 1, rest - (w.end - w.start) / normal);
    } else {
      PosStops(plan, normal, plan.end, rest);
    }
  }

  /** Playing a whole plan takes at most the windows at normal speed plus the idle target per gap. */
  lemma WholePlanBudget(plan: Plan, speed: real, elapsed: real)
    requires WellFormed(plan) && plan.start <= plan.end && speed > 0.0
    requires elapsed >= LengthFrom(plan, 0) / (speed * 60.0) + 2_500.0 * GapsFrom(plan, 0) as real
    ensures AdvancePlayhead(plan.start, elapsed, speed, plan, true).next == plan.end
  {
    LengthIsNonNegative(plan, 0);
    assert NormalRate(speed) == speed * 60.0;
    DivAdds(LengthFrom(plan, 0), 0.0, NormalRate(speed));
    SkippingPosition(plan.start, elapsed, speed, plan);
    RestOfPlanIsPlayed(plan, NormalRate(speed), 0, elapsed);
  }
}
