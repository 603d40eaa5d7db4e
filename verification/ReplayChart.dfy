/**
 * The replay chart: bars visible at a playhead, their aggregation into buckets,
 * and the incremental update that replaces a full redraw.
 *
 * Bars are mutable objects, as in the chart code; their values are `BarValue`s.
 */
module ReplayChart {
  import opened Prelude

  datatype BarValue = BarValue(t: int, o: real, h: real, l: real, c: real, v: real)

  class Bar {
    var t: int
    var o: real
    var h: real
    var l: real
    var c: real
    var v: real

    constructor (t: int, o: real, h: real, l: real, c: real, v: real)
      ensures Value() == BarValue(t, o, h, l, c, v)
    {
      this.t, this.o, this.h, this.l, this.c, this.v := t, o, h, l, c, v;
    }

    function Value(): BarValue
      reads this
    {
      BarValue(t, o, h, l, c, v)
    }
  }

  ghost function Values(bars: seq<Bar>): (r: seq<BarValue>)
    reads bars
    ensures |r| == |bars|
    ensures forall i :: 0 <= i < |bars| ==> r[i] == bars[i].Value()
  {
    seq(|bars|, i requires 0 <= i < |bars| reads bars => bars[i].Value())
  }

  const MINUTE := 60_000

  // ----- visible bars

  function Visible(bs: seq<BarValue>, playhead: int): seq<BarValue> {
    if bs == [] then []
    else (if bs[0].t <= playhead then [bs[0]] else []) + Visible(bs[1..], playhead)
  }

  /** Bar times as the data validation admits them: equal times may repeat. */
  ghost predicate Ascending(bs: seq<BarValue>) {
    forall i, j :: 0 <= i < j < |bs| ==> bs[i].t <= bs[j].t
  }

  ghost predicate StrictlyAscending(bs: seq<BarValue>) {
    forall i, j :: 0 <= i < j < |bs| ==> bs[i].t < bs[j].t
  }

  lemma {:induction false} NoneVisible(bs: seq<BarValue>, playhead: int)
    requires Ascending(bs) && (bs != [] ==> playhead < bs[0].t)
    ensures Visible(bs, playhead) == []
  {
    if bs != [] {
      NoneVisible(bs[1..], playhead);
    }
  }

  lemma {:induction false} VisibleIsPrefix(bs: seq<BarValue>, playhead: int)
    requires Ascending(bs)
    ensures var n := |Visible(bs, playhead)|;
            && n <= |bs| && Visible(bs, playhead) == bs[..n]
            && (forall i :: 0 <= i < n ==> bs[i].t <= playhead)
            && (forall i :: n <= i < |bs| ==> playhead < bs[i].t)
  {
    if bs != [] && bs[0].t <= playhead {
      VisibleIsPrefix(bs[1..], playhead);
      var n := |Visible(bs[1..], playhead)|;
      assert forall i :: 1 <= i < |bs| ==> bs[i] == bs[1..][i - 1];
      assert bs[..n + 1] == [bs[0]] + bs[1..][..n];
    } else {
      NoneVisible(bs, playhead);
    }
  }

  // ----- aggregation

  function Bucket(t: int, interval: int): int
    requires interval > 0
  {
    (t / (interval * MINUTE)) * (interval * MINUTE)
  }

  /** A bucket's bar after one more bar of that bucket. */
  function Merged(last: BarValue, b: BarValue): BarValue {
    BarValue(last.t, last.o, Max(last.h, b.h), Min(last.l, b.l), b.c, last.v + b.v)
  }

  /** One bar into the buckets so far: merged into the last bucket or opening a new one. */
  function Extend(acc: seq<BarValue>, b: BarValue, interval: int): seq<BarValue>
    requires interval > 0
  {
    var bucket := Bucket(b.t, interval);
    if acc != [] && acc[|acc| - 1].t == bucket then acc[|acc| - 1 := Merged(acc[|acc| - 1], b)]
    else acc + [BarValue(bucket, b.o, b.h, b.l, b.c, b.v)]
  }

  function Buckets(bs: seq<BarValue>, interval: int): seq<BarValue>
    requires interval > 0
  {
    if bs == [] then [] else Extend(Buckets(bs[..|bs| - 1], interval), bs[|bs| - 1], interval)
  }

  function Aggregate(bs: seq<BarValue>, interval: int): seq<BarValue>
    requires interval > 0
  {
    if interval == 1 then bs else Buckets(bs, interval)
  }

  lemma BucketsSnoc(bs: seq<BarValue>, i: nat, interval: int)
    requires interval > 0 && i < |bs|
    ensures Buckets(bs[..i + 1], interval) == Extend(Buckets(bs[..i], interval), bs[i], interval)
  {
    assert bs[..i + 1][..i] == bs[..i];
  }

  ghost predicate DistinctBars(bars: seq<Bar>) {
    forall j, k :: 0 <= j < k < |bars| ==> bars[j] != bars[k]
  }

  /** One bar into the buckets so far: the last bucket bar takes it in, in place, or a new one is made. */
  method AddBar(aggregated: seq<Bar>, bar: Bar, interval: int) returns (out: seq<Bar>)
    requires interval > 0 && DistinctBars(aggregated) && bar !in aggregated
    modifies aggregated
    ensures Values(out) == Extend(old(Values(aggregated)), old(bar.Value()), interval)
    ensures DistinctBars(out) && (out == aggregated || (|out| == |aggregated| + 1 && out[..|aggregated|] == aggregated && fresh(out[|aggregated|])))
  {
    var bucketStartMs := Bucket(bar.t, interval);
    ghost var acc := Values(aggregated);
    if aggregated != [] && aggregated[|aggregated| - 1].t == bucketStartMs {
      var current := aggregated[|aggregated| - 1];
      current.h := Max(current.h, bar.h);
      current.l := Min(current.l, bar.l);
      current.c := bar.c;
      current.v := current.v + bar.v;
      assert forall j :: 0 <= j < |aggregated| - 1 ==> aggregated[j].Value() == acc[j];
      OnlyLastChanged(Values(aggregated), acc, Merged(acc[|acc| - 1], bar.Value()));
      out := aggregated;
    } else {
      var next := new Bar(bucketStartMs, bar.o, bar.h, bar.l, bar.c, bar.v);
      assert forall j :: 0 <= j < |aggregated| ==> aggregated[j].Value() == acc[j];
      out := aggregated + [next];
    }
  }

  lemma OnlyLastChanged(now: seq<BarValue>, before: seq<BarValue>, last: BarValue)
    requires |now| == |before| > 0 && now[|now| - 1] == last
    requires forall j :: 0 <= j < |now| - 1 ==> now[j] == before[j]
    ensures now == before[|before| - 1 := last]
  {}

  /** Aggregation mutates only bars it made: it has no `modifies` clause, so its input is untouched. */
  method AggregateReplayBars(bars: seq<Bar>, interval: int) returns (out: seq<Bar>)
    requires interval > 0
    ensures Values(out) == Aggregate(Values(bars), interval)
    ensures interval == 1 ==> out == bars
    ensures interval != 1 ==> forall b :: b in out ==> fresh(b)
  {
    if interval == 1 {
      return bars;
    }
    var aggregated: seq<Bar> := [];
    ghost var input := Values(bars);
    for i := 0 to |bars|
      invariant fresh(aggregated)
      invariant DistinctBars(aggregated)
      invariant Values(aggregated) == Buckets(input[..i], interval)
    {
      BucketsSnoc(input, i, interval);
      assert bars[i].Value() == input[i];
      assert forall j :: 0 <= j < |aggregated| ==> aggregated[j] != bars[i];
      ghost var before := aggregated;
      aggregated := AddBar(aggregated, bars[i], interval);
      assert forall j :: 0 <= j < |before| ==> aggregated[j] == before[j];
    }
    assert input[..|bars|] == input;
    return aggregated;
  }

  // ----- the update plan

  datatype UpdatePlan = NoChange | Replace(bars: seq<BarValue>) | Update(bars: seq<BarValue>)

  function CommonPrefix(a: seq<BarValue>, b: seq<BarValue>): (n: nat)
    ensures n <= |a| && n <= |b|
  {
    if a == [] || b == [] || a[0] != b[0] then 0 else 1 + CommonPrefix(a[1..], b[1..])
  }

  lemma {:induction false} CommonPrefixIs(a: seq<BarValue>, b: seq<BarValue>, n: nat)
    requires n <= |a| && n <= |b| && a[..n] == b[..n]
    requires n == |a| || n == |b| || a[n] != b[n]
    ensures CommonPrefix(a, b) == n
  {
    if n > 0 {
      assert a[0] == a[..n][0] && b[0] == b[..n][0];
      assert a[1..][..n - 1] == a[..n][1..] && b[1..][..n - 1] == b[..n][1..];
      CommonPrefixIs(a[1..], b[1..], n - 1);
    }
  }

  function PlanUpdate(previous: Option<seq<BarValue>>, next: seq<BarValue>, forceReplace: bool): UpdatePlan {
    if previous.None? || forceReplace || |next| < |previous.value| then Replace(next)
    else
      var firstChanged := CommonPrefix(previous.value, next);
      if firstChanged == |next| then NoChange
      else if firstChanged < |previous.value| - 1 then Replace(next)
      else Update(next[firstChanged..])
  }

  method PlanReplaySeriesUpdate(previous: Option<seq<BarValue>>, next: seq<BarValue>, forceReplace: bool)
    returns (plan: UpdatePlan)
    ensures plan == PlanUpdate(previous, next, forceReplace)
  {
    if previous.None? || forceReplace || |next| < |previous.value| {
      return Replace(next);
    }
    var old' := previous.value;
    var firstChanged := 0;
    while firstChanged < |old'| && old'[firstChanged] == next[firstChanged]
      invariant 0 <= firstChanged <= |old'|
      invariant old'[..firstChanged] == next[..firstChanged]
    {
      firstChanged := firstChanged + 1;
    }
    CommonPrefixIs(old', next, firstChanged);
    if firstChanged == |next| {
      return NoChange;
    }
    var earliest := if |old'| == 0 then 0 else |old'| - 1;
    if firstChanged < earliest {
      return Replace(next);
    }
    return Update(next[firstChanged..]);
  }

  /** The bars that stay when the new series continues the old one but for its last bar. */
  ghost function Kept(old': seq<BarValue>, next: seq<BarValue>): nat
    requires |old'| <= |next|
  {
    if old' == next[..|old'|] then |old'| else |old'| - 1
  }

  ghost predicate ContinuesBut(old': seq<BarValue>, next: seq<BarValue>) {
    |old'| <= |next| && forall i :: 0 <= i < |old'| - 1 ==> old'[i] == next[i]
  }

  /** Nothing is done for an unchanged series; a series that differs from the old one in its last bar and new ones at
      most is updated from there; everything else, and everything forced, is replaced. */
  lemma PlanIs(previous: Option<seq<BarValue>>, next: seq<BarValue>, forceReplace: bool)
    ensures PlanUpdate(previous, next, forceReplace) ==
            if forceReplace || previous == None || !ContinuesBut(previous.value, next) then Replace(next)
            else if previous.value == next then NoChange
            else Update(next[Kept(previous.value, next)..])
  {
    if previous.Some? && |previous.value| <= |next| {
      var old' := previous.value;
      if old' == next[..|old'|] {
        CommonPrefixIs(old', next, |old'|);
      } else if ContinuesBut(old', next) {
        var k := |old'| - 1;
        assert old'[..k] == next[..k] && old' == old'[..k] + [old'[k]] && next[..k + 1] == next[..k] + [next[k]];
        CommonPrefixIs(old', next, k);
      } else {
        var i :| 0 <= i < |old'| - 1 && old'[i] != next[i];
        PrefixEndsBefore(old', next, i);
      }
    }
  }

  lemma {:induction false} PrefixEndsBefore(a: seq<BarValue>, b: seq<BarValue>, i: nat)
    requires i < |a| && i < |b| && a[i] != b[i]
    ensures CommonPrefix(a, b) <= i
  {
    if i > 0 {
      PrefixEndsBefore(a[1..], b[1..], i - 1);
    }
  }

  /** The series' own rule: a bar with the last bar's time replaces it, any other is appended. */
  function Push(series: seq<BarValue>, b: BarValue): seq<BarValue> {
    if series != [] && series[|series| - 1].t == b.t then series[|series| - 1 := b] else series + [b]
  }

  function PushAll(series: seq<BarValue>, bs: seq<BarValue>): seq<BarValue> {
    if bs == [] then series else Push(PushAll(series, bs[..|bs| - 1]), bs[|bs| - 1])
  }

  function Redraw(series: seq<BarValue>, plan: UpdatePlan): seq<BarValue> {
    match plan
    case NoChange => series
    case Replace(bs) => bs
    case Update(bs) => PushAll(series, bs)
  }

  // ----- what aggregation of more bars keeps

  /** `next` continues `prev`: only the last bar may change, and not its time. */
  ghost predicate Continues(prev: seq<BarValue>, next: seq<BarValue>) {
    && |prev| <= |next|
    && (forall i :: 0 <= i < |prev| - 1 ==> next[i] == prev[i])
    && (prev != [] ==> next[|prev| - 1].t == prev[|prev| - 1].t)
  }

  lemma TimesAtLeast(k: int, m: int)
    requires k >= 1 && m > 0
    ensures k * m >= m
  {}

  lemma FloorIsMonotone(a: int, b: int, m: int)
    requires m > 0 && a <= b
    ensures (a / m) * m <= (b / m) * m
  {
    var k := a / m - b / m;
    assert k * m == (a / m) * m - (b / m) * m;
    if k >= 1 {
      TimesAtLeast(k, m);
    } else {
      assert -k * m >= 0;
    }
  }

  lemma BucketIsMonotone(a: int, b: int, interval: int)
    requires interval > 0 && a <= b
    ensures Bucket(a, interval) <= Bucket(b, interval)
  {
    FloorIsMonotone(a, b, interval * MINUTE);
  }

  lemma {:induction false} BucketsAscend(bs: seq<BarValue>, interval: int)
    requires interval > 0 && Ascending(bs)
    ensures StrictlyAscending(Buckets(bs, interval))
    ensures bs != [] ==> Buckets(bs, interval) != []
    ensures bs != [] ==> Buckets(bs, interval)[|Buckets(bs, interval)| - 1].t == Bucket(bs[|bs| - 1].t, interval)
  {
    if bs != [] {
      var front := bs[..|bs| - 1];
      BucketsAscend(front, interval);
      if front != [] {
        BucketIsMonotone(front[|front| - 1].t, bs[|bs| - 1].t, interval);
      }
    }
  }

  // ----- what a bucket's bar says about its minutes

  /** The bars of one bucket, in order. */
  function InBucket(bs: seq<BarValue>, bucket: int, interval: int): seq<BarValue>
    requires interval > 0
  {
    if bs == [] then []
    else InBucket(bs[..|bs| - 1], bucket, interval) + (if Bucket(bs[|bs| - 1].t, interval) == bucket then [bs[|bs| - 1]] else [])
  }

  /** The bars from `from` on and before `to`, in order. */
  function Between(bs: seq<BarValue>, from: int, to: int): seq<BarValue> {
    if bs == [] then []
    else Between(bs[..|bs| - 1], from, to) + (if from <= bs[|bs| - 1].t < to then [bs[|bs| - 1]] else [])
  }

  /** A bucket starts at a multiple of its length and ends with it. */
  lemma BucketIs(t: int, interval: int)
    requires interval > 0
    ensures Bucket(t, interval) % (interval * 60_000) == 0
    ensures Bucket(t, interval) <= t < Bucket(t, interval) + interval * 60_000
  {
    var m := interval * MINUTE;
    MultipleIsFloor(t / m, m);
    assert t == (t / m) * m + t % m;
  }

  lemma MultipleIsFloor(k: int, m: int)
    requires m > 0
    ensures (k * m) % m == 0 && (k * m) / m == k
  {
    var d := (k * m) / m - k;
    assert (k * m) % m == -d * m;
    if d > 0 {
      TimesAtLeast(d, m);
    } else if d < 0 {
      TimesAtLeast(-d, m);
    }
  }

  /** A minute is in the bucket that starts at a multiple exactly when it lies in its length. */
  lemma BucketHolds(t: int, bucket: int, interval: int)
    requires interval > 0 && bucket % (interval * 60_000) == 0
    ensures Bucket(t, interval) == bucket <==> bucket <= t < bucket + interval * 60_000
  {
    var m := interval * MINUTE;
    BucketIs(t, interval);
    if bucket <= t < bucket + m {
      var k := bucket / m;
      assert bucket == k * m;
      FloorIsMonotone(bucket, t, m);
      FloorIsMonotone(t, bucket + m - 1, m);
      MultipleIsFloor(k, m);
      LastOfBucket(k, m);
    }
  }

  lemma LastOfBucket(k: int, m: int)
    requires m > 0
    ensures (k * m + m - 1) / m == k
  {
    var d := (k * m + m - 1) / m - k;
    assert (k * m + m - 1) % m == m - 1 - d * m;
    if d > 0 {
      TimesAtLeast(d, m);
    } else if d < 0 {
      TimesAtLeast(-d, m);
    }
  }

  lemma {:induction false} InBucketIsBetween(bs: seq<BarValue>, bucket: int, interval: int)
    requires interval > 0 && bucket % (interval * 60_000) == 0
    ensures InBucket(bs, bucket, interval) == Between(bs, bucket, bucket + interval * 60_000)
  {
    if bs != [] {
      InBucketIsBetween(bs[..|bs| - 1], bucket, interval);
      BucketHolds(bs[|bs| - 1].t, bucket, interval);
    }
  }

  function Volume(bs: seq<BarValue>): real {
    if bs == [] then 0.0 else Volume(bs[..|bs| - 1]) + bs[|bs| - 1].v
  }

  /** First open, last close, extreme prices that are bounds and attained, total volume. */
  ghost predicate Summarizes(b: BarValue, group: seq<BarValue>) {
    && group != []
    && b.o == group[0].o && b.c == group[|group| - 1].c
    && (forall g :: g in group ==> b.l <= g.l && g.h <= b.h)
    && (exists g :: g in group && g.h == b.h)
    && (exists g :: g in group && g.l == b.l)
    && b.v == Volume(group)
  }

  lemma MergedSummarizes(b: BarValue, group: seq<BarValue>, x: BarValue)
    requires Summarizes(b, group)
    ensures Summarizes(Merged(b, x), group + [x])
  {
    var all := group + [x];
    assert all[..|all| - 1] == group;
    var high :| high in group && high.h == b.h;
    var low :| low in group && low.l == b.l;
    assert high in all && low in all && all[|group|] == x;
  }

  ghost predicate AllSummarize(acc: seq<BarValue>, bs: seq<BarValue>, interval: int)
    requires interval > 0
  {
    forall i :: 0 <= i < |acc| ==> Summarizes(acc[i], InBucket(bs, acc[i].t, interval))
  }

  ghost predicate HasBucket(acc: seq<BarValue>, bucket: int) {
    exists i :: 0 <= i < |acc| && acc[i].t == bucket
  }

  ghost predicate AllBucketed(acc: seq<BarValue>, bs: seq<BarValue>, interval: int)
    requires interval > 0
  {
    forall b :: b in bs ==> HasBucket(acc, Bucket(b.t, interval))
  }

  /** Every bucket's bar summarizes exactly the minutes of that bucket, and no minute is left out. */
  lemma {:induction false} BucketsSummarize(bs: seq<BarValue>, interval: int)
    requires interval > 0 && Ascending(bs)
    ensures AllSummarize(Buckets(bs, interval), bs, interval)
    ensures AllBucketed(Buckets(bs, interval), bs, interval)
  {
    if bs != [] {
      var front := bs[..|bs| - 1];
      BucketsSummarize(front, interval);
      BucketsAscend(front, interval);
      BucketsAscend(bs, interval);
      var acc, out := Buckets(front, interval), Buckets(bs, interval);
      forall i | 0 <= i < |out| ensures Summarizes(out[i], InBucket(bs, out[i].t, interval)) {
        BucketSummarizes(front, bs[|bs| - 1], acc, i, interval);
        InBucketSnoc(bs, out[i].t, interval);
      }
      EveryBarIsBucketed(bs, acc, out, interval);
    }
  }

  lemma {:induction false} BucketsAreBuckets(bs: seq<BarValue>, interval: int)
    requires interval > 0
    ensures forall i :: 0 <= i < |Buckets(bs, interval)| ==> Buckets(bs, interval)[i].t % (interval * 60_000) == 0
  {
    if bs != [] {
      BucketsAreBuckets(bs[..|bs| - 1], interval);
      BucketIs(bs[|bs| - 1].t, interval);
    }
  }

  /** The bar starts at a multiple of the interval, and summarizes exactly the minutes of that length from there on. */
  ghost predicate Spans(b: BarValue, bs: seq<BarValue>, interval: int)
    requires interval > 0
  {
    b.t % (interval * 60_000) == 0 && Summarizes(b, Between(bs, b.t, b.t + interval * 60_000))
  }

  ghost predicate IsSpanned(out: seq<BarValue>, t: int, interval: int) {
    exists i :: 0 <= i < |out| && out[i].t <= t < out[i].t + interval * 60_000
  }

  /** Above one minute every bar of the aggregation spans its interval, the bars ascend, and no minute is left out. At
      one minute the bars stay. */
  lemma AggregateSummarizes(bs: seq<BarValue>, interval: int)
    requires interval > 0 && Ascending(bs)
    ensures interval == 1 ==> Aggregate(bs, interval) == bs
    ensures var out := Aggregate(bs, interval);
            interval > 1 ==>
              && StrictlyAscending(out) && (forall i :: 0 <= i < |out| ==> Spans(out[i], bs, interval))
              && forall b :: b in bs ==> IsSpanned(out, b.t, interval)
  {
    var out := Buckets(bs, interval);
    BucketsSummarize(bs, interval);
    BucketsAscend(bs, interval);
    BucketsAreBuckets(bs, interval);
    forall i | 0 <= i < |out| ensures Spans(out[i], bs, interval) {
      InBucketIsBetween(bs, out[i].t, interval);
    }
    forall b | b in bs ensures IsSpanned(out, b.t, interval) {
      assert HasBucket(out, Bucket(b.t, interval));
      BucketSpans(out, b.t, interval);
    }
  }

  lemma BucketSpans(out: seq<BarValue>, t: int, interval: int)
    requires interval > 0 && HasBucket(out, Bucket(t, interval))
    ensures IsSpanned(out, t, interval)
  {
    BucketIs(t, interval);
    var i :| 0 <= i < |out| && out[i].t == Bucket(t, interval);
  }

  lemma EveryBarIsBucketed(bs: seq<BarValue>, acc: seq<BarValue>, out: seq<BarValue>, interval: int)
    requires interval > 0 && bs != [] && AllBucketed(acc, bs[..|bs| - 1], interval)
    requires out == Extend(acc, bs[|bs| - 1], interval)
    ensures AllBucketed(out, bs, interval)
  {
    forall b | b in bs ensures HasBucket(out, Bucket(b.t, interval)) {
      if b in bs[..|bs| - 1] {
        var i :| 0 <= i < |acc| && acc[i].t == Bucket(b.t, interval);
        assert out[i].t == acc[i].t;
      } else {
        assert out[|out| - 1].t == Bucket(b.t, interval);
      }
    }
  }

  /** Minutes of one bucket, with one more minute `x`. */
  lemma InBucketSnoc(bs: seq<BarValue>, bucket: int, interval: int)
    requires interval > 0 && bs != []
    ensures var x := bs[|bs| - 1];
            InBucket(bs, bucket, interval)
            == InBucket(bs[..|bs| - 1], bucket, interval) + if Bucket(x.t, interval) == bucket then [x] else []
  {}

  /** The step: one more minute `x` keeps every bucket a summary. */
  lemma BucketSummarizes(front: seq<BarValue>, x: BarValue, acc: seq<BarValue>, i: nat, interval: int)
    requires interval > 0 && AllSummarize(acc, front, interval) && AllBucketed(acc, front, interval)
    requires i < |Extend(acc, x, interval)| && StrictlyAscending(Extend(acc, x, interval))
    ensures var out := Extend(acc, x, interval)[i];
            Summarizes(out, InBucket(front, out.t, interval) + if Bucket(x.t, interval) == out.t then [x] else [])
  {
    if i < |Extend(acc, x, interval)| - 1 {
      OlderBucketSummarizes(front, x, acc, i, interval);
    } else if |acc| == |Extend(acc, x, interval)| {
      MergedBucketSummarizes(front, x, acc, i, interval);
    } else {
      FreshBucketSummarizes(front, x, acc, interval);
    }
  }

  lemma OlderBucketSummarizes(front: seq<BarValue>, x: BarValue, acc: seq<BarValue>, i: nat, interval: int)
    requires interval > 0 && AllSummarize(acc, front, interval)
    requires i < |Extend(acc, x, interval)| - 1 && StrictlyAscending(Extend(acc, x, interval))
    ensures var out := Extend(acc, x, interval)[i];
            Bucket(x.t, interval) != out.t && Summarizes(out, InBucket(front, out.t, interval) + [])
  {
    var out := Extend(acc, x, interval);
    assert out[i] == acc[i] && out[i].t < out[|out| - 1].t;
    assert InBucket(front, out[i].t, interval) + [] == InBucket(front, out[i].t, interval);
  }

  lemma MergedBucketSummarizes(front: seq<BarValue>, x: BarValue, acc: seq<BarValue>, i: nat, interval: int)
    requires interval > 0 && AllSummarize(acc, front, interval)
    requires |acc| == |Extend(acc, x, interval)| && i == |acc| - 1
    ensures var out := Extend(acc, x, interval)[i];
            Bucket(x.t, interval) == out.t && Summarizes(out, InBucket(front, out.t, interval) + [x])
  {
    MergedSummarizes(acc[i], InBucket(front, acc[i].t, interval), x);
  }

  lemma FreshBucketSummarizes(front: seq<BarValue>, x: BarValue, acc: seq<BarValue>, interval: int)
    requires interval > 0 && AllBucketed(acc, front, interval)
    requires |Extend(acc, x, interval)| > |acc| && StrictlyAscending(Extend(acc, x, interval))
    ensures var out := Extend(acc, x, interval)[|acc|];
            Bucket(x.t, interval) == out.t && Summarizes(out, InBucket(front, out.t, interval) + [x])
  {
    var out := Extend(acc, x, interval);
    assert forall k :: 0 <= k < |acc| ==> acc[k] == out[k];
    assert !HasBucket(acc, out[|acc|].t);
    NothingInFreshBucket(front, acc, out[|acc|].t, interval);
    LoneBarSummarizes(out[|acc|], x);
  }

  lemma LoneBarSummarizes(b: BarValue, x: BarValue)
    requires b == x.(t := b.t)
    ensures Summarizes(b, [x])
  {
    assert [x][..0] == [] && x in [x];
    assert Volume([x]) == x.v;
  }

  lemma InhabitedBucketIsMade(bs: seq<BarValue>, acc: seq<BarValue>, bucket: int, interval: int)
    requires interval > 0 && AllBucketed(acc, bs, interval) && InBucket(bs, bucket, interval) != []
    ensures HasBucket(acc, bucket)
  {
    InBucketMembers(bs, bucket, interval);
    assert InBucket(bs, bucket, interval)[0] in InBucket(bs, bucket, interval);
  }

  /** A bucket different from all those made so far holds none of the minutes so far. */
  lemma NothingInFreshBucket(bs: seq<BarValue>, acc: seq<BarValue>, bucket: int, interval: int)
    requires interval > 0 && AllBucketed(acc, bs, interval) && !HasBucket(acc, bucket)
    ensures InBucket(bs, bucket, interval) == []
  {
    if InBucket(bs, bucket, interval) != [] {
      InhabitedBucketIsMade(bs, acc, bucket, interval);
    }
  }

  lemma {:induction false} InBucketMembers(bs: seq<BarValue>, bucket: int, interval: int)
    requires interval > 0
    ensures forall b :: b in InBucket(bs, bucket, interval) ==> b in bs && Bucket(b.t, interval) == bucket
  {
    if bs != [] {
      InBucketMembers(bs[..|bs| - 1], bucket, interval);
      assert bs == bs[..|bs| - 1] + [bs[|bs| - 1]];
    }
  }

  lemma {:induction false} MoreBarsContinue(bs: seq<BarValue>, more: seq<BarValue>, interval: int)
    requires interval > 0
    ensures Continues(Aggregate(bs, interval), Aggregate(bs + more, interval))
    decreases |more|
  {
    if more == [] {
      assert bs + more == bs;
    } else if interval != 1 {
      MoreBarsContinue(bs, more[..|more| - 1], interval);
      assert (bs + more)[..|bs + more| - 1] == bs + more[..|more| - 1];
    }
  }

  // ----- the update equals the redraw

  /** Pushing the bars `next[k..]` one by one onto a series that ends like next[..k]. */
  lemma {:induction false} PushingBuildsNext(series: seq<BarValue>, next: seq<BarValue>, k: nat, n: nat)
    requires k <= n <= |next| && series == next[..k]
    requires forall i :: k <= i < n && i > 0 ==> next[i - 1].t != next[i].t
    ensures PushAll(series, next[k..n]) == next[..n]
    decreases n - k
  {
    if k < n {
      assert next[k..n][..n - k - 1] == next[k..n - 1];
      PushingBuildsNext(series, next, k, n - 1);
      assert next[..n] == next[..n - 1] + [next[n - 1]];
    }
  }

  /** Whatever is pushed, the series ends with the last pushed bar and grows by one bar at most each time. */
  lemma {:induction false} PushingGrowsAtMost(series: seq<BarValue>, bs: seq<BarValue>)
    ensures |PushAll(series, bs)| <= |series| + |bs|
    ensures bs != [] ==> PushAll(series, bs) != [] && PushAll(series, bs)[|PushAll(series, bs)| - 1] == bs[|bs| - 1]
  {
    if bs != [] {
      PushingGrowsAtMost(series, bs[..|bs| - 1]);
    }
  }

  /** A repeated time inside the pushed bars loses a bar. */
  lemma {:induction false} RepeatedTimeLosesBar(series: seq<BarValue>, bs: seq<BarValue>, k: nat)
    requires 0 < k < |bs| && bs[k - 1].t == bs[k].t
    ensures |PushAll(series, bs)| < |series| + |bs|
  {
    var front := bs[..|bs| - 1];
    if k == |bs| - 1 {
      PushingGrowsAtMost(series, front);
      assert front[|front| - 1] == bs[k - 1];
    } else {
      RepeatedTimeLosesBar(series, front, k);
    }
  }

  /** The series after an incremental update from playhead `p` to playhead `q`. */
  function Incremental(bs: seq<BarValue>, interval: int, p: int, q: int): seq<BarValue>
    requires interval > 0
  {
    var prev, next := Aggregate(Visible(bs, p), interval), Aggregate(Visible(bs, q), interval);
    Redraw(prev, PlanUpdate(Some(prev), next, false))
  }

  lemma {:induction false} VisibleNeverShrinks(bs: seq<BarValue>, p: int, q: int)
    requires p <= q
    ensures |Visible(bs, p)| <= |Visible(bs, q)|
  {
    if bs != [] {
      VisibleNeverShrinks(bs[1..], p, q);
    }
  }

  lemma VisibleGrows(bs: seq<BarValue>, p: int, q: int) returns (more: seq<BarValue>)
    requires Ascending(bs) && p <= q
    ensures Visible(bs, q) == Visible(bs, p) + more
  {
    VisibleIsPrefix(bs, p);
    VisibleIsPrefix(bs, q);
    var m, n := |Visible(bs, p)|, |Visible(bs, q)|;
    VisibleNeverShrinks(bs, p, q);
    more := bs[m..n];
    assert bs[..n] == bs[..m] + bs[m..n];
  }

  /** Moving forward never needs a full replacement. */
  lemma ForwardNeverReplaces(bs: seq<BarValue>, interval: int, p: int, q: int)
    requires interval > 0 && Ascending(bs) && p <= q
    ensures var prev, next := Aggregate(Visible(bs, p), interval), Aggregate(Visible(bs, q), interval);
            !PlanUpdate(Some(prev), next, false).Replace?
  {
    var more := VisibleGrows(bs, p, q);
    MoreBarsContinue(Visible(bs, p), more, interval);
    var prev, next := Aggregate(Visible(bs, p), interval), Aggregate(Visible(bs, q), interval);
    SharedPrefix(prev, next);
  }

  /** Of a continuation at least all bars but the last are shared. */
  lemma SharedPrefix(prev: seq<BarValue>, next: seq<BarValue>)
    requires Continues(prev, next)
    ensures |prev| - 1 <= CommonPrefix(prev, next) <= |prev|
    ensures CommonPrefix(prev, next) == |prev| ==> prev == next[..|prev|]
  {
    if prev == [] {
      CommonPrefixIs(prev, next, 0);
    } else if prev[|prev| - 1] == next[|prev| - 1] {
      assert prev == next[..|prev|];
      CommonPrefixIs(prev, next, |prev|);
    } else {
      assert prev[..|prev| - 1] == next[..|prev| - 1];
      CommonPrefixIs(prev, next, |prev| - 1);
    }
  }

  /** A strictly ascending continuation is rebuilt exactly by its update plan. */
  lemma UpdateRebuilds(prev: seq<BarValue>, next: seq<BarValue>)
    requires Continues(prev, next) && StrictlyAscending(next)
    ensures Redraw(prev, PlanUpdate(Some(prev), next, false)) == next
  {
    SharedPrefix(prev, next);
    if CommonPrefix(prev, next) == |prev| {
      AppendRebuilds(prev, next);
    } else {
      ChangedLastRebuilds(prev, next);
    }
  }

  lemma AppendRebuilds(prev: seq<BarValue>, next: seq<BarValue>)
    requires |prev| <= |next| && prev == next[..|prev|] && StrictlyAscending(next) && CommonPrefix(prev, next) == |prev|
    ensures Redraw(prev, PlanUpdate(Some(prev), next, false)) == next
  {
    PushingBuildsNext(prev, next, |prev|, |next|);
    assert next[|prev|..|next|] == next[|prev|..] && next[..|next|] == next;
  }

  /** The last bar of `prev` changed: its replacement has the same time. */
  lemma ChangedLastRebuilds(prev: seq<BarValue>, next: seq<BarValue>)
    requires Continues(prev, next) && StrictlyAscending(next) && prev != [] && CommonPrefix(prev, next) == |prev| - 1
    ensures Redraw(prev, PlanUpdate(Some(prev), next, false)) == next
  {
    PlanFromLast(prev, next);
    PushReplacesLast(prev, next);
  }

  lemma PlanFromLast(prev: seq<BarValue>, next: seq<BarValue>)
    requires 0 < |prev| <= |next| && CommonPrefix(prev, next) == |prev| - 1
    ensures PlanUpdate(Some(prev), next, false) == Update(next[|prev| - 1..])
  {}

  lemma PushReplacesLast(prev: seq<BarValue>, next: seq<BarValue>)
    requires Continues(prev, next) && StrictlyAscending(next) && prev != []
    ensures PushAll(prev, next[|prev| - 1..]) == next
  {
    var n := |prev|;
    PushFirst(prev, next[n - 1..]);
    LastIsReplaced(prev, next);
    PushingBuildsNext(next[..n], next, n, |next|);
    RestOfRest(next, n - 1);
  }

  lemma LastIsReplaced(prev: seq<BarValue>, next: seq<BarValue>)
    requires Continues(prev, next) && prev != []
    ensures Push(prev, next[|prev| - 1]) == next[..|prev|]
  {}

  lemma RestOfRest(next: seq<BarValue>, k: nat)
    requires k < |next|
    ensures next[k..][1..] == next[k + 1..|next|] && next[..|next|] == next && next[k..][0] == next[k]
  {}

  /** Strictly later bars are all appended. */
  lemma {:induction false} LaterBarsAreAppended(series: seq<BarValue>, bs: seq<BarValue>)
    requires StrictlyAscending(bs)
    requires series != [] && bs != [] ==> series[|series| - 1].t != bs[0].t
    ensures |PushAll(series, bs)| == |series| + |bs|
  {
    if bs != [] {
      var front := bs[..|bs| - 1];
      LaterBarsAreAppended(series, front);
      PushingGrowsAtMost(series, front);
    }
  }

  /** A changed last bar is replaced only by a bar of its own time: otherwise the series gets one bar too many. */
  lemma MismatchedLastBarStays(prev: seq<BarValue>, next: seq<BarValue>)
    requires StrictlyAscending(next) && 0 < |prev| <= |next| && CommonPrefix(prev, next) == |prev| - 1
    requires prev[|prev| - 1].t != next[|prev| - 1].t
    ensures Redraw(prev, PlanUpdate(Some(prev), next, false)) != next
  {
    PlanFromLast(prev, next);
    LaterBarsAreAppended(prev, next[|prev| - 1..]);
  }

  /** For any two charts with distinct ascending times, the plan redraws the new one exactly unless it would update
      a last bar whose time differs. */
  lemma AnyUpdateIsFaithfulIff(prev: seq<BarValue>, next: seq<BarValue>)
    requires StrictlyAscending(next)
    ensures Redraw(prev, PlanUpdate(Some(prev), next, false)) == next <==>
              !(0 < |prev| <= |next| && CommonPrefix(prev, next) == |prev| - 1 && prev[|prev| - 1].t != next[|prev| - 1].t)
  {
    CommonPrefixAgrees(prev, next);
    var first := CommonPrefix(prev, next);
    if |prev| <= |next| && first == |prev| {
      AppendRebuilds(prev, next);
    } else if 0 < |prev| <= |next| && first == |prev| - 1 {
      if prev[|prev| - 1].t == next[|prev| - 1].t {
        AgreeingIsContinued(prev, next);
        ChangedLastRebuilds(prev, next);
      } else {
        MismatchedLastBarStays(prev, next);
      }
    }
  }

  lemma {:induction false} CommonPrefixAgrees(a: seq<BarValue>, b: seq<BarValue>)
    ensures a[..CommonPrefix(a, b)] == b[..CommonPrefix(a, b)]
  {
    if a != [] && b != [] && a[0] == b[0] {
      CommonPrefixAgrees(a[1..], b[1..]);
      var n := CommonPrefix(a[1..], b[1..]);
      assert a[..n + 1] == [a[0]] + a[1..][..n] && b[..n + 1] == [b[0]] + b[1..][..n];
    }
  }

  lemma AgreeingIsContinued(prev: seq<BarValue>, next: seq<BarValue>)
    requires 0 < |prev| <= |next| && prev[..|prev| - 1] == next[..|prev| - 1] && prev[|prev| - 1].t == next[|prev| - 1].t
    ensures Continues(prev, next)
  {
    forall i | 0 <= i < |prev| - 1 ensures next[i] == prev[i] {
      assert prev[..|prev| - 1][i] == next[..|prev| - 1][i];
    }
  }

  lemma {:induction false} PushFirst(series: seq<BarValue>, bs: seq<BarValue>)
    requires bs != []
    ensures PushAll(series, bs) == PushAll(Push(series, bs[0]), bs[1..])
    decreases |bs|
  {
    if |bs| == 1 {
      assert PushAll(series, bs[..0]) == series;
    } else {
      PushFirst(series, bs[..|bs| - 1]);
      assert bs[..|bs| - 1][1..] == bs[1..][..|bs[1..]| - 1];
    }
  }

  /** For aggregated intervals, and for strictly ascending minutes, the update is the redraw. */
  lemma IncrementalIsFullRecompute(bs: seq<BarValue>, interval: int, p: int, q: int)
    requires interval > 0 && Ascending(bs) && p <= q
    requires interval != 1 || StrictlyAscending(bs)
    ensures Incremental(bs, interval, p, q) == Aggregate(Visible(bs, q), interval)
  {
    var more := VisibleGrows(bs, p, q);
    MoreBarsContinue(Visible(bs, p), more, interval);
    VisibleIsPrefix(bs, q);
    BucketsAscend(Visible(bs, q), interval);
    UpdateRebuilds(Aggregate(Visible(bs, p), interval), Aggregate(Visible(bs, q), interval));
  }

  lemma EmptyIsUpdatedWhole(bs: seq<BarValue>)
    requires bs != []
    ensures Redraw([], PlanUpdate(Some([]), bs, false)) == PushAll([], bs)
  {
    CommonPrefixIs([], bs, 0);
    assert bs[0..] == bs;
  }

  /** With a repeated minute, one step from an empty chart to the full one loses a bar. */
  lemma RepeatedMinuteIsUnfaithful(bs: seq<BarValue>, k: nat)
    requires Ascending(bs) && 0 < k < |bs| && bs[k - 1].t == bs[k].t
    ensures var p, q := bs[0].t - 1, bs[|bs| - 1].t;
            p <= q && Incremental(bs, 1, p, q) != Aggregate(Visible(bs, q), 1)
  {
    var p, q := bs[0].t - 1, bs[|bs| - 1].t;
    VisibleIsPrefix(bs, p);
    VisibleIsPrefix(bs, q);
    assert Visible(bs, p) == [] && Visible(bs, q) == bs;
    EmptyIsUpdatedWhole(bs);
    RepeatedTimeLosesBar([], bs, k);
  }

  ghost predicate AlwaysFaithful(bs: seq<BarValue>, interval: int)
    requires interval > 0
  {
    forall p, q :: p <= q ==> Incremental(bs, interval, p, q) == Aggregate(Visible(bs, q), interval)
  }

  /** On validated bars the incremental chart is faithful for all playheads exactly when
      buckets are aggregated or no minute repeats. */
  lemma FaithfulIff(bs: seq<BarValue>, interval: int)
    requires interval > 0 && Ascending(bs)
    ensures AlwaysFaithful(bs, interval) <==> interval != 1 || StrictlyAscending(bs)
  {
    if interval != 1 || StrictlyAscending(bs) {
      forall p, q | p <= q ensures Incremental(bs, interval, p, q) == Aggregate(Visible(bs, q), interval) {
        IncrementalIsFullRecompute(bs, interval, p, q);
      }
    } else {
      var i, j :| 0 <= i < j < |bs| && !(bs[i].t < bs[j].t);
      assert bs[i].t <= bs[j - 1].t <= bs[j].t;
      RepeatedMinuteIsUnfaithful(bs, j);
    }
  }

  // ----- whole runs of the chart

  type Interval = i: int | 0 < i witness 1

  /** What the page asks for: any playhead, forward or backward, and any interval. */
  datatype View = View(playhead: int, interval: Interval)

  /** The bars rendered last, the series on the screen, and the last view. */
  datatype Screen = Screen(rendered: Option<seq<BarValue>>, shown: seq<BarValue>, last: View)

  /** A backward seek and a change of interval force a replacement. */
  function Show(s: Screen, bs: seq<BarValue>, v: View): Screen {
    var next := Aggregate(Visible(bs, v.playhead), v.interval);
    var force := v.interval != s.last.interval || v.playhead < s.last.playhead;
    Screen(Some(next), Redraw(s.shown, PlanUpdate(s.rendered, next, force)), v)
  }

  function ShowAll(start: View, bs: seq<BarValue>, views: seq<View>): Screen {
    if views == [] then Screen(None, [], start) else Show(ShowAll(start, bs, views[..|views| - 1]), bs, views[|views| - 1])
  }

  ghost predicate ShowsView(s: Screen, bs: seq<BarValue>) {
    s.shown == Aggregate(Visible(bs, s.last.playhead), s.last.interval)
  }

  /** After any views the chart is the one redrawn from scratch, provided minutes are not shown unaggregated or do not repeat. */
  lemma {:induction false} RunIsFaithful(start: View, bs: seq<BarValue>, views: seq<View>)
    requires Ascending(bs) && views != []
    requires StrictlyAscending(bs) || forall v :: v in views ==> v.interval != 1
    ensures ShowsView(ShowAll(start, bs, views), bs)
    ensures ShowAll(start, bs, views).rendered == Some(ShowAll(start, bs, views).shown)
  {
    var front, v := views[..|views| - 1], views[|views| - 1];
    if front != [] {
      RunIsFaithful(start, bs, front);
      var s := ShowAll(start, bs, front);
      if v.interval == s.last.interval && s.last.playhead <= v.playhead {
        assert v in views;
        IncrementalIsFullRecompute(bs, v.interval, s.last.playhead, v.playhead);
      }
    }
  }

  /** No sequence of views shows a wrong chart exactly when no minute repeats. */
  lemma RunsAreFaithfulIff(start: View, bs: seq<BarValue>)
    requires Ascending(bs)
    ensures (forall views :: views != [] ==> ShowsView(ShowAll(start, bs, views), bs)) <==> StrictlyAscending(bs)
  {
    if StrictlyAscending(bs) {
      forall views | views != [] ensures ShowsView(ShowAll(start, bs, views), bs) {
        RunIsFaithful(start, bs, views);
      }
    } else {
      var i, j :| 0 <= i < j < |bs| && !(bs[i].t < bs[j].t);
      assert bs[i].t <= bs[j - 1].t <= bs[j].t;
      RepeatedMinuteIsUnfaithful(bs, j);
      TwoViews(start, bs, View(bs[0].t - 1, 1), View(bs[|bs| - 1].t, 1));
    }
  }

  /** Two forward views of one interval: a full chart and one update. */
  lemma TwoViews(start: View, bs: seq<BarValue>, v: View, w: View)
    requires v.interval == w.interval && v.playhead <= w.playhead
    ensures ShowAll(start, bs, [v, w]).shown == Incremental(bs, v.interval, v.playhead, w.playhead)
    ensures ShowAll(start, bs, [v, w]).last == w
  {
    assert [v, w][..1] == [v] && [v][..0] == [];
    assert ShowAll(start, bs, []) == Screen(None, [], start);
    assert ShowAll(start, bs, [v]) == Show(Screen(None, [], start), bs, v);
  }
}
