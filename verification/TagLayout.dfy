/**
 * Placing annotation tags above the replay chart: each tag goes to the first row
 * that has a free position for it, at the free position nearest to its anchor.
 * Pixels are reals.
 */
module TagLayout {
  import opened Prelude

  /** A blocked stretch of one row, or of every row when `row` is absent. */
  datatype Range = Range(start: real, end: real, row: Option<int>)

  datatype Box = Box(start: real, end: real)

  datatype Tag = Tag(x: real, row: int, hidden: bool)

  /** The normalized inputs of one layout. */
  datatype Frame = Frame(width: real, available: real, spacing: real, blocked: seq<Range>) {
    function MaximumX(): (r: real)
      ensures r >= 0.0 && (r == 0.0 || r == available - width) && r >= available - width
    {
      Max(0.0, available - width)
    }

    /** The position inside the plot nearest to `x`. */
    function ClampX(x: real): (r: real)
      ensures 0.0 <= r <= MaximumX()
      ensures (x < 0.0 ==> r == 0.0) && (0.0 <= x <= MaximumX() ==> r == x) && (x > MaximumX() ==> r == MaximumX())
    {
      Max(0.0, Min(MaximumX(), x))
    }
  }

  function Clip(range: Range, available: real): Range {
    Range(Max(0.0, Min(available, Min(range.start, range.end))), Max(0.0, Min(available, Max(range.start, range.end))), range.row)
  }

  function ClipAll(ranges: seq<Range>, available: real): seq<Range> {
    if ranges == [] then []
    else
      var range := Clip(ranges[0], available);
      (if range.end > range.start then [range] else []) + ClipAll(ranges[1..], available)
  }

  function FrameOf(tagWidth: real, plotWidth: real, gap: real, ranges: seq<Range>): Frame {
    Frame(Max(0.0, tagWidth), Max(0.0, plotWidth), Max(0.0, gap), ClipAll(ranges, Max(0.0, plotWidth)))
  }

  function RowLimit(maxRows: Option<real>): Option<int> {
    if maxRows.None? then None else Some(if maxRows.value.Floor < 1 then 1 else maxRows.value.Floor)
  }

  // ----- one row

  function BlockedIn(blocked: seq<Range>, row: int): seq<Range> {
    if blocked == [] then []
    else (if blocked[0].row == None || blocked[0].row == Some(row) then [blocked[0]] else []) + BlockedIn(blocked[1..], row)
  }

  function BoxesOf(ranges: seq<Range>): seq<Box> {
    if ranges == [] then [] else [Box(ranges[0].start, ranges[0].end)] + BoxesOf(ranges[1..])
  }

  function TagBoxes(xs: seq<real>, width: real): seq<Box> {
    if xs == [] then [] else [Box(xs[0], xs[0] + width)] + TagBoxes(xs[1..], width)
  }

  /** What a new tag in `row` must avoid, when `xs` are the tags already there. */
  function Occupied(f: Frame, xs: seq<real>, row: int): seq<Box> {
    BoxesOf(BlockedIn(f.blocked, row)) + TagBoxes(xs, f.width)
  }

  /** A tag at `x` keeps the gap to a box. */
  predicate Apart(f: Frame, x: real, box: Box) {
    x + f.width + f.spacing <= box.start || x >= box.end + f.spacing
  }

  predicate Clear(f: Frame, x: real, boxes: seq<Box>) {
    forall box :: box in boxes ==> Apart(f, x, box)
  }

  /** A block of this very row covers the anchor. */
  predicate AnchorBlocked(f: Frame, anchorX: real, row: int) {
    exists range :: range in f.blocked && range.row == Some(row)
                    && anchorX + f.width + f.spacing > range.start && anchorX < range.end + f.spacing
  }

  function Edges(f: Frame, boxes: seq<Box>): seq<real> {
    if boxes == [] then []
    else [f.ClampX(boxes[0].start - f.spacing - f.width), f.ClampX(boxes[0].end + f.spacing)] + Edges(f, boxes[1..])
  }

  /** The positions tried: at the anchor, then at the two edges of each box in order. */
  function Candidates(f: Frame, boxes: seq<Box>, anchor: real): seq<real> {
    [f.ClampX(anchor)] + Edges(f, boxes)
  }

  function Distance(x: real, y: real): (d: real)
    ensures d >= 0.0 && (d == x - y || d == y - x)
  {
    if x < y then y - x else x - y
  }

  /** The first of the clear candidates nearest to the anchor. */
  function Nearest(f: Frame, candidates: seq<real>, boxes: seq<Box>, anchor: real): Option<real> {
    if candidates == [] then None
    else
      var last := candidates[|candidates| - 1];
      var best := Nearest(f, candidates[..|candidates| - 1], boxes, anchor);
      if !Clear(f, last, boxes) then best
      else if best.None? || Distance(last, anchor) < Distance(best.value, anchor) then Some(last)
      else best
  }

  /** The position a row offers to an anchor, if any. */
  function Offer(f: Frame, xs: seq<real>, row: int, anchor: real): Option<real> {
    if AnchorBlocked(f, f.ClampX(anchor), row) then None
    else
      var boxes := Occupied(f, xs, row);
      var x := Nearest(f, Candidates(f, boxes, anchor), boxes, anchor);
      if x.None? || (exists y :: y in xs && x.value < y) then None else x
  }

  // ----- the whole layout

  /** The tags of a row, in the order of their placement. */
  function InRow(tags: seq<Tag>, row: int): seq<real> {
    if tags == [] then []
    else
      var last := tags[|tags| - 1];
      InRow(tags[..|tags| - 1], row) + if !last.hidden && last.row == row then [last.x] else []
  }

  /** No row before `row` offers the anchor a position. */
  ghost predicate TurnedDown(f: Frame, tags: seq<Tag>, anchor: real, row: int) {
    forall r :: 0 <= r < row ==> Offer(f, InRow(tags, r), r, anchor) == None
  }

  /** `tag` is where the next anchor goes: the first row that offers a position, or hidden at the limit. */
  ghost predicate Placed(f: Frame, tags: seq<Tag>, anchor: real, limit: Option<int>, tag: Tag) {
    && 0 <= tag.row
    && TurnedDown(f, tags, anchor, tag.row)
    && (limit.Some? ==> tag.row < limit.value)
    && Offer(f, InRow(tags, tag.row), tag.row, anchor) == (if tag.hidden then None else Some(tag.x))
    && (tag.hidden ==> limit == Some(tag.row + 1) && tag.x == f.ClampX(anchor))
  }

  ghost predicate Laid(f: Frame, anchors: seq<real>, limit: Option<int>, tags: seq<Tag>) {
    && |tags| == |anchors|
    && forall i :: 0 <= i < |tags| ==> Placed(f, tags[..i], anchors[i], limit, tags[i])
  }

  /** Some position is clear of everything that blocks all rows. */
  ghost predicate HasSpot(f: Frame) {
    exists x :: OpenSpot(f, x)
  }

  ghost predicate OpenSpot(f: Frame, x: real) {
    && 0.0 <= x <= Max(0.0, f.available - f.width)
    && forall r :: r in f.blocked && r.row == None ==> x + f.width + f.spacing <= r.start || r.end + f.spacing <= x
  }

  function Unrowed(blocked: seq<Range>): seq<Range> {
    if blocked == [] then []
    else (if blocked[0].row == None then [blocked[0]] else []) + Unrowed(blocked[1..])
  }

  // ----- membership

  lemma {:induction false} BlockedInMembers(blocked: seq<Range>, row: int)
    ensures forall r :: r in BlockedIn(blocked, row) <==> r in blocked && (r.row == None || r.row == Some(row))
  {
    if blocked != [] {
      BlockedInMembers(blocked[1..], row);
      assert blocked == [blocked[0]] + blocked[1..];
    }
  }

  lemma {:induction false} UnrowedMembers(blocked: seq<Range>)
    ensures forall r :: r in Unrowed(blocked) <==> r in blocked && r.row == None
  {
    if blocked != [] {
      UnrowedMembers(blocked[1..]);
      assert blocked == [blocked[0]] + blocked[1..];
    }
  }

  lemma {:induction false} BoxesClear(f: Frame, x: real, ranges: seq<Range>)
    ensures Clear(f, x, BoxesOf(ranges)) <==> forall r :: r in ranges ==> Apart(f, x, Box(r.start, r.end))
  {
    if ranges != [] {
      BoxesClear(f, x, ranges[1..]);
      var first := Box(ranges[0].start, ranges[0].end);
      assert BoxesOf(ranges) == [first] + BoxesOf(ranges[1..]);
      assert ranges == [ranges[0]] + ranges[1..];
      ClearJoin(f, x, [first], BoxesOf(ranges[1..]));
      assert Clear(f, x, [first]) <==> Apart(f, x, first) by { assert first in [first]; }
    }
  }

  lemma {:induction false} TagsClear(f: Frame, x: real, xs: seq<real>)
    ensures Clear(f, x, TagBoxes(xs, f.width)) <==> forall i :: 0 <= i < |xs| ==> Apart(f, x, Box(xs[i], xs[i] + f.width))
  {
    TagBoxesAre(xs, f.width);
    var boxes := TagBoxes(xs, f.width);
    assert forall i :: 0 <= i < |xs| ==> boxes[i] in boxes;
  }

  lemma {:induction false} TagBoxesAre(xs: seq<real>, width: real)
    ensures |TagBoxes(xs, width)| == |xs|
    ensures forall i :: 0 <= i < |xs| ==> TagBoxes(xs, width)[i] == Box(xs[i], xs[i] + width)
  {
    if xs != [] {
      TagBoxesAre(xs[1..], width);
    }
  }

  lemma ClearJoin(f: Frame, x: real, a: seq<Box>, b: seq<Box>)
    ensures Clear(f, x, a + b) <==> Clear(f, x, a) && Clear(f, x, b)
  {
    assert forall box :: box in a + b <==> box in a || box in b;
  }

  /** A position of a row is free when it keeps the gap to the row's blocks and to the tags in it. */
  ghost predicate Free(f: Frame, xs: seq<real>, row: int, x: real) {
    && 0.0 <= x <= Max(0.0, f.available - f.width)
    && (forall r :: r in f.blocked && (r.row == None || r.row == Some(row)) ==>
          x + f.width + f.spacing <= r.start || r.end + f.spacing <= x)
    && (forall i :: 0 <= i < |xs| ==> x + f.width + f.spacing <= xs[i] || xs[i] + f.width + f.spacing <= x)
  }

  lemma FreeIsClear(f: Frame, xs: seq<real>, row: int, x: real)
    ensures Free(f, xs, row, x) <==> 0.0 <= x <= f.MaximumX() && Clear(f, x, Occupied(f, xs, row))
  {
    BlockedInMembers(f.blocked, row);
    BoxesClear(f, x, BlockedIn(f.blocked, row));
    TagsClear(f, x, xs);
    ClearJoin(f, x, BoxesOf(BlockedIn(f.blocked, row)), TagBoxes(xs, f.width));
  }

  // ----- the candidates are enough

  lemma {:induction false} NearestIsBest(f: Frame, candidates: seq<real>, boxes: seq<Box>, anchor: real)
    ensures var best := Nearest(f, candidates, boxes, anchor);
            && (best.Some? ==> best.value in candidates && Clear(f, best.value, boxes))
            && forall c :: c in candidates && Clear(f, c, boxes) ==> best.Some? && Distance(best.value, anchor) <= Distance(c, anchor)
  {
    if candidates != [] {
      var front := candidates[..|candidates| - 1];
      NearestIsBest(f, front, boxes, anchor);
      assert candidates == front + [candidates[|candidates| - 1]];
    }
  }

  lemma {:induction false} EdgesHold(f: Frame, boxes: seq<Box>, box: Box)
    requires box in boxes
    ensures f.ClampX(box.start - f.spacing - f.width) in Edges(f, boxes)
    ensures f.ClampX(box.end + f.spacing) in Edges(f, boxes)
  {
    if box != boxes[0] {
      assert box in boxes[1..];
      EdgesHold(f, boxes[1..], box);
    }
  }

  /** The rightmost box that ends a gap or more before `y`. */
  lemma {:induction false} LastBefore(f: Frame, boxes: seq<Box>, y: real, some: Box) returns (last: Box)
    requires some in boxes && some.end + f.spacing <= y
    ensures last in boxes && last.end + f.spacing <= y
    ensures forall b :: b in boxes && b.end + f.spacing <= y ==> b.end <= last.end
  {
    if forall b :: b in boxes[1..] ==> !(b.end + f.spacing <= y && b.end > boxes[0].end) {
      if boxes[0].end + f.spacing <= y {
        last := boxes[0];
      } else {
        assert some in boxes[1..];
        last := LastBefore(f, boxes[1..], y, some);
      }
    } else {
      var b :| b in boxes[1..] && b.end + f.spacing <= y && b.end > boxes[0].end;
      last := LastBefore(f, boxes[1..], y, b);
    }
  }

  /** The leftmost box that starts a tag and a gap or more after `y`. */
  lemma {:induction false} FirstAfter(f: Frame, boxes: seq<Box>, y: real, some: Box) returns (first: Box)
    requires some in boxes && y + f.width + f.spacing <= some.start
    ensures first in boxes && y + f.width + f.spacing <= first.start
    ensures forall b :: b in boxes && y + f.width + f.spacing <= b.start ==> first.start <= b.start
  {
    if forall b :: b in boxes[1..] ==> !(y + f.width + f.spacing <= b.start && b.start < boxes[0].start) {
      if y + f.width + f.spacing <= boxes[0].start {
        first := boxes[0];
      } else {
        assert some in boxes[1..];
        first := FirstAfter(f, boxes[1..], y, some);
      }
    } else {
      var b :| b in boxes[1..] && y + f.width + f.spacing <= b.start && b.start < boxes[0].start;
      first := FirstAfter(f, boxes[1..], y, b);
    }
  }

  /** Any clear position is matched by a clear candidate at least as near to the anchor. */
  lemma CandidatesSuffice(f: Frame, boxes: seq<Box>, anchor: real, y: real) returns (c: real)
    requires 0.0 <= y <= f.MaximumX() && Clear(f, y, boxes)
    ensures c in Candidates(f, boxes, anchor) && Clear(f, c, boxes)
    ensures Distance(c, anchor) <= Distance(y, anchor)
  {
    c := f.ClampX(anchor);
    if !Clear(f, c, boxes) {
      var hit :| hit in boxes && !Apart(f, c, hit);
      assert Apart(f, y, hit);
      if c < y {
        var last := LastBefore(f, boxes, y, hit);
        EdgesHold(f, boxes, last);
        c := f.ClampX(last.end + f.spacing);
        assert c == last.end + f.spacing;
        forall box | box in boxes ensures Apart(f, c, box) {
          assert Apart(f, y, box);
        }
      } else {
        var first := FirstAfter(f, boxes, y, hit);
        EdgesHold(f, boxes, first);
        c := f.ClampX(first.start - f.spacing - f.width);
        assert c == first.start - f.spacing - f.width;
        forall box | box in boxes ensures Apart(f, c, box) {
          assert Apart(f, y, box);
        }
      }
    }
  }

  ghost predicate NearestFree(f: Frame, xs: seq<real>, row: int, anchor: real, x: real) {
    && Free(f, xs, row, x)
    && forall y :: Free(f, xs, row, y) ==> Distance(x, anchor) <= Distance(y, anchor)
  }

  lemma {:induction false} EdgesInside(f: Frame, boxes: seq<Box>)
    ensures forall c :: c in Edges(f, boxes) ==> 0.0 <= c <= f.MaximumX()
  {
    if boxes != [] {
      EdgesInside(f, boxes[1..]);
    }
  }

  /** The best candidate is the best of all free positions of the row. */
  lemma NearestCandidateIsNearestFree(f: Frame, xs: seq<real>, row: int, anchor: real)
    ensures var boxes := Occupied(f, xs, row);
            var best := Nearest(f, Candidates(f, boxes, anchor), boxes, anchor);
            && (best.Some? ==> NearestFree(f, xs, row, anchor, best.value))
            && (best.None? ==> forall y :: !Free(f, xs, row, y))
  {
    var boxes := Occupied(f, xs, row);
    var candidates := Candidates(f, boxes, anchor);
    NearestIsBest(f, candidates, boxes, anchor);
    EdgesInside(f, boxes);
    var best := Nearest(f, candidates, boxes, anchor);
    if best.Some? {
      FreeIsClear(f, xs, row, best.value);
    }
    forall y | Free(f, xs, row, y) ensures best.Some? && Distance(best.value, anchor) <= Distance(y, anchor) {
      FreeIsClear(f, xs, row, y);
      var c := CandidatesSuffice(f, boxes, anchor, y);
    }
  }

  /** `x` is the first candidate among the clear ones nearest to the anchor. */
  ghost predicate FirstNearest(f: Frame, boxes: seq<Box>, candidates: seq<real>, anchor: real, x: real) {
    exists i :: FirstNearestAt(f, boxes, candidates, anchor, i) && candidates[i] == x
  }

  ghost predicate FirstNearestAt(f: Frame, boxes: seq<Box>, candidates: seq<real>, anchor: real, i: int) {
    && 0 <= i < |candidates| && Clear(f, candidates[i], boxes)
    && forall j :: 0 <= j < |candidates| && Clear(f, candidates[j], boxes) ==>
         && Distance(candidates[i], anchor) <= Distance(candidates[j], anchor)
         && (j < i ==> Distance(candidates[i], anchor) < Distance(candidates[j], anchor))
  }

  lemma {:induction false} NearestIsFirst(f: Frame, candidates: seq<real>, boxes: seq<Box>, anchor: real, x: real)
    ensures Nearest(f, candidates, boxes, anchor) == Some(x) <==> FirstNearest(f, boxes, candidates, anchor, x)
  {
    var best := Nearest(f, candidates, boxes, anchor);
    NearestIsBest(f, candidates, boxes, anchor);
    if best.Some? {
      var i := NearestIndex(f, candidates, boxes, anchor);
      forall j | FirstNearestAt(f, boxes, candidates, anchor, j) ensures j == i {
        FirstIsUnique(f, boxes, candidates, anchor, i, j);
      }
    }
  }

  lemma FirstIsUnique(f: Frame, boxes: seq<Box>, candidates: seq<real>, anchor: real, i: int, j: int)
    requires FirstNearestAt(f, boxes, candidates, anchor, i) && FirstNearestAt(f, boxes, candidates, anchor, j)
    ensures i == j
  {}

  lemma {:induction false} NearestIndex(f: Frame, candidates: seq<real>, boxes: seq<Box>, anchor: real) returns (i: nat)
    requires Nearest(f, candidates, boxes, anchor).Some?
    ensures FirstNearestAt(f, boxes, candidates, anchor, i) && Nearest(f, candidates, boxes, anchor) == Some(candidates[i])
  {
    var front, last := candidates[..|candidates| - 1], |candidates| - 1;
    var best := Nearest(f, front, boxes, anchor);
    NearestIsBest(f, front, boxes, anchor);
    assert forall j :: 0 <= j < last ==> candidates[j] == front[j] && candidates[j] in front;
    if Clear(f, candidates[last], boxes) && (best.None? || Distance(candidates[last], anchor) < Distance(best.value, anchor)) {
      i := last;
    } else {
      i := NearestIndex(f, front, boxes, anchor);
    }
  }

  /** The first nearest candidate of a row, if any, as a position. */
  ghost predicate Chosen(f: Frame, xs: seq<real>, row: int, anchor: real, x: real) {
    FirstNearest(f, Occupied(f, xs, row), Candidates(f, Occupied(f, xs, row), anchor), anchor, x)
  }

  /** A row chooses one of its free positions nearest to the anchor, whenever it has a free position at all. */
  lemma ChosenIsNearestFree(f: Frame, xs: seq<real>, row: int, anchor: real)
    ensures forall x :: Chosen(f, xs, row, anchor, x) ==> NearestFree(f, xs, row, anchor, x)
    ensures (exists x :: Chosen(f, xs, row, anchor, x)) <==> exists y :: Free(f, xs, row, y)
    ensures forall x, y :: Chosen(f, xs, row, anchor, x) && Chosen(f, xs, row, anchor, y) ==> x == y
  {
    var boxes := Occupied(f, xs, row);
    var candidates := Candidates(f, boxes, anchor);
    var best := Nearest(f, candidates, boxes, anchor);
    NearestCandidateIsNearestFree(f, xs, row, anchor);
    forall x ensures Chosen(f, xs, row, anchor, x) <==> best == Some(x) {
      NearestIsFirst(f, candidates, boxes, anchor, x);
    }
    if best.Some? {
      assert Chosen(f, xs, row, anchor, best.value) && Free(f, xs, row, best.value);
    }
  }

  /** A tag at `x` would come nearer than the gap to a block of this very row. */
  ghost predicate Covered(f: Frame, row: int, x: real) {
    exists r :: r in f.blocked && r.row == Some(row) && r.start < x + f.width + f.spacing && x < r.end + f.spacing
  }

  /** What a row offers is exactly its chosen position, unless a block of this row covers the anchor or a tag placed
      before lies to the right of that position; otherwise it offers nothing. */
  lemma OfferIsChosen(f: Frame, xs: seq<real>, row: int, anchor: real)
    ensures forall x :: Offer(f, xs, row, anchor) == Some(x) <==>
              !Covered(f, row, f.ClampX(anchor)) && Chosen(f, xs, row, anchor, x) && forall t :: t in xs ==> t <= x
    ensures Offer(f, xs, row, anchor) == None <==>
              || Covered(f, row, f.ClampX(anchor))
              || (forall y :: !Free(f, xs, row, y))
              || (exists x, t :: Chosen(f, xs, row, anchor, x) && t in xs && x < t)
  {
    var boxes := Occupied(f, xs, row);
    var candidates := Candidates(f, boxes, anchor);
    ChosenIsNearestFree(f, xs, row, anchor);
    forall x ensures Chosen(f, xs, row, anchor, x) <==> Nearest(f, candidates, boxes, anchor) == Some(x) {
      NearestIsFirst(f, candidates, boxes, anchor, x);
    }
  }

  /** A free position offered is nearest to the anchor and right of all tags placed before. */
  lemma OfferIsNearestFree(f: Frame, xs: seq<real>, row: int, anchor: real)
    ensures var offer := Offer(f, xs, row, anchor);
            offer.Some? ==> NearestFree(f, xs, row, anchor, offer.value) && forall t :: t in xs ==> t <= offer.value
    ensures !AnchorBlocked(f, f.ClampX(anchor), row) && xs == [] && (exists y :: Free(f, xs, row, y)) ==>
              Offer(f, xs, row, anchor).Some?
  {
    NearestCandidateIsNearestFree(f, xs, row, anchor);
  }

  /** Two free positions are equally near, one on each side of a tag: the row still offers the right one, because
      the block is tried before the tag. */
  lemma TieIsDecidedByOrder()
    ensures var f, xs := Frame(10.0, 200.0, 0.0, [Range(110.0, 120.0, None)]), [100.0];
            && Offer(f, xs, 0, 105.0) == Some(120.0)
            && NearestFree(f, xs, 0, 105.0, 90.0) && 90.0 < xs[0]
  {
    var f, xs := Frame(10.0, 200.0, 0.0, [Range(110.0, 120.0, None)]), [100.0];
    TieBoxes(f, xs);
    TieNearest(f);
    var boxes := Occupied(f, xs, 0);
    NearestCandidateIsNearestFree(f, xs, 0, 105.0);
    assert Distance(90.0, 105.0) == 15.0 == Distance(120.0, 105.0);
    FreeIsClear(f, xs, 0, 90.0);
    assert Clear(f, 90.0, boxes);
  }

  lemma TieBoxes(f: Frame, xs: seq<real>)
    requires f == Frame(10.0, 200.0, 0.0, [Range(110.0, 120.0, None)]) && xs == [100.0]
    ensures Occupied(f, xs, 0) == [Box(110.0, 120.0), Box(100.0, 110.0)]
    ensures Candidates(f, Occupied(f, xs, 0), 105.0) == [105.0, 100.0, 120.0, 90.0, 110.0]
  {
    var boxes := [Box(110.0, 120.0), Box(100.0, 110.0)];
    assert BlockedIn(f.blocked, 0) == f.blocked;
    assert TagBoxes(xs, 10.0) == [Box(100.0, 110.0)];
    assert boxes[1..] == [Box(100.0, 110.0)];
    assert Edges(f, boxes[1..]) == [90.0, 110.0];
    assert Edges(f, boxes) == [100.0, 120.0] + [90.0, 110.0];
  }

  lemma TieNearest(f: Frame)
    requires f == Frame(10.0, 200.0, 0.0, [Range(110.0, 120.0, None)])
    ensures Nearest(f, [105.0, 100.0, 120.0, 90.0, 110.0], [Box(110.0, 120.0), Box(100.0, 110.0)], 105.0) == Some(120.0)
  {
    var boxes := [Box(110.0, 120.0), Box(100.0, 110.0)];
    var all := [105.0, 100.0, 120.0, 90.0, 110.0];
    assert all[..4] == [105.0, 100.0, 120.0, 90.0] && all[..4][..3] == [105.0, 100.0, 120.0];
    assert all[..4][..3][..2] == [105.0, 100.0] && all[..4][..3][..2][..1] == [105.0] && all[..4][..3][..2][..1][..0] == [];
    assert boxes[0] in boxes && boxes[1] in boxes;
    assert !Clear(f, 105.0, boxes) && !Clear(f, 100.0, boxes) && !Clear(f, 110.0, boxes);
    assert Clear(f, 120.0, boxes) && Clear(f, 90.0, boxes);
    assert Nearest(f, [105.0, 100.0], boxes, 105.0) == None;
    assert Nearest(f, [105.0, 100.0, 120.0], boxes, 105.0) == Some(120.0);
    assert Nearest(f, [105.0, 100.0, 120.0, 90.0], boxes, 105.0) == Some(120.0);
  }

  // ----- searches without a row limit

  /** A row that no tag and no block of its own has touched. */
  function FreshRow(f: Frame, tags: seq<Tag>): (row: int)
    ensures row >= 0
  {
    MaxInt(AboveBlocks(f.blocked), AboveTags(tags))
  }

  function MaxInt(a: int, b: int): int { if a < b then b else a }

  function AboveBlocks(blocked: seq<Range>): (row: int)
    ensures row >= 0
    ensures forall r :: r in blocked && r.row.Some? ==> r.row.value < row
  {
    if blocked == [] then 0
    else MaxInt(if blocked[0].row.Some? then blocked[0].row.value + 1 else 0, AboveBlocks(blocked[1..]))
  }

  function AboveTags(tags: seq<Tag>): (row: int)
    ensures row >= 0
    ensures forall r :: r >= row ==> InRow(tags, r) == []
  {
    if tags == [] then 0 else MaxInt(tags[|tags| - 1].row + 1, AboveTags(tags[..|tags| - 1]))
  }

  lemma OpenIsFree(f: Frame, row: int, x: real)
    requires forall r :: r in f.blocked ==> r.row != Some(row)
    ensures OpenSpot(f, x) <==> Free(f, [], row, x)
  {
    UnrowedMembers(f.blocked);
    BoxesClear(f, x, Unrowed(f.blocked));
  }

  lemma FreshRowOffers(f: Frame, tags: seq<Tag>, anchor: real)
    requires HasSpot(f)
    ensures Offer(f, InRow(tags, FreshRow(f, tags)), FreshRow(f, tags), anchor).Some?
  {
    var row := FreshRow(f, tags);
    var x :| OpenSpot(f, x);
    OpenIsFree(f, row, x);
    OfferIsNearestFree(f, [], row, anchor);
  }

  /** With no row limit the search for a row ends exactly when some spot is open in all rows. */
  lemma UnlimitedSearchEndsIff(f: Frame, tags: seq<Tag>, anchor: real)
    ensures (exists row :: row >= 0 && Offer(f, InRow(tags, row), row, anchor).Some?) <==> HasSpot(f)
  {
    if HasSpot(f) {
      FreshRowOffers(f, tags, anchor);
    }
    forall row | row >= 0 && Offer(f, InRow(tags, row), row, anchor).Some? ensures HasSpot(f) {
      OfferIsNearestFree(f, InRow(tags, row), row, anchor);
      var x := Offer(f, InRow(tags, row), row, anchor).value;
      UnrowedMembers(f.blocked);
      BoxesClear(f, x, Unrowed(f.blocked));
      assert OpenSpot(f, x);
    }
  }

  /** A block over the whole plot in every row: no limit, no end. */
  lemma FullyBlockedSearchNeverEnds(tags: seq<Tag>, anchor: real)
    ensures var f := Frame(10.0, 20.0, 0.0, [Range(0.0, 20.0, None)]);
            !HasSpot(f) && forall row :: row >= 0 ==> Offer(f, InRow(tags, row), row, anchor) == None
  {
    var f := Frame(10.0, 20.0, 0.0, [Range(0.0, 20.0, None)]);
    forall x ensures !OpenSpot(f, x) {
      UnrowedMembers(f.blocked);
      BoxesClear(f, x, Unrowed(f.blocked));
      assert f.blocked[0] in f.blocked;
    }
    UnlimitedSearchEndsIff(f, tags, anchor);
  }

  lemma LaidSnoc(f: Frame, anchors: seq<real>, anchor: real, limit: Option<int>, tags: seq<Tag>, tag: Tag)
    requires Laid(f, anchors, limit, tags) && Placed(f, tags, anchor, limit, tag)
    ensures Laid(f, anchors + [anchor], limit, tags + [tag])
  {
    var all := tags + [tag];
    forall i | 0 <= i < |all| ensures Placed(f, all[..i], (anchors + [anchor])[i], limit, all[i]) {
      assert all[..i] == tags[..i];
      assert tags[..|tags|] == tags;
    }
  }

  ghost predicate RowsMatch(rows: map<int, seq<real>>, tags: seq<Tag>) {
    forall row :: InRow(tags, row) == RowOf(rows, row)
  }

  function RowOf(rows: map<int, seq<real>>, row: int): seq<real> {
    if row in rows then rows[row] else []
  }

  lemma TurnedDownNext(f: Frame, tags: seq<Tag>, anchor: real, row: int)
    requires TurnedDown(f, tags, anchor, row) && Offer(f, InRow(tags, row), row, anchor) == None
    ensures TurnedDown(f, tags, anchor, row + 1)
  {}

  lemma TurnedDownAll(f: Frame, tags: seq<Tag>, anchor: real, limit: int)
    requires limit >= 1 && TurnedDown(f, tags, anchor, limit)
    ensures TurnedDown(f, tags, anchor, limit - 1) && Offer(f, InRow(tags, limit - 1), limit - 1, anchor) == None
  {}

  /** Rows are tried from the first; without a limit the search needs a spot open in all rows. */
  method PlaceTag(f: Frame, rows: map<int, seq<real>>, ghost tags: seq<Tag>, anchor: real, limit: Option<int>)
    returns (tag: Tag)
    requires RowsMatch(rows, tags)
    requires limit.Some? ==> limit.value >= 1
    requires limit.None? ==> HasSpot(f)
    ensures Placed(f, tags, anchor, limit, tag)
  {
    var row := 0;
    while limit.None? || row < limit.value
      invariant 0 <= row && (limit.Some? ==> row <= limit.value)
      invariant TurnedDown(f, tags, anchor, row)
      invariant limit.None? ==> row <= FreshRow(f, tags)
      decreases (if limit.Some? then limit.value else FreshRow(f, tags) + 1) - row
    {
      if limit.None? {
        FreshRowOffers(f, tags, anchor);
      }
      var offer := Offer(f, RowOf(rows, row), row, anchor);
      assert RowOf(rows, row) == InRow(tags, row);
      if offer.Some? {
        return Tag(offer.value, row, false);
      }
      TurnedDownNext(f, tags, anchor, row);
      row := row + 1;
    }
    TurnedDownAll(f, tags, anchor, limit.value);
    return Tag(f.ClampX(anchor), limit.value - 1, true);
  }

  /** Without a row limit the layout needs a spot that is open in all rows; see `UnlimitedSearchEndsIff`. */
  method LayoutReplayAnnotationTags(anchors: seq<real>, tagWidth: real, plotWidth: real, gap: real,
                                    ranges: seq<Range>, maxRows: Option<real>)
    returns (tags: seq<Tag>)
    requires maxRows.None? ==> HasSpot(FrameOf(tagWidth, plotWidth, gap, ranges))
    ensures Laid(FrameOf(tagWidth, plotWidth, gap, ranges), anchors, RowLimit(maxRows), tags)
  {
    var f := FrameOf(tagWidth, plotWidth, gap, ranges);
    var limit := RowLimit(maxRows);
    var rows: map<int, seq<real>> := map[];
    tags := [];
    for i := 0 to |anchors|
      invariant Laid(f, anchors[..i], limit, tags)
      invariant RowsMatch(rows, tags)
    {
      var tag := PlaceTag(f, rows, tags, anchors[i], limit);
      RowsMatchSnoc(rows, tags, tag);
      if !tag.hidden {
        rows := rows[tag.row := RowOf(rows, tag.row) + [tag.x]];
      }
      LaidSnoc(f, anchors[..i], anchors[i], limit, tags, tag);
      tags := tags + [tag];
      assert anchors[..i + 1] == anchors[..i] + [anchors[i]];
    }
    assert anchors[..|anchors|] == anchors;
  }

  lemma RowsMatchSnoc(rows: map<int, seq<real>>, tags: seq<Tag>, tag: Tag)
    requires RowsMatch(rows, tags)
    ensures RowsMatch(if tag.hidden then rows else rows[tag.row := RowOf(rows, tag.row) + [tag.x]], tags + [tag])
  {
    assert (tags + [tag])[..|tags|] == tags;
    var rows' := if tag.hidden then rows else rows[tag.row := RowOf(rows, tag.row) + [tag.x]];
    forall row ensures InRow(tags + [tag], row) == RowOf(rows', row) {
      assert InRow(tags, row) == RowOf(rows, row);
      assert InRow(tags + [tag], row) == InRow(tags, row) + if !tag.hidden && tag.row == row then [tag.x] else [];
    }
  }

  // ----- what a layout promises

  lemma {:induction false} InRowHolds(tags: seq<Tag>, i: nat)
    requires i < |tags| && !tags[i].hidden
    ensures tags[i].x in InRow(tags, tags[i].row)
  {
    if i < |tags| - 1 {
      InRowHolds(tags[..|tags| - 1], i);
    }
  }

  /** A visible tag stays inside the plot and keeps the gap to every block of its row. */
  lemma VisibleTagsAvoidBlocks(f: Frame, anchors: seq<real>, limit: Option<int>, tags: seq<Tag>, i: nat)
    requires Laid(f, anchors, limit, tags) && i < |tags| && !tags[i].hidden
    ensures 0.0 <= tags[i].x <= Max(0.0, f.available - f.width)
    ensures forall r :: r in f.blocked && (r.row == None || r.row == Some(tags[i].row)) ==>
              tags[i].x + f.width + f.spacing <= r.start || r.end + f.spacing <= tags[i].x
  {
    OfferIsNearestFree(f, InRow(tags[..i], tags[i].row), tags[i].row, anchors[i]);
    forall r | r in f.blocked && (r.row == None || r.row == Some(tags[i].row))
      ensures tags[i].x + f.width + f.spacing <= r.start || r.end + f.spacing <= tags[i].x
    {
      assert Apart(f, tags[i].x, Box(r.start, r.end));
    }
  }

  lemma {:induction false} ClipAllHolds(ranges: seq<Range>, available: real, range: Range)
    requires range in ranges && Clip(range, available).start < Clip(range, available).end
    ensures Clip(range, available) in ClipAll(ranges, available)
  {
    if range != ranges[0] {
      assert range in ranges[1..];
      ClipAllHolds(ranges[1..], available, range);
    }
  }

  /** In terms of the inputs: no point of the plot strictly inside a blocked range, whichever way round its ends
      are given, comes nearer than the gap to a visible tag of that row. */
  lemma VisibleTagsLeaveTheGap(anchors: seq<real>, tagWidth: real, plotWidth: real, gap: real, ranges: seq<Range>,
                               limit: Option<int>, tags: seq<Tag>, i: nat, range: Range, p: real)
    requires Laid(FrameOf(tagWidth, plotWidth, gap, ranges), anchors, limit, tags) && i < |tags| && !tags[i].hidden
    requires range in ranges && (range.row == None || range.row == Some(tags[i].row))
    requires 0.0 < p < plotWidth && Min(range.start, range.end) < p < Max(range.start, range.end)
    ensures p <= tags[i].x - Max(0.0, gap) || tags[i].x + Max(0.0, tagWidth) + Max(0.0, gap) <= p
  {
    VisibleTagsAvoidBlocks(FrameOf(tagWidth, plotWidth, gap, ranges), anchors, limit, tags, i);
    ClipAllHolds(ranges, Max(0.0, plotWidth), range);
  }

  /** Later tags of a row lie to the right of earlier ones, a full gap apart. */
  lemma RowsArePacked(f: Frame, anchors: seq<real>, limit: Option<int>, tags: seq<Tag>, i: nat, j: nat)
    requires Laid(f, anchors, limit, tags) && f.width + f.spacing > 0.0
    requires i < j < |tags| && !tags[i].hidden && !tags[j].hidden && tags[i].row == tags[j].row
    ensures tags[i].x + f.width + f.spacing <= tags[j].x
  {
    var xs := InRow(tags[..j], tags[j].row);
    InRowHolds(tags[..j], i);
    OfferIsNearestFree(f, xs, tags[j].row, anchors[j]);
    var k :| 0 <= k < |xs| && xs[k] == tags[i].x;
    assert Apart(f, tags[j].x, Box(xs[k], xs[k] + f.width));
  }

  /** A tag is hidden only when every row up to the limit turned its anchor down, so never without a limit. */
  lemma HiddenOnlyAtTheLimit(f: Frame, anchors: seq<real>, limit: Option<int>, tags: seq<Tag>, i: nat)
    requires Laid(f, anchors, limit, tags) && i < |tags|
    ensures tags[i].hidden <==> limit.Some? && TurnedDown(f, tags[..i], anchors[i], limit.value)
  {
    assert Placed(f, tags[..i], anchors[i], limit, tags[i]);
    if limit.Some? && !tags[i].hidden {
      assert Offer(f, InRow(tags[..i], tags[i].row), tags[i].row, anchors[i]) != None;
    }
  }

  lemma PlacedIsUnique(f: Frame, tags: seq<Tag>, anchor: real, limit: Option<int>, a: Tag, b: Tag)
    requires Placed(f, tags, anchor, limit, a) && Placed(f, tags, anchor, limit, b)
    ensures a == b
  {
    assert a.hidden || Offer(f, InRow(tags, a.row), a.row, anchor) != None;
    assert b.hidden || Offer(f, InRow(tags, b.row), b.row, anchor) != None;
    assert a.row == b.row;
  }

  lemma SnocEqual(a: seq<Tag>, b: seq<Tag>, i: nat)
    requires i < |a| && i < |b| && a[..i] == b[..i] && a[i] == b[i]
    ensures a[..i + 1] == b[..i + 1]
  {
    assert a[..i + 1] == a[..i] + [a[i]] && b[..i + 1] == b[..i] + [b[i]];
  }

  lemma NextTagIsUnique(f: Frame, anchors: seq<real>, limit: Option<int>, a: seq<Tag>, b: seq<Tag>, i: nat)
    requires Laid(f, anchors, limit, a) && Laid(f, anchors, limit, b) && i < |anchors| && a[..i] == b[..i]
    ensures a[i] == b[i]
  {
    PlacedIsUnique(f, a[..i], anchors[i], limit, a[i], b[i]);
  }

  /** A layout is determined by its inputs. */
  lemma {:induction false} LayoutIsUnique(f: Frame, anchors: seq<real>, limit: Option<int>, a: seq<Tag>, b: seq<Tag>, n: nat)
    requires Laid(f, anchors, limit, a) && Laid(f, anchors, limit, b) && n <= |anchors|
    ensures a[..n] == b[..n]
  {
    if n > 0 {
      LayoutIsUnique(f, anchors, limit, a, b, n - 1);
      NextTagIsUnique(f, anchors, limit, a, b, n - 1);
      SnocEqual(a, b, n - 1);
    }
  }

  // ----- the inputs, and the order of the candidates

  ghost predicate ClippedFrom(r: Range, source: Range, available: real) {
    && r.row == source.row
    && r.start == Max(0.0, Min(available, Min(source.start, source.end)))
    && r.end == Max(0.0, Min(available, Max(source.start, source.end)))
  }

  lemma {:induction false} ClipAllIs(ranges: seq<Range>, available: real, r: Range)
    ensures r in ClipAll(ranges, available) <==> r.start < r.end && exists source :: source in ranges && ClippedFrom(r, source, available)
  {
    if ranges != [] {
      ClipAllIs(ranges[1..], available, r);
      var range := Clip(ranges[0], available);
      assert ClippedFrom(r, ranges[0], available) <==> r == range;
      assert ClipAll(ranges, available) == (if range.end > range.start then [range] else []) + ClipAll(ranges[1..], available);
      forall source | source in ranges && ClippedFrom(r, source, available)
        ensures source == ranges[0] || source in ranges[1..]
      {
        assert ranges == [ranges[0]] + ranges[1..];
      }
      if r in ClipAll(ranges[1..], available) {
        var source :| source in ranges[1..] && ClippedFrom(r, source, available);
        assert source in ranges;
      } else if r == range {
        assert ranges[0] in ranges;
      }
    }
  }

  /** The ranges keep their order. */
  lemma {:induction false} ClipAllInOrder(ranges: seq<Range>, available: real, i: nat, j: nat) returns (p: nat, q: nat)
    requires i < j < |ClipAll(ranges, available)|
    ensures p < q < |ranges|
    ensures ClippedFrom(ClipAll(ranges, available)[i], ranges[p], available) && ClippedFrom(ClipAll(ranges, available)[j], ranges[q], available)
  {
    var range := Clip(ranges[0], available);
    var head := if range.end > range.start then 1 else 0;
    var rest := ClipAll(ranges[1..], available);
    if i >= head {
      p, q := ClipAllInOrder(ranges[1..], available, i - head, j - head);
      p, q := p + 1, q + 1;
    } else {
      ClipAllIs(ranges[1..], available, rest[j - 1]);
      assert rest[j - 1] in rest;
      var source :| source in ranges[1..] && ClippedFrom(rest[j - 1], source, available);
      var k :| 0 <= k < |ranges[1..]| && ranges[1..][k] == source;
      p, q := 0, k + 1;
    }
  }

  /** Negative sizes count as none, blocks are put the right way round and cut to the plot, and empty ones are dropped. */
  lemma FrameIs(tagWidth: real, plotWidth: real, gap: real, ranges: seq<Range>)
    ensures var f := FrameOf(tagWidth, plotWidth, gap, ranges);
            && f.width == Max(0.0, tagWidth) && f.available == Max(0.0, plotWidth) && f.spacing == Max(0.0, gap)
            && forall r :: r in f.blocked <==>
                 r.start < r.end && exists source :: source in ranges && ClippedFrom(r, source, Max(0.0, plotWidth))
  {
    forall r ensures r in ClipAll(ranges, Max(0.0, plotWidth)) <==>
                       r.start < r.end && exists source :: source in ranges && ClippedFrom(r, source, Max(0.0, plotWidth)) {
      ClipAllIs(ranges, Max(0.0, plotWidth), r);
    }
  }

  /** A row limit is the whole number below it, and at least one; without one there is none. */
  lemma RowLimitIs(maxRows: Option<real>)
    ensures RowLimit(maxRows) == None <==> maxRows == None
    ensures maxRows.Some? ==>
              var limit := RowLimit(maxRows).value;
              if maxRows.value < 1.0 then limit == 1 else limit as real <= maxRows.value < limit as real + 1.0
  {}

  /** The obstacles of a row: its blocks in order, then its tags in the order of their placement. */
  lemma OccupiedIs(f: Frame, xs: seq<real>, row: int)
    ensures var boxes, blocks := Occupied(f, xs, row), BlockedIn(f.blocked, row);
            && |boxes| == |blocks| + |xs|
            && (forall i :: 0 <= i < |blocks| ==> boxes[i] == Box(blocks[i].start, blocks[i].end))
            && (forall i :: 0 <= i < |xs| ==> boxes[|blocks| + i] == Box(xs[i], xs[i] + f.width))
    ensures forall r :: r in BlockedIn(f.blocked, row) <==> r in f.blocked && (r.row == None || r.row == Some(row))
  {
    BoxesOfAre(BlockedIn(f.blocked, row));
    TagBoxesAre(xs, f.width);
    BlockedInMembers(f.blocked, row);
  }

  lemma {:induction false} BoxesOfAre(ranges: seq<Range>)
    ensures |BoxesOf(ranges)| == |ranges|
    ensures forall i :: 0 <= i < |ranges| ==> BoxesOf(ranges)[i] == Box(ranges[i].start, ranges[i].end)
  {
    if ranges != [] {
      BoxesOfAre(ranges[1..]);
    }
  }

  lemma {:induction false} BlockedInOrder(blocked: seq<Range>, row: int, i: nat, j: nat) returns (p: nat, q: nat)
    requires i < j < |BlockedIn(blocked, row)|
    ensures p < q < |blocked| && blocked[p] == BlockedIn(blocked, row)[i] && blocked[q] == BlockedIn(blocked, row)[j]
  {
    var head := if blocked[0].row == None || blocked[0].row == Some(row) then 1 else 0;
    var rest := BlockedIn(blocked[1..], row);
    if i >= head {
      p, q := BlockedInOrder(blocked[1..], row, i - head, j - head);
      p, q := p + 1, q + 1;
    } else {
      BlockedInMembers(blocked[1..], row);
      assert rest[j - 1] in rest;
      var k :| 0 <= k < |blocked[1..]| && blocked[1..][k] == rest[j - 1];
      p, q := 0, k + 1;
    }
  }

  /** The candidates: at the anchor, then on both sides of each obstacle in turn. */
  lemma CandidatesAre(f: Frame, boxes: seq<Box>, anchor: real)
    ensures var c := Candidates(f, boxes, anchor);
            && |c| == 1 + 2 * |boxes| && c[0] == f.ClampX(anchor)
            && forall k :: 0 <= k < |boxes| ==>
                 c[1 + 2 * k] == f.ClampX(boxes[k].start - f.spacing - f.width) && c[2 + 2 * k] == f.ClampX(boxes[k].end + f.spacing)
  {
    EdgesAre(f, boxes);
    var c := Candidates(f, boxes, anchor);
    forall k | 0 <= k < |boxes|
      ensures c[1 + 2 * k] == f.ClampX(boxes[k].start - f.spacing - f.width) && c[2 + 2 * k] == f.ClampX(boxes[k].end + f.spacing)
    {
      assert c[1 + 2 * k] == Edges(f, boxes)[2 * k] && c[2 + 2 * k] == Edges(f, boxes)[2 * k + 1];
      EdgeAt(f, boxes, k);
    }
  }

  lemma {:induction false} EdgesAre(f: Frame, boxes: seq<Box>)
    ensures |Edges(f, boxes)| == 2 * |boxes|
  {
    if boxes != [] {
      EdgesAre(f, boxes[1..]);
    }
  }

  lemma {:induction false} EdgeAt(f: Frame, boxes: seq<Box>, k: nat)
    requires k < |boxes| && |Edges(f, boxes)| == 2 * |boxes|
    ensures Edges(f, boxes)[2 * k] == f.ClampX(boxes[k].start - f.spacing - f.width)
    ensures Edges(f, boxes)[2 * k + 1] == f.ClampX(boxes[k].end + f.spacing)
  {
    if k > 0 {
      EdgesAre(f, boxes[1..]);
      EdgeAt(f, boxes[1..], k - 1);
    }
  }
}
