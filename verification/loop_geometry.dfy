/** Geometry of the horizontal marquee loop: capturing each item's offset as a
    percentage of its own width, the width of the whole strip, and the pair of
    tweens that carries one item once around the loop. All measurements are
    plain numbers read from the layout before the loop is built. */
module LoopGeometry {
  import opened Options
  import Snapping

  /** One marquee item as measured by the layout. `width` is the computed CSS
      width in pixels, `offsetWidth` the layout box width; `x` and `xPercent`
      are the item's current horizontal transform. */
  datatype Item = Item(
    offsetLeft: real,
    width: real,
    offsetWidth: real,
    scaleX: real,
    x: real,
    xPercent: real)

  /** Every item has a positive width (offsets are divided by it). */
  predicate PositiveWidths(items: seq<Item>) {
    forall i :: 0 <= i < |items| ==> items[i].width > 0.0
  }

  /** A tween of an item's `xPercent` property: it starts at `start` seconds on
      the shared timeline and runs for `duration` seconds from `from` (or from
      the current value when `from` is `None`) to `to`. */
  datatype Tween = Tween(start: real, duration: real, from: Option<real>, to: real)

  /** The two tweens of one item and the time of its label. */
  datatype Track = Track(exit: Tween, entry: Tween, labelAt: real)

  function End(t: Tween): real {
    t.start + t.duration
  }

  // ---------------------------------------------------------------------
  // Offset capture

  /** The item's pixel offset plus its percentage offset, expressed as a
      percentage of its width, then snapped. */
  function CapturedXPercent(snap: real -> real, it: Item): real
    requires it.width > 0.0
  {
    snap(it.x / it.width * 100.0 + it.xPercent)
  }

  /** The item after the capture: its whole offset is now carried by
      `xPercent` and its pixel `x` is zero. */
  function Capture(snap: real -> real, it: Item): (c: Item)
    requires it.width > 0.0
    ensures c.x == 0.0
    ensures c.xPercent == snap(it.x / it.width * 100.0 + it.xPercent)
    ensures c.offsetLeft == it.offsetLeft && c.width == it.width
    ensures c.offsetWidth == it.offsetWidth && c.scaleX == it.scaleX
  {
    it.(xPercent := CapturedXPercent(snap, it), x := 0.0)
  }

  function CaptureAll(snap: real -> real, items: seq<Item>): (cs: seq<Item>)
    requires PositiveWidths(items)
    ensures |cs| == |items| && PositiveWidths(cs)
    ensures forall i :: 0 <= i < |items| ==> cs[i] == Capture(snap, items[i])
  {
    seq(|items|, i requires 0 <= i < |items| => Capture(snap, items[i]))
  }

  /** Capturing twice with an idempotent snap gives the same items as
      capturing once: re-building the loop on already transformed items does
      not drift. */
  lemma CaptureIdempotent(snap: real -> real, items: seq<Item>)
    requires PositiveWidths(items)
    requires Snapping.Idempotent(snap)
    ensures CaptureAll(snap, CaptureAll(snap, items)) == CaptureAll(snap, items)
  {
    var once := CaptureAll(snap, items);
    var twice := CaptureAll(snap, once);
    forall i | 0 <= i < |items|
      ensures twice[i] == once[i]
    {
      var it := items[i];
      var c := once[i];
      var p := it.x / it.width * 100.0 + it.xPercent;
      assert c.xPercent == snap(p);
      assert c.x / c.width * 100.0 + c.xPercent == snap(p);
      assert twice[i].xPercent == snap(snap(p));
    }
  }

  lemma PercentOfWidth(a: real, w: real)
    requires w > 0.0
    ensures (a / w * 100.0) / 100.0 * w == a
  {
  }

  /** Without snapping, the capture keeps every item where it is: its pixel
      offset after the capture equals its pixel plus percentage offset before. */
  lemma CaptureKeepsPosition(snap: real -> real, it: Item)
    requires it.width > 0.0
    requires forall v :: snap(v) == v
    ensures Capture(snap, it).xPercent / 100.0 * it.width
         == it.x + it.xPercent / 100.0 * it.width
  {
    var c := Capture(snap, it);
    assert c.xPercent == it.x / it.width * 100.0 + it.xPercent;
    PercentOfWidth(it.x, it.width);
  }

  // ---------------------------------------------------------------------
  // Strip width

  /** The pixel offset an item's `xPercent` stands for. */
  function CurX(it: Item): real {
    it.xPercent / 100.0 * it.width
  }

  /** Width of one cycle of the strip, from the first item's left edge to the
      scaled right edge of the last item, plus the trailing padding. */
  function TotalWidth(items: seq<Item>, paddingRight: real): real
    requires |items| > 0
  {
    var last := items[|items| - 1];
    last.offsetLeft + CurX(last) - items[0].offsetLeft + last.offsetWidth * last.scaleX + paddingRight
  }

  function SumOffsetWidths(items: seq<Item>): real {
    if |items| == 0 then 0.0 else SumOffsetWidths(items[..|items| - 1]) + items[|items| - 1].offsetWidth
  }

  /** Items laid out edge to edge: each starts where the previous box ends. */
  predicate Abutting(items: seq<Item>) {
    forall i :: 0 < i < |items| ==> items[i].offsetLeft == items[i - 1].offsetLeft + items[i - 1].offsetWidth
  }

  lemma {:induction false} AbuttingOffset(items: seq<Item>, k: nat)
    requires Abutting(items) && k < |items|
    ensures items[k].offsetLeft - items[0].offsetLeft == SumOffsetWidths(items[..k])
  {
    if k > 0 {
      AbuttingOffset(items, k - 1);
      assert items[..k][..k - 1] == items[..k - 1];
    }
  }

  /** For abutting, untransformed, unscaled items the strip is exactly the sum
      of the item boxes plus the padding. */
  lemma TotalWidthOfAbuttingItems(items: seq<Item>, paddingRight: real)
    requires |items| > 0 && Abutting(items)
    requires items[|items| - 1].xPercent == 0.0 && items[|items| - 1].scaleX == 1.0
    ensures TotalWidth(items, paddingRight) == SumOffsetWidths(items) + paddingRight
  {
    var n := |items|;
    AbuttingOffset(items, n - 1);
    assert items[..n][..n - 1] == items[..n - 1];
    assert items[..n] == items;
  }

  // ---------------------------------------------------------------------
  // Per-item schedule

  /** How far the item's left edge is past the strip start. */
  function DistanceToStart(it: Item, startX: real): real {
    it.offsetLeft + CurX(it) - startX
  }

  /** How far the item travels before its scaled box has fully left the
      strip start. */
  function DistanceToLoop(it: Item, startX: real): real {
    DistanceToStart(it, startX) + it.width * it.scaleX
  }

  lemma DivSum(a: real, b: real, p: real)
    requires p > 0.0
    ensures a / p + b / p == (a + b) / p
  {
  }

  /** The schedule of one captured item on a loop of width `totalWidth`
      played at `pps` pixels per second: it slides left until it has fully
      left the strip, then re-enters from the far end and slides back to its
      rest offset. Its label marks the moment it reaches the strip start. */
  function TrackOf(snap: real -> real, it: Item, startX: real, totalWidth: real, pps: real): (t: Track)
    requires it.width > 0.0 && pps > 0.0
    ensures t.exit.start == 0.0 && t.exit.from == None
    ensures t.entry.start == End(t.exit) && t.entry.from.Some?
    ensures t.entry.to == it.xPercent
  {
    var curX := CurX(it);
    var distanceToStart := DistanceToStart(it, startX);
    var distanceToLoop := DistanceToLoop(it, startX);
    Track(
      Tween(0.0, distanceToLoop / pps, None, snap((curX - distanceToLoop) / it.width * 100.0)),
      Tween(distanceToLoop / pps, (curX - distanceToLoop + totalWidth - curX) / pps,
            Some(snap((curX - distanceToLoop + totalWidth) / it.width * 100.0)), it.xPercent),
      distanceToStart / pps)
  }

  /** Every item's cycle has the same length: its two durations add up to
      `totalWidth / pps`, so its re-entry ends exactly when the cycle does. */
  lemma CycleClosure(snap: real -> real, it: Item, startX: real, totalWidth: real, pps: real)
    requires it.width > 0.0 && pps > 0.0
    ensures var t := TrackOf(snap, it, startX, totalWidth, pps);
      && t.exit.duration + t.entry.duration == totalWidth / pps
      && End(t.entry) == totalWidth / pps
  {
    var dL := DistanceToLoop(it, startX);
    var curX := CurX(it);
    DivSum(dL, curX - dL + totalWidth - curX, pps);
  }

  /** Without snapping, both tweens move the item left at exactly `pps`
      pixels per second, and between them the item jumps right by exactly
      the strip width: the wrap is seamless. */
  lemma UniformSpeed(snap: real -> real, it: Item, startX: real, totalWidth: real, pps: real)
    requires it.width > 0.0 && pps > 0.0
    requires forall v :: snap(v) == v
    ensures var t := TrackOf(snap, it, startX, totalWidth, pps);
      && (t.exit.to - it.xPercent) / 100.0 * it.width == -pps * t.exit.duration
      && t.entry.from.Some?
      && (t.entry.to - t.entry.from.value) / 100.0 * it.width == -pps * t.entry.duration
      && (t.entry.from.value - t.exit.to) / 100.0 * it.width == totalWidth
  {
    var t := TrackOf(snap, it, startX, totalWidth, pps);
    var w := it.width;
    var curX := CurX(it);
    var dL := DistanceToLoop(it, startX);
    assert t.exit.to == (curX - dL) / w * 100.0;
    assert t.entry.from.value == (curX - dL + totalWidth) / w * 100.0;
    PercentOfWidth(curX - dL, w);
    PercentOfWidth(curX - dL + totalWidth, w);
    assert it.xPercent / 100.0 * w == curX;
    assert pps * t.exit.duration == dL;
    assert pps * t.entry.duration == totalWidth - dL;
  }

  /** The label time is the moment the item's left edge, moving at `pps`,
      reaches the strip start. */
  lemma LabelAtStripStart(snap: real -> real, it: Item, startX: real, totalWidth: real, pps: real)
    requires it.width > 0.0 && pps > 0.0
    ensures TrackOf(snap, it, startX, totalWidth, pps).labelAt == DistanceToStart(it, startX) / pps
    ensures it.offsetLeft + CurX(it) - pps * TrackOf(snap, it, startX, totalWidth, pps).labelAt == startX
  {
  }

  /** Doubling the speed halves every start time, duration and label, and
      leaves every `xPercent` target where it was. */
  lemma DoubleSpeed(snap: real -> real, it: Item, startX: real, totalWidth: real, pps: real)
    requires it.width > 0.0 && pps > 0.0
    ensures var slow := TrackOf(snap, it, startX, totalWidth, pps);
      var fast := TrackOf(snap, it, startX, totalWidth, 2.0 * pps);
      && fast.exit == slow.exit.(duration := slow.exit.duration / 2.0)
      && fast.entry == slow.entry.(start := slow.entry.start / 2.0, duration := slow.entry.duration / 2.0)
      && fast.labelAt == slow.labelAt / 2.0
  {
  }
}
