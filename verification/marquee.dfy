/** The marquee component: builds the loop once its items are rendered and
    pairs it with an index navigator and the scroll-reactive rate rule. */
module Marquee {
  import opened Options
  import Snapping
  import opened LoopGeometry
  import LoopBuilder
  import IndexSeek
  import Velocity

  /** A mounted marquee: its loop, its index navigator and its direction. */
  datatype Mounted = Mounted(loop: LoopBuilder.Loop, nav: IndexSeek.Navigator, reverse: bool)

  /** The configuration the component passes: default speed and snap, and
      30 pixels of trailing padding. */
  const ComponentConfig: LoopBuilder.LoopConfig := LoopBuilder.LoopConfig(None, Some(30.0), Snapping.SnapDefault)

  /** The first mount. `items` stands for the component's array of rendered
      item elements, which the mount guard tests: when it is empty nothing is
      built; otherwise the loop is built over exactly those elements at 100
      pixels per second with 30 pixels of padding, and the navigator starts
      at index 0 over the loop's seek times. */
  method Mount(items: seq<Item>, reverse: bool) returns (m: Option<Mounted>)
    requires PositiveWidths(items)
    ensures m.None? <==> |items| == 0
    ensures m.Some? ==>
      var loop := m.value.loop;
      && LoopBuilder.Scheduled(Snapping.SnapFunction(Snapping.SnapDefault), loop)
      && |loop.items| == |items|
      && loop.items == CaptureAll(Snapping.SnapFunction(Snapping.SnapDefault), items)
      && loop.startX == items[0].offsetLeft
      && loop.pps == 100.0
      && loop.totalWidth == TotalWidth(loop.items, 30.0)
      && IndexSeek.Valid(m.value.nav) && m.value.nav.cur == 0
      && m.value.nav.times == loop.times
      && m.value.nav.duration == LoopBuilder.TimelineDuration(loop.tracks)
      && m.value.reverse == reverse
  {
    if |items| == 0 {
      return None;
    }
    var loop := LoopBuilder.HorizontalLoop(items, ComponentConfig);
    var nav := IndexSeek.Start(loop.times, LoopBuilder.TimelineDuration(loop.tracks));
    m := Some(Mounted(loop, nav, reverse));
  }

  /** An untransformed, unscaled item wraps after travelling from its rest
      position past its own width. */
  lemma PlainItemDistance(it: Item, startX: real)
    requires it.xPercent == 0.0 && it.scaleX == 1.0
    ensures DistanceToLoop(it, startX) == it.offsetLeft - startX + it.width
  {
    assert CurX(it) == 0.0;
  }

  lemma PlainLastItemWidth(items: seq<Item>, paddingRight: real)
    requires |items| > 0
    requires items[|items| - 1].xPercent == 0.0 && items[|items| - 1].scaleX == 1.0
    ensures TotalWidth(items, paddingRight)
         == items[|items| - 1].offsetLeft - items[0].offsetLeft + items[|items| - 1].offsetWidth + paddingRight
  {
    assert CurX(items[|items| - 1]) == 0.0;
  }

  /** Five abutting items 200 pixels wide, as laid out before any transform. */
  predicate FiveItems(items: seq<Item>) {
    items == [Item(0.0, 200.0, 200.0, 1.0, 0.0, 0.0), Item(200.0, 200.0, 200.0, 1.0, 0.0, 0.0),
              Item(400.0, 200.0, 200.0, 1.0, 0.0, 0.0), Item(600.0, 200.0, 200.0, 1.0, 0.0, 0.0),
              Item(800.0, 200.0, 200.0, 1.0, 0.0, 0.0)]
  }

  /** With the default snap the capture leaves untransformed items unchanged. */
  lemma FiveItemsCaptured(items: seq<Item>, snap: real -> real)
    requires FiveItems(items)
    requires snap == Snapping.SnapFunction(Snapping.SnapDefault)
    ensures CaptureAll(snap, items) == items
  {
    var captured := CaptureAll(snap, items);
    assert Snapping.Round(0.0) == 0;
    assert snap(0.0) == Snapping.GridSnap(1.0, 0.0) == 0.0;
    forall i | 0 <= i < 5
      ensures captured[i] == items[i]
    {
      assert CapturedXPercent(snap, items[i]) == snap(0.0);
    }
  }

  /** The five items with 30 pixels of padding make a strip of 1030 pixels. */
  lemma FiveItemWidth(items: seq<Item>)
    requires FiveItems(items)
    ensures TotalWidth(items, 30.0) == 1030.0
  {
    PlainLastItemWidth(items, 30.0);
    var first, last := items[0], items[4];
    assert first.offsetLeft == 0.0;
    assert last.offsetLeft == 800.0 && last.offsetWidth == 200.0;
  }

  /** In that strip the first item takes 2 seconds to leave at the default
      speed. */
  lemma FiveItemFirstExit(items: seq<Item>, snap: real -> real)
    requires FiveItems(items)
    ensures TrackOf(snap, items[0], 0.0, 1030.0, 100.0).exit.duration == 2.0
  {
    PlainItemDistance(items[0], 0.0);
    assert items[0].offsetLeft == 0.0;
  }

  /** An upward scroll on a forward marquee kicks the rate to -6.25 and
      settles it at -1 from 0.5 seconds on. */
  lemma ScrollUpScenario()
    ensures Velocity.OnChangeY(false, -10.0)
         == Velocity.Push(Velocity.RateTween(0.0, 0.2, -6.25), Velocity.RateTween(0.5, 1.0, -1.0))
  {
  }
}
