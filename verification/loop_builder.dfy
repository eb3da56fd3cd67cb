/** Building the marquee loop: capture every item's offset, measure the strip,
    and schedule each item's pair of tweens on one shared timeline, together
    with the per-item seek times used for index navigation. */
module LoopBuilder {
  import opened Options
  import Snapping
  import opened LoopGeometry

  /** The loop configuration fields that shape the schedule. `speed`
      multiplies the base rate of 100 pixels per second. */
  datatype LoopConfig = LoopConfig(speed: Option<real>, paddingRight: Option<real>, snap: Snapping.SnapConfig)

  predicate ValidConfig(cfg: LoopConfig) {
    (cfg.speed.Some? ==> cfg.speed.value > 0.0) && Snapping.ValidSnap(cfg.snap)
  }

  function PixelsPerSecond(cfg: LoopConfig): (pps: real)
    requires ValidConfig(cfg)
    ensures pps > 0.0
    ensures cfg.speed.None? ==> pps == 100.0
    ensures cfg.speed.Some? ==> pps == 100.0 * cfg.speed.value
  {
    cfg.speed.GetOr(1.0) * 100.0
  }

  /** A built loop: the captured items, the strip start and width, the
      playback rate, one track per item and one seek time per item. */
  datatype Loop = Loop(
    items: seq<Item>,
    startX: real,
    totalWidth: real,
    pps: real,
    tracks: seq<Track>,
    times: seq<real>)

  /** The timeline's duration: the latest end of any of its tweens (an empty
      timeline lasts 0). */
  function TimelineDuration(tracks: seq<Track>): (d: real)
    ensures d >= 0.0
    ensures forall i :: 0 <= i < |tracks| ==> End(tracks[i].exit) <= d && End(tracks[i].entry) <= d
    ensures d == 0.0 || exists i :: 0 <= i < |tracks| && (d == End(tracks[i].exit) || d == End(tracks[i].entry))
  {
    if |tracks| == 0 then 0.0
    else
      var rest := TimelineDuration(tracks[..|tracks| - 1]);
      var t := tracks[|tracks| - 1];
      var m := if End(t.exit) <= End(t.entry) then End(t.entry) else End(t.exit);
      assert forall i :: 0 <= i < |tracks| - 1 ==> tracks[..|tracks| - 1][i] == tracks[i];
      if rest <= m then m else rest
  }

  /** `loop` holds one track and one seek time per captured item, each
      scheduled by `TrackOf` with the loop's own start, width and rate. */
  predicate Scheduled(snap: real -> real, loop: Loop) {
    && |loop.items| == |loop.tracks| == |loop.times| > 0
    && loop.pps > 0.0
    && PositiveWidths(loop.items)
    && (forall i :: 0 <= i < |loop.items| ==>
          loop.tracks[i] == TrackOf(snap, loop.items[i], loop.startX, loop.totalWidth, loop.pps))
    && (forall i :: 0 <= i < |loop.items| ==> loop.times[i] == loop.tracks[i].labelAt)
  }

  /** Schedules every captured item in order, recording each item's seek
      time beside its track. */
  method ScheduleItems(snap: real -> real, items: seq<Item>, startX: real, totalWidth: real, pps: real)
    returns (tracks: seq<Track>, times: seq<real>)
    requires PositiveWidths(items) && pps > 0.0
    ensures |tracks| == |times| == |items|
    ensures forall i :: 0 <= i < |items| ==> tracks[i] == TrackOf(snap, items[i], startX, totalWidth, pps)
    ensures forall i :: 0 <= i < |items| ==> times[i] == tracks[i].labelAt
  {
    tracks, times := [], [];
    var i := 0;
    while i < |items|
      invariant 0 <= i <= |items|
      invariant |tracks| == |times| == i
      invariant forall j :: 0 <= j < i ==> tracks[j] == TrackOf(snap, items[j], startX, totalWidth, pps)
      invariant forall j :: 0 <= j < i ==> times[j] == tracks[j].labelAt
    {
      var track := TrackOf(snap, items[i], startX, totalWidth, pps);
      tracks := tracks + [track];
      times := times + [DistanceToStart(items[i], startX) / pps];
      i := i + 1;
    }
  }

  /** Builds the loop from measured items, as the loop builder does: capture
      the offsets, measure the strip from the first item's left edge, then
      schedule every item in order. */
  method HorizontalLoop(items: seq<Item>, cfg: LoopConfig) returns (loop: Loop)
    requires |items| > 0 && PositiveWidths(items)
    requires ValidConfig(cfg)
    ensures |loop.items| == |loop.tracks| == |loop.times| == |items|
    ensures loop.startX == items[0].offsetLeft
    ensures loop.pps == PixelsPerSecond(cfg)
    ensures loop.items == CaptureAll(Snapping.SnapFunction(cfg.snap), items)
    ensures forall i :: 0 <= i < |items| ==> loop.items[i].x == 0.0
    ensures loop.totalWidth == TotalWidth(loop.items, cfg.paddingRight.GetOr(0.0))
    ensures Scheduled(Snapping.SnapFunction(cfg.snap), loop)
  {
    var snap := Snapping.SnapFunction(cfg.snap);
    var startX := items[0].offsetLeft;
    var pps := PixelsPerSecond(cfg);
    var captured := CaptureAll(snap, items);
    var totalWidth := TotalWidth(captured, cfg.paddingRight.GetOr(0.0));
    var tracks, times := ScheduleItems(snap, captured, startX, totalWidth, pps);
    loop := Loop(captured, startX, totalWidth, pps, tracks, times);
  }

  /** The geometry the schedule is meant for: every item reaches the strip
      start no earlier than time 0 and wraps no later than the strip's end. */
  predicate WithinCycle(loop: Loop) {
    && loop.totalWidth >= 0.0
    && forall i :: 0 <= i < |loop.items| ==>
         0.0 <= DistanceToStart(loop.items[i], loop.startX) <= DistanceToLoop(loop.items[i], loop.startX) <= loop.totalWidth
  }

  lemma DivMono(a: real, b: real, p: real)
    requires a <= b && p > 0.0
    ensures a / p <= b / p
  {
  }

  lemma TrackWithinCycle(snap: real -> real, it: Item, startX: real, totalWidth: real, pps: real)
    requires it.width > 0.0 && pps > 0.0
    requires 0.0 <= DistanceToStart(it, startX) <= DistanceToLoop(it, startX) <= totalWidth
    ensures var t := TrackOf(snap, it, startX, totalWidth, pps);
      && End(t.exit) <= totalWidth / pps
      && End(t.entry) == totalWidth / pps
      && 0.0 <= t.labelAt <= totalWidth / pps
  {
    CycleClosure(snap, it, startX, totalWidth, pps);
    DivMono(DistanceToLoop(it, startX), totalWidth, pps);
    DivMono(0.0, DistanceToStart(it, startX), pps);
    DivMono(DistanceToStart(it, startX), totalWidth, pps);
  }

  /** When the geometry is within one cycle, the timeline lasts exactly one
      cycle, `totalWidth / pps`, and every seek time falls inside it. */
  lemma CycleDuration(snap: real -> real, loop: Loop)
    requires Scheduled(snap, loop) && WithinCycle(loop)
    ensures TimelineDuration(loop.tracks) == loop.totalWidth / loop.pps
    ensures forall i :: 0 <= i < |loop.times| ==> 0.0 <= loop.times[i] <= TimelineDuration(loop.tracks)
  {
    var d := TimelineDuration(loop.tracks);
    var c := loop.totalWidth / loop.pps;
    DivMono(0.0, loop.totalWidth, loop.pps);
    forall i | 0 <= i < |loop.tracks|
      ensures End(loop.tracks[i].exit) <= c && End(loop.tracks[i].entry) == c
      ensures 0.0 <= loop.times[i] <= c
    {
      TrackWithinCycle(snap, loop.items[i], loop.startX, loop.totalWidth, loop.pps);
    }
    assert End(loop.tracks[0].entry) == c;
  }
}
