/** Snapping of computed percentage offsets. The loop builder passes every
    offset it computes through a snapping function to avoid sub-pixel jitter;
    the function is either supplied by the caller or a rounding grid. */
module Snapping {

  /** The `snap` field of the loop configuration: a custom function, a grid
      increment, or anything else (absent or boolean), which means a grid of 1. */
  datatype SnapConfig = SnapWith(f: real -> real) | SnapGrid(increment: real) | SnapDefault

  /** The grid increments the model covers: positive ones. A zero grid
      divides by zero; negative grids are not modelled. */
  predicate ValidSnap(cfg: SnapConfig) {
    cfg.SnapGrid? ==> cfg.increment > 0.0
  }

  /** Math.round: the nearest integer, halves rounded up. */
  function Round(v: real): (n: int)
    ensures n as real - 0.5 <= v < n as real + 0.5
  {
    (v + 0.5).Floor
  }

  /** Rounding to the nearest multiple of `increment`, as a grid snap does. */
  function GridSnap(increment: real, v: real): (r: real)
    requires increment > 0.0
    ensures (r / increment).Floor as real == r / increment
    ensures r - increment / 2.0 <= v < r + increment / 2.0
  {
    var k := Round(v / increment);
    NearestMultiple(increment, v, k);
    MultipleDivides(increment, k);
    k as real * increment
  }

  lemma MultipleDivides(increment: real, k: int)
    requires increment > 0.0
    ensures (k as real * increment) / increment == k as real
  {
  }

  lemma ScaleLe(a: real, b: real, c: real)
    requires a <= b && c > 0.0
    ensures a * c <= b * c
  {
  }

  lemma ScaleLt(a: real, b: real, c: real)
    requires a < b && c > 0.0
    ensures a * c < b * c
  {
  }

  lemma NearestMultiple(increment: real, v: real, k: int)
    requires increment > 0.0
    requires k as real - 0.5 <= v / increment < k as real + 0.5
    ensures k as real * increment - increment / 2.0 <= v < k as real * increment + increment / 2.0
  {
    var q := v / increment;
    assert v == q * increment;
    ScaleLe(k as real - 0.5, q, increment);
    ScaleLt(q, k as real + 0.5, increment);
  }

  /** The snapping function a configuration selects. */
  function SnapFunction(cfg: SnapConfig): (snap: real -> real)
    requires ValidSnap(cfg)
    ensures cfg.SnapWith? ==> snap == cfg.f
    ensures cfg.SnapGrid? ==> forall v :: snap(v) == GridSnap(cfg.increment, v)
    ensures cfg.SnapDefault? ==> forall v :: snap(v) == GridSnap(1.0, v)
  {
    match cfg
    case SnapWith(f) => f
    case SnapGrid(increment) => v => GridSnap(increment, v)
    case SnapDefault => v => GridSnap(1.0, v)
  }

  ghost predicate Idempotent(snap: real -> real) {
    forall v :: snap(snap(v)) == snap(v)
  }

  /** Snapping an already snapped value leaves it where it is. */
  lemma GridSnapIdempotent(increment: real, v: real)
    requires increment > 0.0
    ensures GridSnap(increment, GridSnap(increment, v)) == GridSnap(increment, v)
  {
    var k := Round(v / increment);
    var r := k as real * increment;
    assert GridSnap(increment, v) == r;
    MultipleDivides(increment, k);
    assert Round(r / increment) == k;
  }

  /** Every snapping function a configuration can select without a custom
      function is idempotent. */
  lemma BuiltInSnapIdempotent(cfg: SnapConfig)
    requires ValidSnap(cfg) && !cfg.SnapWith?
    ensures Idempotent(SnapFunction(cfg))
  {
    var snap := SnapFunction(cfg);
    var inc := if cfg.SnapGrid? then cfg.increment else 1.0;
    forall v ensures snap(snap(v)) == snap(v) {
      GridSnapIdempotent(inc, v);
    }
  }
}
