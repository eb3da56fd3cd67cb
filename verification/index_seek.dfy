/** Index navigation on a built loop: a wrapped current index, seeks to an
    index that take the shorter way round the loop, and `next` / `previous`
    as seeks to the neighbouring index. The timeline's clock is a parameter
    (`now`), and its duration is carried by the navigator. */
module IndexSeek {

  function Abs(x: int): nat {
    if x < 0 then -x else x
  }

  /** Division truncated toward zero: the quotient implied by JavaScript's
      `%`, whose remainder keeps the sign of the dividend. */
  function TruncDiv(a: int, b: int): int
    requires b > 0
  {
    if a >= 0 then a / b else -((-a) / b)
  }

  /** JavaScript's `%` on integers: the remainder left by truncated
      division, which takes the sign of the dividend. */
  function JsRem(a: int, b: int): (r: int)
    requires b > 0
    ensures a == TruncDiv(a, b) * b + r
    ensures a >= 0 ==> 0 <= r < b
    ensures a < 0 ==> -b < r <= 0
  {
    if a >= 0 then a % b else -((-a) % b)
  }

  lemma MulAtLeast(k: int, m: int)
    requires k >= 1 && m > 0
    ensures k * m >= m
  {
  }

  /** A decomposition `x == q * m + r` with `0 <= r < m` is the Euclidean one. */
  lemma ModUnique(x: int, q: int, r: int, m: int)
    requires m > 0 && 0 <= r < m && x == q * m + r
    ensures x % m == r && x / m == q
  {
    var d := x / m;
    assert x == d * m + x % m;
    assert (q - d) * m == x % m - r;
    if q > d {
      MulAtLeast(q - d, m);
    } else if q < d {
      MulAtLeast(d - q, m);
    }
  }

  /** gsap.utils.wrap(min, max, value), computed as
      `((range + (value - min) % range) % range) + min` with JavaScript's
      remainder: the Euclidean residue of `value - min`, shifted to `min`. */
  function Wrap(lo: int, hi: int, v: int): (r: int)
    requires lo < hi
    ensures lo <= r < hi
    ensures r == lo + (v - lo) % (hi - lo)
  {
    var range := hi - lo;
    var inner := JsRem(v - lo, range);
    var outer := JsRem(range + inner, range);
    WrapStep(v - lo, range);
    outer + lo
  }

  lemma WrapStep(x: int, range: int)
    requires range > 0
    ensures JsRem(range + JsRem(x, range), range) == x % range
  {
    var inner := JsRem(x, range);
    if x >= 0 {
      ModUnique(range + inner, 1, inner, range);
    } else {
      var s := (-x) % range;
      var q := (-x) / range;
      assert -x == q * range + s;
      if s == 0 {
        ModUnique(range, 1, 0, range);
        ModUnique(x, -q, 0, range);
      } else {
        ModUnique(range - s, 0, range - s, range);
        ModUnique(x, -q - 1, range - s, range);
      }
    }
  }

  /** Adding whole loop lengths does not change the residue. */
  lemma ModShift(x: int, k: int, m: int)
    requires m > 0
    ensures (x + k * m) % m == x % m
  {
    assert x == (x / m) * m + x % m;
    ModUnique(x + k * m, x / m + k, x % m, m);
  }

  lemma ModAddMod(a: int, b: int, m: int)
    requires m > 0
    ensures (a % m + b) % m == (a + b) % m
  {
    assert a == (a / m) * m + a % m;
    ModShift(a % m + b, a / m, m);
    assert a % m + b + (a / m) * m == a + b;
  }

  /** The navigation state: the loop's seek times, its duration and the
      current index. */
  datatype Navigator = Navigator(times: seq<real>, duration: real, cur: int)

  predicate Valid(n: Navigator) {
    |n.times| > 0 && 0 <= n.cur < |n.times|
  }

  /** A fresh navigator starts at index 0. */
  function Start(times: seq<real>, duration: real): (n: Navigator)
    requires |times| > 0
    ensures Valid(n) && n.cur == 0
    ensures n.times == times && n.duration == duration
  {
    Navigator(times, duration, 0)
  }

  /** The requested index, moved by one loop length when it is more than half
      the loop away from the current index. */
  function ShortestIndex(index: int, cur: int, length: int): (k: int)
    requires length > 0
    ensures k % length == index % length
    ensures 2 * Abs(index - cur) <= length ==> k == index
    ensures 2 * Abs(index - cur) <= 3 * length ==> 2 * Abs(k - cur) <= length
  {
    ModShift(index, -1, length);
    ModShift(index, 1, length);
    if 2 * Abs(index - cur) > length then
      if index > cur then index - length else index + length
    else index
  }

  /** The tween a seek starts: the timeline time to move the playhead to,
      and whether a time-wrapping modifier is installed for it. */
  datatype Seek = Seek(target: real, wrapsTime: bool)

  /** Seeks to `index`: takes the shorter way round, wraps the index into
      range, and moves the target time by one duration when the direction of
      time disagrees with the direction of the index. */
  function ToIndex(n: Navigator, index: int, now: real): (r: (Navigator, Seek))
    requires Valid(n)
    ensures Valid(r.0) && r.0.times == n.times && r.0.duration == n.duration
    ensures r.0.cur == index % |n.times|
    ensures var forward := ShortestIndex(index, n.cur, |n.times|) > n.cur;
      var time := n.times[r.0.cur];
      && (r.1.wrapsTime <==> (time > now) != forward)
      && (!r.1.wrapsTime ==> r.1.target == time)
      && (r.1.wrapsTime && forward ==> r.1.target == time + n.duration)
      && (r.1.wrapsTime && !forward ==> r.1.target == time - n.duration)
  {
    var length := |n.times|;
    var k := ShortestIndex(index, n.cur, length);
    var newIndex := Wrap(0, length, k);
    var time := n.times[newIndex];
    var forward := k > n.cur;
    var crossing := (time > now) != forward;
    var target := if crossing then time + n.duration * (if forward then 1.0 else -1.0) else time;
    (n.(cur := newIndex), Seek(target, crossing))
  }

  /** When the clock lies within one cycle and every seek time does too, a
      seek always moves the playhead in the direction of travel, and never by
      more than one cycle. */
  lemma SeekDirection(n: Navigator, index: int, now: real)
    requires Valid(n)
    requires 0.0 <= now < n.duration
    requires forall i :: 0 <= i < |n.times| ==> 0.0 <= n.times[i] <= n.duration
    ensures var forward := ShortestIndex(index, n.cur, |n.times|) > n.cur;
      var target := ToIndex(n, index, now).1.target;
      && (forward ==> now < target)
      && (!forward ==> target <= now)
      && -n.duration <= target - now <= n.duration
  {
  }

  function Next(n: Navigator, now: real): (r: (Navigator, Seek))
    requires Valid(n)
    ensures Valid(r.0) && r.0.times == n.times && r.0.duration == n.duration
    ensures r.0.cur == (n.cur + 1) % |n.times|
  {
    ToIndex(n, n.cur + 1, now)
  }

  function Previous(n: Navigator, now: real): (r: (Navigator, Seek))
    requires Valid(n)
    ensures Valid(r.0) && r.0.times == n.times && r.0.duration == n.duration
    ensures r.0.cur == (n.cur + |n.times| - 1) % |n.times|
  {
    ModShift(n.cur - 1, 1, |n.times|);
    ToIndex(n, n.cur - 1, now)
  }

  function Current(n: Navigator): (c: int)
    requires Valid(n)
    ensures 0 <= c < |n.times|
  {
    n.cur
  }

  /** `previous` undoes `next`. */
  lemma PreviousUndoesNext(n: Navigator, now1: real, now2: real)
    requires Valid(n)
    ensures Previous(Next(n, now1).0, now2).0.cur == n.cur
  {
    var len, c := |n.times|, n.cur;
    var m := Next(n, now1).0;
    if c + 1 < len {
      ModUnique(c + 1, 0, c + 1, len);
      assert m.cur == c + 1;
      ModUnique(c + len, 1, c, len);
    } else {
      ModUnique(c + 1, 1, 0, len);
      assert m.cur == 0;
      ModUnique(len - 1, 0, c, len);
    }
  }

  /** `next` undoes `previous`. */
  lemma NextUndoesPrevious(n: Navigator, now1: real, now2: real)
    requires Valid(n)
    ensures Next(Previous(n, now1).0, now2).0.cur == n.cur
  {
    var len, c := |n.times|, n.cur;
    var m := Previous(n, now1).0;
    if c == 0 {
      ModUnique(len - 1, 0, len - 1, len);
      assert m.cur == len - 1;
      ModUnique(len, 1, 0, len);
    } else {
      ModUnique(c + len - 1, 1, c - 1, len);
      assert m.cur == c - 1;
      ModUnique(c, 0, c, len);
    }
  }

  /** `k` steps of `next`, at the given clock readings. */
  function Advance(n: Navigator, nows: seq<real>): (m: Navigator)
    requires Valid(n)
    ensures Valid(m) && m.times == n.times && m.duration == n.duration
    decreases |nows|
  {
    if |nows| == 0 then n else Advance(Next(n, nows[0]).0, nows[1..])
  }

  /** Stepping `next` k times lands on the current index plus k, wrapped. */
  lemma {:induction false} AdvanceWraps(n: Navigator, nows: seq<real>)
    requires Valid(n)
    ensures Advance(n, nows).cur == (n.cur + |nows|) % |n.times|
    decreases |nows|
  {
    if |nows| > 0 {
      var m := Next(n, nows[0]).0;
      AdvanceWraps(m, nows[1..]);
      assert Advance(n, nows) == Advance(m, nows[1..]);
      var len := |n.times|;
      assert m.cur == (n.cur + 1) % len;
      ModAddMod(n.cur + 1, |nows| - 1, len);
    }
  }
}
