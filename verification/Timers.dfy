/** What one timer of cocos/base/Scheduler.cpp does while nobody disturbs it, in exact arithmetic. */
module Timers {

  const UINT_MAX: nat := 0xFFFF_FFFF
  const REPEAT_FOREVER: nat := UINT_MAX - 1

  type Target = nat
  const NO_TARGET: Target := 0

  datatype Timer = Timer(
    target: Target,
    key: string,
    elapsed: real,          // -1 until the first update
    runForever: bool,
    useDelay: bool,
    timesExecuted: nat,     // a 32-bit counter
    repeat: nat,
    delay: real,
    interval: real,
    refs: nat)

  /** A new timer, owned by whoever created it. */
  function Setup(target: Target, key: string, seconds: real, repeat: nat, delay: real): Timer {
    Timer(target, key, -1.0, repeat == REPEAT_FOREVER, delay > 0.0, 0, repeat, delay, seconds, 1)
  }

  /** `_timesExecuted += 1` wraps around. */
  function Bump(n: nat): nat {
    (n + 1) % (UINT_MAX + 1)
  }

  predicate Exhausted(t: Timer) {
    !t.runForever && t.timesExecuted > t.repeat
  }

  /** The step the catch-up loop takes: a timer without interval takes all of the elapsed time. */
  function Stride(t: Timer): real {
    if t.interval > 0.0 then t.interval else t.elapsed
  }

  /** The timer after a callback that leaves `elapsed` on its clock. */
  function Fires(t: Timer, elapsed: real, useDelay: bool): Timer {
    t.(elapsed := elapsed, timesExecuted := Bump(t.timesExecuted), useDelay := useDelay)
  }

  /** After `fired` callbacks: the timer, and whether it cancelled itself. */
  datatype Outcome = Outcome(timer: Timer, fired: nat, cancelled: bool)

  predicate CanCatchUp(t: Timer, stride: real) {
    t.elapsed >= 0.0 && (stride > 0.0 || stride == t.elapsed)
  }

  lemma Quotient(x: real, stride: real, q: real)
    requires stride > 0.0 && x == q * stride
    ensures x / stride == q
  {
  }

  lemma OneStrideLess(x: real, stride: real)
    requires stride > 0.0
    ensures (x - stride) / stride == x / stride - 1.0
  {
    assert x == x / stride * stride;
    Quotient(x - stride, stride, x / stride - 1.0);
  }

  /** The catch-up loop of `Timer::update`. */
  function CatchUp(t: Timer, stride: real): Outcome
    requires CanCatchUp(t, stride)
    decreases if stride > 0.0 then t.elapsed / stride else 0.0
  {
    if t.elapsed < stride then
      Outcome(t, 0, false)
    else
      var t' := t.(elapsed := t.elapsed - stride, timesExecuted := Bump(t.timesExecuted));
      if Exhausted(t') then Outcome(t', 1, true)
      else if t'.elapsed <= 0.0 then Outcome(t', 1, false)
      else
        OneStrideLess(t.elapsed, stride);
        var r := CatchUp(t', stride);
        r.(fired := r.fired + 1)
  }

  /** What is true of every timer: the clock has not started or shows no negative time, and a delay that
      is still to come is one. */
  predicate Tickable(t: Timer) {
    (t.elapsed == -1.0 || t.elapsed >= 0.0) && (t.useDelay ==> t.delay > 0.0)
  }

  /** `Timer::update` when the callbacks leave the timer and its target alone. */
  function Tick(t: Timer, dt: real): Outcome
    requires Tickable(t) && dt >= 0.0
  {
    if t.elapsed == -1.0 then
      Outcome(t.(elapsed := 0.0, timesExecuted := 0), 0, false)
    else
      var t1 := t.(elapsed := t.elapsed + dt);
      if !t1.useDelay then CatchUp(t1, Stride(t1))
      else if t1.elapsed < t1.delay then Outcome(t1, 0, false)
      else
        var t2 := t1.(elapsed := t1.elapsed - t1.delay, timesExecuted := Bump(t1.timesExecuted), useDelay := false);
        if Exhausted(t2) then Outcome(t2, 1, true)
        else
          var r := CatchUp(t2, Stride(t2));
          r.(fired := r.fired + 1)
  }

  lemma {:induction false} CatchUpStaysTickable(t: Timer, stride: real)
    requires CanCatchUp(t, stride)
    ensures CatchUp(t, stride).timer.elapsed >= 0.0
    decreases if stride > 0.0 then t.elapsed / stride else 0.0
  {
    var t' := t.(elapsed := t.elapsed - stride, timesExecuted := Bump(t.timesExecuted));
    if t.elapsed >= stride && !Exhausted(t') && t'.elapsed > 0.0 {
      OneStrideLess(t.elapsed, stride);
      CatchUpStaysTickable(t', stride);
    }
  }

  /** Everything but the clock and the counter. */
  function Settings(t: Timer): Timer {
    t.(elapsed := 0.0, timesExecuted := 0)
  }

  lemma {:induction false} CatchUpKeepsSettings(t: Timer, stride: real)
    requires CanCatchUp(t, stride)
    ensures Settings(CatchUp(t, stride).timer) == Settings(t)
    decreases if stride > 0.0 then t.elapsed / stride else 0.0
  {
    var t' := t.(elapsed := t.elapsed - stride, timesExecuted := Bump(t.timesExecuted));
    if t.elapsed >= stride && !Exhausted(t') && t'.elapsed > 0.0 {
      OneStrideLess(t.elapsed, stride);
      CatchUpKeepsSettings(t', stride);
    }
  }

  lemma TickStaysTickable(t: Timer, dt: real)
    requires Tickable(t) && dt >= 0.0
    ensures Tickable(Tick(t, dt).timer)
    ensures Settings(Tick(t, dt).timer).(useDelay := t.useDelay) == Settings(t)
    ensures Tick(t, dt).timer.useDelay ==> t.useDelay
  {
    if t.elapsed >= 0.0 {
      var t1 := t.(elapsed := t.elapsed + dt);
      if !t1.useDelay {
        CatchUpKeepsSettings(t1, Stride(t1));
        CatchUpStaysTickable(t1, Stride(t1));
      } else if t1.elapsed >= t1.delay {
        var t2 := t1.(elapsed := t1.elapsed - t1.delay, timesExecuted := Bump(t1.timesExecuted), useDelay := false);
        CatchUpKeepsSettings(t2, Stride(t2));
        CatchUpStaysTickable(t2, Stride(t2));
      }
    }
  }

  /** A timer updated once per frame, with the frames' lengths, until it cancels itself. */
  function Play(t: Timer, dts: seq<real>): Outcome
    requires Tickable(t) && forall i :: 0 <= i < |dts| ==> dts[i] >= 0.0
    decreases dts
  {
    if dts == [] then Outcome(t, 0, false)
    else
      var r := Tick(t, dts[0]);
      TickStaysTickable(t, dts[0]);
      if r.cancelled then r
      else
        var rest := Play(r.timer, dts[1..]);
        rest.(fired := r.fired + rest.fired)
  }

  function Sum(dts: seq<real>): real {
    if dts == [] then 0.0 else dts[0] + Sum(dts[1..])
  }

  lemma WholeIsNat(x: real, interval: real)
    requires x >= 0.0 && interval > 0.0
    ensures (x / interval).Floor >= 0
  {
  }

  /** The number of whole intervals in a stretch of time. */
  function Whole(x: real, interval: real): nat
    requires x >= 0.0 && interval > 0.0
  {
    WholeIsNat(x, interval);
    (x / interval).Floor
  }

  /** How often the timer is due by time `total` after its first update. */
  function Due(interval: real, delay: real, total: real): nat
    requires interval > 0.0 && total >= 0.0
  {
    if delay <= 0.0 then Whole(total, interval)
    else if total < delay then 0
    else 1 + Whole(total - delay, interval)
  }

  /** "repeat + 1 times", except that the two largest values repeat forever: one is the documented
      sentinel, the other can never be exceeded by a 32-bit counter. */
  function Capped(repeat: nat, n: nat): nat {
    if repeat >= REPEAT_FOREVER || n <= repeat then n else repeat + 1
  }

  /** `n` strides of time. */
  function Span(n: nat, stride: real): real {
    if n == 0 then 0.0 else Span(n - 1, stride) + stride
  }

  lemma OneMore(a: real, stride: real)
    ensures (a + 1.0) * stride == a * stride + stride
  {
  }

  lemma {:induction false} SpanIsProduct(n: nat, stride: real)
    ensures Span(n, stride) == n as real * stride
  {
    if n > 0 {
      SpanIsProduct(n - 1, stride);
      OneMore((n - 1) as real, stride);
    }
  }

  lemma QuotientBetween(x: real, stride: real, lo: real, hi: real)
    requires stride > 0.0
    ensures lo * stride <= x < hi * stride <==> lo <= x / stride < hi
  {
  }

  lemma {:induction false} SpanAdds(m: nat, n: nat, stride: real)
    ensures Span(m + n, stride) == Span(m, stride) + Span(n, stride)
  {
    if n > 0 { SpanAdds(m, n - 1, stride); }
  }

  lemma {:induction false} SpanNonNegative(n: nat, stride: real)
    requires stride > 0.0
    ensures Span(n, stride) >= 0.0 && (n > 0 ==> Span(n, stride) >= stride)
  {
    if n > 0 { SpanNonNegative(n - 1, stride); }
  }

  lemma WholeIs(x: real, interval: real, n: nat)
    requires interval > 0.0 && Span(n, interval) <= x < Span(n + 1, interval)
    ensures x >= 0.0 && Whole(x, interval) == n
  {
    SpanNonNegative(n, interval);
    SpanIsProduct(n, interval);
    SpanIsProduct(n + 1, interval);
    QuotientBetween(x, interval, n as real, (n + 1) as real);
  }

  lemma WholeBounds(x: real, interval: real) returns (n: nat)
    requires interval > 0.0 && x >= 0.0
    ensures n == Whole(x, interval) && Span(n, interval) <= x < Span(n + 1, interval)
  {
    n := Whole(x, interval);
    SpanIsProduct(n, interval);
    SpanIsProduct(n + 1, interval);
    QuotientBetween(x, interval, n as real, (n + 1) as real);
  }

  /** The catch-up loop has at most `n` rounds to go before its last. */
  ghost predicate AtMost(elapsed: real, stride: real, n: nat) {
    if stride > 0.0 then elapsed < Span(n + 1, stride) else elapsed == stride
  }

  lemma SomeRounds(t: Timer, stride: real) returns (n: nat)
    requires CanCatchUp(t, stride)
    ensures AtMost(t.elapsed, stride, n)
  {
    if stride > 0.0 {
      n := WholeBounds(t.elapsed, stride);
    } else {
      n := 0;
    }
  }

  lemma OneRoundLess(elapsed: real, stride: real, n: nat)
    requires AtMost(elapsed, stride, n)
    ensures elapsed - stride > 0.0 ==> n > 0 && AtMost(elapsed - stride, stride, n - 1)
  {
    assert Span(n + 1, stride) == Span(n, stride) + stride;
  }

  lemma WholeMonotone(x: real, y: real, interval: real)
    requires interval > 0.0 && 0.0 <= x <= y
    ensures Whole(x, interval) <= Whole(y, interval)
  {
    assert x / interval <= y / interval;
  }

  /** The timer has fired `f` times and may fire again. */
  predicate Counting(t: Timer, f: nat) {
    && t.repeat <= UINT_MAX
    && (t.runForever <==> t.repeat == REPEAT_FOREVER)
    && t.timesExecuted == f % (UINT_MAX + 1)
    && (t.repeat < REPEAT_FOREVER ==> f <= t.repeat)
  }

  lemma BumpWraps(f: nat)
    ensures Bump(f % (UINT_MAX + 1)) == (f + 1) % (UINT_MAX + 1)
  {
    var q := f / (UINT_MAX + 1);
    assert f == q * (UINT_MAX + 1) + f % (UINT_MAX + 1);
  }

  lemma BumpCounts(t: Timer, f: nat)
    requires Counting(t, f)
    ensures Bump(t.timesExecuted) == (f + 1) % (UINT_MAX + 1)
    ensures Exhausted(t.(timesExecuted := Bump(t.timesExecuted))) <==> t.repeat < REPEAT_FOREVER && f == t.repeat
  {
    BumpWraps(f);
  }

  /** With `n` whole strides of time, the loop fires `n` times or up to the cap. */
  lemma {:induction false} CatchUpCounts(t: Timer, stride: real, f: nat, n: nat)
    requires stride > 0.0 && Counting(t, f)
    requires Span(n, stride) <= t.elapsed < Span(n + 1, stride)
    ensures t.elapsed >= 0.0
    ensures var r := CatchUp(t, stride);
      && f + r.fired == Capped(t.repeat, f + n)
      && (r.cancelled <==> Capped(t.repeat, f + n) < f + n || (t.repeat < REPEAT_FOREVER && f + n == t.repeat + 1))
      && (!r.cancelled ==> Counting(r.timer, f + n) && r.timer.elapsed == t.elapsed - Span(n, stride))
    decreases n
  {
    if n > 0 {
      SpanNonNegative(n, stride);
      SpanNonNegative(n - 1, stride);
      BumpCounts(t, f);
      var t' := t.(elapsed := t.elapsed - stride, timesExecuted := Bump(t.timesExecuted));
      if !Exhausted(t') {
        CatchUpCounts(t', stride, f + 1, n - 1);
      }
    }
  }

  /** `total` time after its first update, the timer has fired `f` times. */
  predicate Tracks(t: Timer, total: real, f: nat) {
    && Counting(t, f)
    && t.interval > 0.0
    && (if t.useDelay then f == 0 && 0.0 <= total == t.elapsed < t.delay
        else if t.delay > 0.0 then
          f >= 1 && 0.0 <= t.elapsed < t.interval && total - t.delay == Span(f - 1, t.interval) + t.elapsed
        else 0.0 <= t.elapsed < t.interval && total == Span(f, t.interval) + t.elapsed)
  }

  lemma {:induction false} CatchUpTracks(t: Timer, base: nat, f: nat, x: real)
    requires t.interval > 0.0 && Counting(t, f) && base <= f && t.elapsed >= 0.0
    requires x == Span(f - base, t.interval) + t.elapsed
    ensures x >= 0.0
    ensures var r, due := CatchUp(t, t.interval), base + Whole(x, t.interval);
      && due >= f
      && f + r.fired == Capped(t.repeat, due)
      && (r.cancelled <==> t.repeat < REPEAT_FOREVER && due > t.repeat)
      && (!r.cancelled ==> Counting(r.timer, due) && 0.0 <= r.timer.elapsed < t.interval
                           && x == Span(due - base, t.interval) + r.timer.elapsed)
  {
    var n := WholeBounds(t.elapsed, t.interval);
    CatchUpCounts(t, t.interval, f, n);
    SpanAdds(f - base, n, t.interval);
    SpanNonNegative(f - base + n, t.interval);
    WholeIs(x, t.interval, f - base + n);
  }

  /** What `Tick` owes the reader: it fires as often as is due, and goes on counting unless it has
      reached the cap. */
  predicate TickIsRight(t: Timer, f: nat, total: real, r: Outcome)
    requires t.interval > 0.0 && total >= 0.0
  {
    var due := Due(t.interval, t.delay, total);
    && f + r.fired == Capped(t.repeat, due)
    && (r.cancelled <==> t.repeat < REPEAT_FOREVER && due > t.repeat)
    && (!r.cancelled ==> Tracks(r.timer, total, due) && Settings(r.timer).(useDelay := t.useDelay) == Settings(t))
  }

  /** The delay is over, or there was none. */
  lemma TickAfterDelay(t: Timer, total: real, f: nat, dt: real)
    requires Tracks(t, total, f) && !t.useDelay && dt >= 0.0
    ensures total >= 0.0 && TickIsRight(t, f, total + dt, Tick(t, dt))
  {
    var t1 := t.(elapsed := t.elapsed + dt);
    var base := if t.delay > 0.0 then 1 else 0;
    var since := if t.delay > 0.0 then total - t.delay else total;
    SpanNonNegative(f - base, t.interval);
    CatchUpTracks(t1, base, f, since + dt);
    CatchUpKeepsSettings(t1, t1.interval);
    assert Tick(t, dt) == CatchUp(t1, t1.interval);
    assert Due(t.interval, t.delay, total + dt) == base + Whole(since + dt, t.interval) by {
      assert total + dt - t.delay == total - t.delay + dt;
    }
  }

  /** The delay ends in this frame, or not yet. */
  lemma TickInDelay(t: Timer, total: real, dt: real)
    requires Tracks(t, total, 0) && t.useDelay && dt >= 0.0
    ensures total >= 0.0 && TickIsRight(t, 0, total + dt, Tick(t, dt))
  {
    var t1 := t.(elapsed := t.elapsed + dt);
    if t1.elapsed >= t1.delay {
      BumpCounts(t1, 0);
      var t2 := t1.(elapsed := t1.elapsed - t1.delay, timesExecuted := Bump(t1.timesExecuted), useDelay := false);
      if !Exhausted(t2) {
        CatchUpTracks(t2, 1, 1, t2.elapsed);
        CatchUpKeepsSettings(t2, t2.interval);
        assert Due(t.interval, t.delay, total + dt) == 1 + Whole(t2.elapsed, t.interval);
      }
    }
  }

  lemma TickTracks(t: Timer, total: real, f: nat, dt: real)
    requires Tracks(t, total, f) && dt >= 0.0
    ensures total >= 0.0 && TickIsRight(t, f, total + dt, Tick(t, dt))
  {
    if t.useDelay { TickInDelay(t, total, dt); } else { TickAfterDelay(t, total, f, dt); }
  }

  lemma DueMonotone(interval: real, delay: real, x: real, y: real)
    requires interval > 0.0 && 0.0 <= x <= y
    ensures Due(interval, delay, x) <= Due(interval, delay, y)
  {
    if delay <= 0.0 {
      WholeMonotone(x, y, interval);
    } else if x >= delay {
      WholeMonotone(x - delay, y - delay, interval);
    }
  }

  lemma SumNonNegative(dts: seq<real>)
    requires forall i :: 0 <= i < |dts| ==> dts[i] >= 0.0
    ensures Sum(dts) >= 0.0
  {
  }

  lemma {:induction false} PlayTracks(t: Timer, total: real, f: nat, dts: seq<real>)
    requires Tracks(t, total, f) && forall i :: 0 <= i < |dts| ==> dts[i] >= 0.0
    requires f == Capped(t.repeat, Due(t.interval, t.delay, if total >= 0.0 then total else 0.0))
    ensures total + Sum(dts) >= 0.0
    ensures f + Play(t, dts).fired == Capped(t.repeat, Due(t.interval, t.delay, total + Sum(dts)))
    decreases dts
  {
    SumNonNegative(dts);
    if dts == [] {
      assert total + Sum(dts) == total;
    } else {
      TickTracks(t, total, f, dts[0]);
      var r := Tick(t, dts[0]);
      TickStaysTickable(t, dts[0]);
      SumNonNegative(dts[1..]);
      assert total + Sum(dts) == total + dts[0] + Sum(dts[1..]);
      DueMonotone(t.interval, t.delay, total + dts[0], total + Sum(dts));
      if !r.cancelled {
        PlayTracks(r.timer, total + dts[0], f + r.fired, dts[1..]);
      }
    }
  }

  /** Frame-rate independence: how often a timer with an interval has fired depends only on the time
      since its first update, however that time is cut into frames. */
  lemma FrameRateIndependence(target: Target, key: string, interval: real, repeat: nat, delay: real,
                              first: real, dts: seq<real>)
    requires interval > 0.0 && repeat <= UINT_MAX && first >= 0.0
    requires forall i :: 0 <= i < |dts| ==> dts[i] >= 0.0
    ensures Sum(dts) >= 0.0
    ensures Play(Setup(target, key, interval, repeat, delay), [first] + dts).fired
            == Capped(repeat, Due(interval, delay, Sum(dts)))
  {
    var t := Setup(target, key, interval, repeat, delay);
    var primed := Tick(t, first).timer;
    assert ([first] + dts)[1..] == dts;
    if delay <= 0.0 { WholeIs(0.0, interval, 0); }
    PlayTracks(primed, 0.0, 0, dts);
    assert 0.0 + Sum(dts) == Sum(dts);
  }

  // ---------------------------------------------------------------- timers without interval

  /** The frames left from the one in which `delay` is reached, `total` having passed. */
  function FramesFrom(dts: seq<real>, total: real, delay: real): nat
    decreases dts
  {
    if dts == [] then 0
    else if total + dts[0] >= delay then |dts|
    else FramesFrom(dts[1..], total + dts[0], delay)
  }

  lemma {:induction false} EveryFrame(t: Timer, f: nat, dts: seq<real>)
    requires t.interval <= 0.0 && !t.useDelay && t.elapsed == 0.0 && Counting(t, f)
    requires forall i :: 0 <= i < |dts| ==> dts[i] >= 0.0
    ensures f + Play(t, dts).fired == Capped(t.repeat, f + |dts|)
    decreases dts
  {
    if dts != [] {
      BumpCounts(t, f);
      var r := Tick(t, dts[0]);
      assert r == CatchUp(t.(elapsed := dts[0]), dts[0]) && r.fired == 1;
      if !r.cancelled { EveryFrame(r.timer, f + 1, dts[1..]); }
    }
  }

  lemma {:induction false} EveryFrameAfter(t: Timer, dts: seq<real>)
    requires t.interval <= 0.0 && t.useDelay && 0.0 <= t.elapsed < t.delay && Counting(t, 0)
    requires forall i :: 0 <= i < |dts| ==> dts[i] >= 0.0
    ensures var n := FramesFrom(dts, t.elapsed, t.delay);
      Play(t, dts).fired == Capped(t.repeat, if n == 0 then 0 else n + 1)
    decreases dts
  {
    if dts != [] {
      var r := Tick(t, dts[0]);
      if t.elapsed + dts[0] < t.delay {
        EveryFrameAfter(r.timer, dts[1..]);
      } else {
        var t2 := Fires(t, t.elapsed + dts[0] - t.delay, false);
        BumpCounts(t.(elapsed := t.elapsed + dts[0]), 0);
        if !Exhausted(t2) {
          BumpCounts(t2, 1);
          if !r.cancelled { EveryFrame(r.timer, 2, dts[1..]); }
        }
      }
    }
  }

  /** A timer with interval zero fires once in every frame after its first update, up to its cap. With
      a delay it starts in the frame that reaches the delay, in which it fires twice. */
  lemma ZeroIntervalFiresEachFrame(target: Target, key: string, interval: real, repeat: nat, delay: real,
                                   first: real, dts: seq<real>)
    requires interval <= 0.0 && repeat <= UINT_MAX && first >= 0.0
    requires forall i :: 0 <= i < |dts| ==> dts[i] >= 0.0
    ensures var n := FramesFrom(dts, 0.0, delay);
      Play(Setup(target, key, interval, repeat, delay), [first] + dts).fired
      == Capped(repeat, if delay > 0.0 && n > 0 then n + 1 else if delay > 0.0 then 0 else |dts|)
  {
    var t := Setup(target, key, interval, repeat, delay);
    var primed := Tick(t, first).timer;
    assert ([first] + dts)[1..] == dts;
    if delay > 0.0 { EveryFrameAfter(primed, dts); } else { EveryFrame(primed, 0, dts); }
  }
}
