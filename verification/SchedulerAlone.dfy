/** What a target's timers do while the callbacks leave that target alone: calls about other targets
    change nothing that belongs to it, so its timers keep to the timer function of module Timers. */
module SchedulerAlone {
  import opened Wrappers
  import opened Timers
  import opened SchedulerWorld

  /** A call about another target. */
  predicate Elsewhere(op: Op, g: Target) {
    match op
    case Schedule(target, _, _, _, _, _) => target != g
    case Unschedule(_, target) => target != g
    case UnscheduleTarget(target) => target != g
    case UnscheduleAll => false
    case PauseTarget(target) => target != g
    case ResumeTarget(target) => target != g
  }

  predicate AllElsewhere(ops: seq<Op>, g: Target) {
    forall k :: 0 <= k < |ops| ==> Elsewhere(ops[k], g)
  }

  /** None of the callbacks numbered from `from` on and below `until` concerns target `g`. */
  ghost predicate LeftAlone(script: nat -> seq<Op>, from: nat, until: nat, g: Target) {
    forall n :: from <= n < until ==> AllElsewhere(script(n), g)
  }

  /** A number is not used for a second timer. */
  ghost predicate NoReturn(w: World, w': World) {
    && w.nextId <= w'.nextId
    && forall id :: id < w.nextId && id in w'.timers ==> id in w.timers && w'.timers[id].target == w.timers[id].target
  }

  /** Nothing that belongs to target `g` differs. */
  ghost predicate Alike(w: World, w': World, g: Target) {
    && NoReturn(w, w')
    && w'.current == w.current
    && (w.current == Some(g) ==> w'.salvaged == w.salvaged)
    && (g in w.entries <==> g in w'.entries)
    && (g in w.entries ==> w'.entries[g] == w.entries[g])
    && forall id :: id in w.timers && w.timers[id].target == g ==> id in w'.timers && w'.timers[id] == w.timers[id]
  }

  lemma ScheduledAlike(w: World, op: Op, g: Target)
    requires op.Schedule? && OpOk(op) && op.target != g && Table(w)
    ensures Alike(w, Scheduled(w, op), g)
  {
    if op.target in w.entries {
      var e := w.entries[op.target];
      assert Filed(op.target, w);
      forall id | id in e.timers ensures id in w.timers && w.timers[id].target != g {
        assert Belongs(id, op.target, w.timers);
      }
    }
    forall id | id in w.timers ensures id != w.nextId {
      assert Known(id, w);
    }
  }

  lemma DroppingAlike(w: World, h: Target, e': Entry, ids: set<TimerId>, g: Target)
    requires Table(w) && h in w.entries && h != g && ids <= Listed(w.entries[h])
    ensures Alike(w, Dropping(w, h, e', ids), g)
  {
    assert Filed(h, w);
    forall id | id in ids ensures id in w.timers && w.timers[id].target != g {
      assert Belongs(id, h, w.timers);
    }
  }

  lemma UnscheduledAlike(w: World, key: string, h: Target, g: Target)
    requires Table(w) && h != g
    ensures Alike(w, Unscheduled(w, key, h), g)
  {
    if Finds(w, key, h) {
      var e, i := w.entries[h], Found(w, key, h);
      assert e.timers[i] in e.timers;
      DroppingAlike(w, h, ErasedEntry(e, i), {e.timers[i]}, g);
    }
  }

  // What the running timer does to itself comes to the same, whatever has happened elsewhere.

  lemma AdvancedAlike(a: World, b: World, t: Timer, g: Target)
    requires Alike(a, b, g) && Running(a) && a.current == Some(g)
    ensures Running(b) && RunningId(b) == RunningId(a)
    ensures Alike(Advanced(a, t), Advanced(b, t), g)
  {
  }

  lemma {:induction false} KeyIndexAlike(list: seq<TimerId>, timers: map<TimerId, Timer>, timers': map<TimerId,
                                         Timer>, key: string)
    requires forall id :: id in list ==> id in timers && id in timers' && timers'[id].key == timers[id].key
    ensures KeyIndex(list, timers', key) == KeyIndex(list, timers, key)
  {
    if list != [] && timers[list[0]].key != key {
      KeyIndexAlike(list[1..], timers, timers', key);
    }
  }

  lemma ListedAlike(a: World, b: World, g: Target)
    requires Alike(a, b, g) && Table(a) && g in a.entries
    ensures forall id :: id in a.entries[g].timers ==>
              id in a.timers && a.timers[id].target == g && id in b.timers && b.timers[id] == a.timers[id]
  {
    assert Filed(g, a);
    forall id | id in a.entries[g].timers ensures id in a.timers && a.timers[id].target == g {
      assert Belongs(id, g, a.timers);
    }
  }

  lemma UnscheduledCongruent(a: World, b: World, key: string, g: Target)
    requires Alike(a, b, g) && Table(a) && Table(b)
    ensures Alike(Unscheduled(a, key, g), Unscheduled(b, key, g), g)
  {
    if g in a.entries {
      ListedAlike(a, b, g);
      KeyIndexAlike(a.entries[g].timers, a.timers, b.timers, key);
      assert Finds(a, key, g) <==> Finds(b, key, g);
    }
  }

  // ---------------------------------------------------------------- callbacks made

  /** How often each timer has made its callback. */
  function Fired(fired: map<TimerId, nat>, id: TimerId): nat {
    if id in fired then fired[id] else 0
  }

  ghost predicate MoreFired(fired: map<TimerId, nat>, fired': map<TimerId, nat>, id: TimerId, n: nat) {
    forall x: TimerId :: Fired(fired', x) == Fired(fired, x) + (if x == id then n else 0)
  }

  // ---------------------------------------------------------------- one update

  /** The world with the running timer as `t`, as far as it concerns target `g`. */
  function AsIf(w: World, t: Timer, g: Target): World
    requires Running(w)
  {
    if w.current == Some(g) then Advanced(w, t) else w
  }

  /** For target `g`, the running timer's update left it as `r` says, one that has fired often enough
      having cancelled itself through its key; an update for another target left `g` as it was. */
  ghost predicate EndsAs(w: World, w': World, r: Outcome, g: Target) {
    Running(w) &&
    var w1 := AsIf(w, r.timer, g);
    if r.cancelled && w.current == Some(g)
    then Table(w1) && Alike(Unscheduled(w1, r.timer.key, r.timer.target), w', g)
    else Alike(w1, w', g)
  }

  lemma AsIfAlike(a: World, b: World, t: Timer, g: Target)
    requires Alike(a, b, g) && Running(a) && Running(b) && Table(b)
    requires a.current == Some(g) ==> RunningId(b) == RunningId(a)
    requires RunningId(b) in b.timers && t.target == b.timers[RunningId(b)].target
    ensures Alike(AsIf(a, t, g), Advanced(b, t), g)
  {
    RunningExists(b);
  }

  /** After a callback that left `g` alone, the running timer takes the value `t` and, if that is over
      its cap, unschedules itself. */
  lemma EndsAfterCallback(w: World, p: Pass, w1: World, p1: Pass, t: Timer, n: nat, over: bool, g: Target)
    requires Good(w, p) && Good(w1, p1) && Alike(w, w1, g) && SameRun(w, w1)
    requires RunningId(w) in w.timers && SameOwner(w1.timers[RunningId(w)], t) && Tickable(t)
    ensures Table(Advanced(w1, t))
    ensures EndsAs(w, if over then Unscheduled(Advanced(w1, t), t.key, t.target) else Advanced(w1, t),
                   Outcome(t, n, over), g)
  {
    var id := RunningId(w);
    RunningExists(w);
    RunningExists(w1);
    AsIfAlike(w, w1, t, g);
    AdvancedKeeps(w1, p1, t);
    if w.current == Some(g) {
      AdvancedKeeps(w, p, t);
      UnscheduledCongruent(Advanced(w, t), Advanced(w1, t), t.key, g);
    } else {
      UnscheduledAlike(Advanced(w1, t), t.key, t.target, g);
    }
  }

  lemma LeftAloneSplits(script: nat -> seq<Op>, a: nat, b: nat, c: nat, g: Target)
    requires a <= b <= c && LeftAlone(script, a, c, g)
    ensures LeftAlone(script, a, b, g) && LeftAlone(script, b, c, g)
  {
  }

  lemma MoreFiredAdds(f: map<TimerId, nat>, f1: map<TimerId, nat>, f2: map<TimerId, nat>, id: TimerId, m: nat, n: nat)
    requires MoreFired(f, f1, id, m) && MoreFired(f1, f2, id, n)
    ensures MoreFired(f, f2, id, m + n)
  {
  }

  /** A callback leaves `elapsed` on the running timer's clock; whether it was the last. */
  ghost predicate FiredWith(w1: World, w2: World, elapsed: real, useDelay: bool, over: bool, g: Target) {
    Running(w1) && RunningId(w1) in w1.timers &&
    var t := Fires(w1.timers[RunningId(w1)], elapsed, useDelay);
    && EndsAs(w1, w2, Outcome(t, 1, Exhausted(t)), g)
    && (w1.current == Some(g) ==>
          && (over <==> Exhausted(t))
          && (!over ==> RunningId(w1) in w2.timers && w2.timers[RunningId(w1)] == t && w2.salvaged == w1.salvaged))
  }

  /** An update that has made the timer `t` goes on from there. */
  lemma EndsAsThen(w: World, p: Pass, w1: World, w2: World, t: Timer, r: Outcome, g: Target)
    requires Good(w, p) && SameRun(w, w1) && Alike(AsIf(w, t, g), w1, g) && EndsAs(w1, w2, r, g)
    requires w.current == Some(g) ==>
      RunningId(w) in w.timers && SameOwner(w.timers[RunningId(w)], r.timer) && Tickable(r.timer)
    ensures EndsAs(w, w2, r, g)
  {
    if w.current == Some(g) {
      RunningExists(w);
      AdvancedTwice(w, t, r.timer);
      AdvancedAlike(Advanced(w, t), w1, r.timer, g);
      AdvancedKeeps(w, p, r.timer);
      if r.cancelled {
        UnscheduledCongruent(Advanced(w, r.timer), Advanced(w1, r.timer), r.timer.key, g);
      }
    }
  }

  lemma AlikeSelf(w: World, g: Target)
    requires Running(w) && RunningId(w) in w.timers
    ensures Alike(AsIf(w, w.timers[RunningId(w)], g), w, g)
  {
    assert Advanced(w, w.timers[RunningId(w)]) == w;
  }

  // ---------------------------------------------------------------- the catch-up loop

  /** After `made` callbacks the loop has still to do what the rest of `CatchUp` says. */
  ghost predicate Underway(w: World, w1: World, t: Timer, stride: real, made: int, g: Target) {
    Running(w) && Running(w1) && RunningId(w1) in w1.timers &&
    var t1 := w1.timers[RunningId(w1)];
    && Alike(AsIf(w, t1, g), w1, g)
    && (w.current == Some(g) ==>
          && !w1.salvaged && Settings(t1) == Settings(t)
          && CanCatchUp(t, stride) && CanCatchUp(t1, stride)
          && var r, r1 := CatchUp(t, stride), CatchUp(t1, stride);
             r.timer == r1.timer && r.cancelled == r1.cancelled && r.fired == made + r1.fired)
  }

  /** The loop has ended as `CatchUp` says. */
  ghost predicate Caught(w: World, w1: World, t: Timer, stride: real, made: int, g: Target)
    requires CanCatchUp(t, stride)
  {
    var r := CatchUp(t, stride);
    EndsAs(w, w1, r, g) && (w.current == Some(g) ==> made == r.fired)
  }

  /** After a round that may be the last. */
  ghost predicate Loops(w: World, w1: World, t: Timer, stride: real, made: int, last: bool, g: Target)
    requires CanCatchUp(t, stride)
  {
    if last then Caught(w, w1, t, stride, made, g) else Underway(w, w1, t, stride, made, g)
  }

  lemma CatchUpBegins(w: World, stride: real, g: Target)
    requires Running(w) && RunningId(w) in w.timers && CanCatchUp(w.timers[RunningId(w)], stride)
    requires w.current == Some(g) ==> !w.salvaged
    ensures Loops(w, w, w.timers[RunningId(w)], stride, 0, false, g)
  {
    AlikeSelf(w, g);
  }

  /** A round of the loop: the timer fires, and it is the last round if it cancels itself or has no time left. */
  ghost predicate FiredOnce(w1: World, w2: World, stride: real, last: bool, g: Target) {
    Running(w1) && RunningId(w1) in w1.timers &&
    var t1 := w1.timers[RunningId(w1)];
    var t2 := Fires(t1, t1.elapsed - stride, t1.useDelay);
    && EndsAs(w1, w2, Outcome(t2, 1, Exhausted(t2)), g)
    && (w1.current == Some(g) && !w1.salvaged ==>
          && (last <==> Exhausted(t2) || t2.elapsed <= 0.0)
          && (!last ==> !w2.salvaged && RunningId(w1) in w2.timers && w2.timers[RunningId(w1)].elapsed == t2.elapsed))
  }

  lemma FiredWithStride(w1: World, w2: World, stride: real, over: bool, last: bool, g: Target)
    requires SameRun(w1, w2) && RunningId(w1) in w1.timers
    requires var t1 := w1.timers[RunningId(w1)]; FiredWith(w1, w2, t1.elapsed - stride, t1.useDelay, over, g)
    requires w2.timers[RunningId(w1)].elapsed == w1.timers[RunningId(w1)].elapsed - stride
    requires last <==> over || w2.timers[RunningId(w1)].elapsed <= 0.0 || w2.salvaged
    ensures FiredOnce(w1, w2, stride, last, g)
  {
  }

  /** After a round the loop has ended, or goes on. */
  lemma CatchUpGoesOn(w: World, p: Pass, w1: World, w2: World, t: Timer, stride: real, made: int, last: bool, g: Target)
    requires Good(w, p) && SameRun(w, w1) && SameRun(w1, w2) && CanCatchUp(t, stride)
    requires RunningId(w) in w.timers && t == w.timers[RunningId(w)]
    requires Loops(w, w1, t, stride, made, false, g)
    requires w1.timers[RunningId(w)].elapsed >= stride && FiredOnce(w1, w2, stride, last, g)
    ensures Loops(w, w2, t, stride, made + 1, last, g)
  {
    var t1 := w1.timers[RunningId(w)];
    var t2 := Fires(t1, t1.elapsed - stride, t1.useDelay);
    RunningExists(w);
    EndsAsThen(w, p, w1, w2, t1, Outcome(t2, 1, Exhausted(t2)), g);
  }

  lemma CatchUpEnds(w: World, w1: World, t: Timer, stride: real, made: int, g: Target)
    requires CanCatchUp(t, stride) && Loops(w, w1, t, stride, made, false, g)
    requires w1.timers[RunningId(w1)].elapsed < stride
    ensures Loops(w, w1, t, stride, made, true, g)
  {
  }

  /** The catch-up loop that began in the world `w`, after the callback numbered `from`, has come to the world
      `w1` with the callback numbered `now`; it goes on, or has ended. */
  ghost predicate CatchingUp(w: World, w1: World, stride: real, script: nat -> seq<Op>, from: nat, now: nat,
                             before: map<TimerId, nat>, after: map<TimerId, nat>, ended: bool, g: Target)
  {
    && Running(w) && RunningId(w) in w.timers && SameRun(w, w1) && CanCatchUp(w.timers[RunningId(w)], stride)
    && now >= from && MoreFired(before, after, RunningId(w), now - from)
    && (LeftAlone(script, from, now, g) && (w.current == Some(g) ==> !w.salvaged) ==>
          Loops(w, w1, w.timers[RunningId(w)], stride, now - from, ended, g))
  }

  lemma CatchingUpBegins(w: World, stride: real, script: nat -> seq<Op>, from: nat, fired: map<TimerId, nat>, g: Target)
    requires Running(w) && RunningId(w) in w.timers && CanCatchUp(w.timers[RunningId(w)], stride)
    ensures CatchingUp(w, w, stride, script, from, from, fired, fired, false, g)
  {
    if w.current == Some(g) ==> !w.salvaged {
      CatchUpBegins(w, stride, g);
    }
  }

  lemma CatchingUpGoesOn(w: World, p: Pass, w1: World, w2: World, stride: real, script: nat -> seq<Op>, from: nat,
                         mid: nat, before: map<TimerId, nat>, f1: map<TimerId, nat>, f2: map<TimerId, nat>, last: bool,
                         g: Target)
    requires Good(w, p) && CatchingUp(w, w1, stride, script, from, mid, before, f1, false, g)
    requires SameRun(w1, w2) && MoreFired(f1, f2, RunningId(w1), 1)
    requires RunningId(w1) in w1.timers && w1.timers[RunningId(w1)].elapsed >= stride
    requires LeftAlone(script, mid, mid + 1, g) ==> FiredOnce(w1, w2, stride, last, g)
    ensures CatchingUp(w, w2, stride, script, from, mid + 1, before, f2, last, g)
  {
    MoreFiredAdds(before, f1, f2, RunningId(w), mid - from, 1);
    if LeftAlone(script, from, mid + 1, g) && (w.current == Some(g) ==> !w.salvaged) {
      LeftAloneSplits(script, from, mid, mid + 1, g);
      CatchUpGoesOn(w, p, w1, w2, w.timers[RunningId(w)], stride, mid - from, last, g);
    }
  }

  lemma CatchingUpEnds(w: World, w1: World, stride: real, script: nat -> seq<Op>, from: nat, now: nat,
                       before: map<TimerId, nat>, after: map<TimerId, nat>, g: Target)
    requires CatchingUp(w, w1, stride, script, from, now, before, after, false, g)
    requires RunningId(w1) in w1.timers && w1.timers[RunningId(w1)].elapsed < stride
    ensures CatchingUp(w, w1, stride, script, from, now, before, after, true, g)
  {
    if LeftAlone(script, from, now, g) && (w.current == Some(g) ==> !w.salvaged) {
      CatchUpEnds(w, w1, w.timers[RunningId(w)], stride, now - from, g);
    }
  }

  // ---------------------------------------------------------------- a whole update

  /** The running timer has been updated as `Tick` says, having made `made` callbacks. */
  ghost predicate Updated(w: World, w1: World, dt: real, made: int, g: Target) {
    Running(w) && RunningId(w) in w.timers && Tickable(w.timers[RunningId(w)]) && dt >= 0.0 &&
    var r := Tick(w.timers[RunningId(w)], dt);
    EndsAs(w, w1, r, g) && (w.current == Some(g) ==> made == r.fired)
  }

  lemma FirstUpdate(w: World, dt: real, g: Target)
    requires Table(w) && Running(w) && RunningId(w) in w.timers && dt >= 0.0
    requires w.timers[RunningId(w)].elapsed == -1.0
    ensures var t := w.timers[RunningId(w)];
      Updated(w, Advanced(w, t.(elapsed := 0.0, timesExecuted := 0)), dt, 0, g)
  {
    var t := w.timers[RunningId(w)];
    RunningExists(w);
    AsIfAlike(w, w, t.(elapsed := 0.0, timesExecuted := 0), g);
  }

  /** The clock has been moved on, and the delay is not over yet. */
  lemma StillInDelay(w: World, dt: real, g: Target)
    requires Table(w) && Running(w) && RunningId(w) in w.timers && dt >= 0.0
    requires var t := w.timers[RunningId(w)]; t.elapsed >= 0.0 && t.useDelay && t.elapsed + dt < t.delay
    ensures var t := w.timers[RunningId(w)]; Updated(w, Advanced(w, t.(elapsed := t.elapsed + dt)), dt, 0, g)
  {
    var t := w.timers[RunningId(w)];
    RunningExists(w);
    AsIfAlike(w, w, t.(elapsed := t.elapsed + dt), g);
  }

  /** In the world `w1` the clock has been moved on and the delay, if there was one, has ended with its
      callback; the catch-up loop is still to come. */
  ghost predicate DelayDone(w: World, w1: World, dt: real, made: int, g: Target) {
    Running(w) && RunningId(w) in w.timers && RunningId(w) in w1.timers &&
    var t, t1 := w.timers[RunningId(w)], w1.timers[RunningId(w)];
    && Alike(AsIf(w, t1, g), w1, g)
    && (w.current == Some(g) ==>
          && w1.salvaged == w.salvaged && t.elapsed >= 0.0
          && if t.useDelay then t.elapsed + dt >= t.delay && made == 1 && !Exhausted(t1)
                                && t1 == Fires(t, t.elapsed + dt - t.delay, false)
             else made == 0 && t1 == t.(elapsed := t.elapsed + dt))
  }

  lemma NoDelay(w: World, dt: real, g: Target)
    requires Table(w) && Running(w) && RunningId(w) in w.timers
    requires w.timers[RunningId(w)].elapsed >= 0.0 && !w.timers[RunningId(w)].useDelay
    ensures var t := w.timers[RunningId(w)]; DelayDone(w, Advanced(w, t.(elapsed := t.elapsed + dt)), dt, 0, g)
  {
    var t := w.timers[RunningId(w)];
    RunningExists(w);
    AsIfAlike(w, w, t.(elapsed := t.elapsed + dt), g);
  }

  /** In the world `w1` the clock of the running timer has been moved on. */
  predicate ClockMoved(w: World, w1: World, dt: real) {
    Running(w) && RunningId(w) in w.timers && w.timers[RunningId(w)].elapsed >= 0.0
    && w1 == Advanced(w, w.timers[RunningId(w)].(elapsed := w.timers[RunningId(w)].elapsed + dt))
  }

  /** Its delay is over, with `rest` to spare. */
  predicate DelayPast(w1: World, rest: real) {
    Running(w1) && RunningId(w1) in w1.timers && w1.timers[RunningId(w1)].useDelay
    && rest == w1.timers[RunningId(w1)].elapsed - w1.timers[RunningId(w1)].delay >= 0.0
  }

  lemma DelayFiredEnds(w: World, p: Pass, w1: World, w2: World, dt: real, rest: real, over: bool, g: Target)
    requires Good(w, p) && SameRun(w, w2) && dt >= 0.0 && w.current == Some(g)
    requires ClockMoved(w, w1, dt) && DelayPast(w1, rest) && FiredWith(w1, w2, rest, false, over, g)
    ensures var t2 := Fires(w1.timers[RunningId(w1)], rest, false); EndsAs(w, w2, Outcome(t2, 1, Exhausted(t2)), g)
  {
    var t1 := w1.timers[RunningId(w1)];
    var t2 := Fires(t1, rest, false);
    RunningExists(w);
    AsIfAlike(w, w, t1, g);
    EndsAsThen(w, p, w1, w2, t1, Outcome(t2, 1, Exhausted(t2)), g);
  }

  lemma DelayOverFor(w: World, p: Pass, w1: World, w2: World, dt: real, rest: real, over: bool, g: Target)
    requires Good(w, p) && SameRun(w, w2) && dt >= 0.0 && w.current == Some(g)
    requires ClockMoved(w, w1, dt) && DelayPast(w1, rest) && FiredWith(w1, w2, rest, false, over, g)
    requires Tickable(w.timers[RunningId(w)])
    ensures if over then Updated(w, w2, dt, 1, g) else DelayDone(w, w2, dt, 1, g)
  {
    DelayFiredEnds(w, p, w1, w2, dt, rest, over, g);
  }

  lemma DelayOverElsewhere(w: World, w1: World, w2: World, dt: real, rest: real, over: bool, g: Target)
    requires SameRun(w, w2) && dt >= 0.0 && w.current != Some(g)
    requires ClockMoved(w, w1, dt) && DelayPast(w1, rest) && FiredWith(w1, w2, rest, false, over, g)
    requires Tickable(w.timers[RunningId(w)]) && w.timers[RunningId(w)].target != g
    ensures if over then Updated(w, w2, dt, 1, g) else DelayDone(w, w2, dt, 1, g)
  {
    assert Alike(w1, w2, g) && Alike(w, w2, g);
  }

  /** What the update has come to after the callback at the end of the delay. */
  ghost predicate DelayEnded(w: World, w2: World, dt: real, goOn: bool, g: Target) {
    if goOn then DelayDone(w, w2, dt, 1, g) else Updated(w, w2, dt, 1, g)
  }

  lemma DelayOver(w: World, p: Pass, w1: World, w2: World, dt: real, rest: real, over: bool, g: Target)
    requires Good(w, p) && SameRun(w, w2) && dt >= 0.0
    requires ClockMoved(w, w1, dt) && DelayPast(w1, rest) && FiredWith(w1, w2, rest, false, over, g)
    ensures DelayEnded(w, w2, dt, !over, g)
  {
    RunningExists(w);
    if w.current == Some(g) {
      DelayOverFor(w, p, w1, w2, dt, rest, over, g);
    } else {
      DelayOverElsewhere(w, w1, w2, dt, rest, over, g);
    }
  }

  /** The catch-up loop comes last, after the delay's callback if there was one. */
  lemma CaughtUp(w: World, p: Pass, w2: World, w3: World, dt: real, before: int, made: int, g: Target)
    requires Good(w, p) && SameRun(w, w2) && DelayDone(w, w2, dt, before, g) && dt >= 0.0
    requires Tickable(w.timers[RunningId(w)])
    requires var t2 := w2.timers[RunningId(w)];
      CanCatchUp(t2, Stride(t2)) && Caught(w2, w3, t2, Stride(t2), made, g)
    ensures Updated(w, w3, dt, before + made, g)
  {
    if w.current == Some(g) {
      var t, t2 := w.timers[RunningId(w)], w2.timers[RunningId(w)];
      var r := CatchUp(t2, Stride(t2));
      assert SameOwner(t, r.timer) && Tickable(r.timer) && Tick(t, dt) == r.(fired := before + r.fired) by {
        CatchUpKeepsSettings(t2, Stride(t2));
        CatchUpStaysTickable(t2, Stride(t2));
      }
      EndsAsThen(w, p, w2, w3, t2, r, g);
    }
  }

  // ---------------------------------------------------------------- a turn of the walk

  /** A turn is about to be taken in the walk over the current target. */
  predicate AtTurn(w: World) {
    && w.current.Some? && w.current.value in w.entries && !Running(w)
    && var e := w.entries[w.current.value];
       && 0 <= e.timerIndex < |e.timers| && e.timers[e.timerIndex] in w.timers
       && Tickable(w.timers[e.timers[e.timerIndex]])
  }

  function TurnId(w: World): TimerId
    requires AtTurn(w)
  {
    w.entries[w.current.value].timers[w.entries[w.current.value].timerIndex]
  }

  lemma TurnStands(w: World)
    requires Table(w) && w.current.Some? && !Running(w)
    requires 0 <= w.entries[w.current.value].timerIndex < |w.entries[w.current.value].timers|
    ensures AtTurn(w) && w.timers[TurnId(w)].target == w.current.value
  {
    var g := w.current.value;
    var id := w.entries[g].timers[w.entries[g].timerIndex];
    assert Filed(g, w) && id in w.entries[g].timers;
    assert Belongs(id, g, w.timers) && Known(id, w);
  }

  function IndexMoved(w: World): World
    requires w.current.Some? && w.current.value in w.entries
  {
    var e := w.entries[w.current.value];
    w.(entries := w.entries[w.current.value := e.(timerIndex := e.timerIndex + 1)])
  }

  /** The turn of a timer of target `g` has made it `t`, and it has left the list if it cancelled itself;
      the other timers stay as they are. */
  ghost predicate TurnLeaves(w: World, w1: World, t: Timer, cancelled: bool, g: Target)
    requires AtTurn(w) && w.current == Some(g)
  {
    var e, id := w.entries[g], TurnId(w);
    && NoReturn(w, w1)
    && w1.current == w.current && g in w1.entries
    && w1.entries[g].paused == e.paused
    && w1.entries[g].timers == (if cancelled then Without(e.timers, e.timerIndex) else e.timers)
    && w1.entries[g].timerIndex == (if cancelled then e.timerIndex else e.timerIndex + 1)
    && (w1.salvaged <==> w1.entries[g].timers == [])
    && (!cancelled ==> id in w1.timers && w1.timers[id] == t)
    && forall x :: x in e.timers && x != id ==> x in w.timers && x in w1.timers && w1.timers[x] == w.timers[x]
  }

  /** It is updated as `Tick` says. */
  ghost predicate TurnDone(w: World, w1: World, dt: real, made: int, g: Target)
    requires AtTurn(w) && w.current == Some(g) && dt >= 0.0
  {
    var r := Tick(w.timers[TurnId(w)], dt);
    made == r.fired && TurnLeaves(w, w1, r.timer, r.cancelled, g)
  }

  lemma KeyIndexOf(list: seq<TimerId>, timers: map<TimerId, Timer>, i: nat)
    requires i < |list| && Increasing(list) && forall id :: id in list ==> id in timers
    requires KeysDistinct(list, timers)
    ensures KeyIndex(list, timers, timers[list[i]].key) == i
  {
    var k := KeyIndex(list, timers, timers[list[i]].key);
    assert list[i] in list;
    if k < |list| {
      assert list[k] in list;
    }
  }

  /** A cancelled timer finds itself under its key. */
  lemma CancelErases(w: World, p: Pass, t: Timer, g: Target)
    requires Good(w, p) && Running(w) && w.current == Some(g) && !w.salvaged && RunningId(w) in w.timers
    requires SameOwner(w.timers[RunningId(w)], t) && Tickable(t)
    requires var e := w.entries[g];
      0 <= e.timerIndex < |e.timers| && e.timers[e.timerIndex] == RunningId(w)
    ensures Table(Advanced(w, t))
    ensures Unscheduled(Advanced(w, t), t.key, g) == Erased(Advanced(w, t), g, w.entries[g].timerIndex)
  {
    var w1, e := Advanced(w, t), w.entries[g];
    AdvancedKeeps(w, p, t);
    assert Filed(g, w1) && RunningId(w) in e.timers;
    ListedFacts(w1, g);
    KeyIndexOf(e.timers, w1.timers, e.timerIndex);
    assert Belongs(RunningId(w), g, w1.timers);
  }

  /** The timers on the list of a target belong to it. */
  lemma ListedBelong(w: World, g: Target)
    requires Table(w) && g in w.entries
    ensures Increasing(w.entries[g].timers)
    ensures forall x :: x in w.entries[g].timers ==> x in w.timers && w.timers[x].target == g
  {
    assert Filed(g, w);
    forall x | x in w.entries[g].timers ensures x in w.timers && w.timers[x].target == g {
      assert Belongs(x, g, w.timers);
    }
  }

  /** A turn after which the timer stays. */
  lemma TurnEndsOn(w: World, w2: World, t: Timer, g: Target)
    requires Table(w) && AtTurn(w) && w.current == Some(g) && !w.salvaged && t.target == g
    requires Table(w2) && SameRun(TurnBegun(w), w2) && Alike(Advanced(TurnBegun(w), t), w2, g)
    ensures TurnLeaves(w, IndexMoved(TurnEnded(w2)), t, false, g)
  {
    ListedBelong(w, g);
    assert TurnId(w) in w.entries[g].timers;
  }

  /** The world in which the timer whose turn it is has cancelled itself. */
  ghost predicate SelfErased(w: World, x: World, g: Target)
    requires AtTurn(w) && w.current == Some(g)
  {
    var e := w.entries[g];
    && NoReturn(w, x) && x.current == w.current && g in x.entries
    && x.entries[g].paused == e.paused && x.entries[g].timers == Without(e.timers, e.timerIndex)
    && x.entries[g].timerIndex == e.timerIndex - 1
    && (x.salvaged <==> x.entries[g].timers == [])
    && forall y :: y in e.timers && y != TurnId(w) ==> y in w.timers && y in x.timers && x.timers[y] == w.timers[y]
  }

  lemma ErasesItself(w: World, t: Timer, g: Target)
    requires Table(w) && AtTurn(w) && w.current == Some(g) && !w.salvaged && t.target == g
    ensures SelfErased(w, Erased(Advanced(TurnBegun(w), t), g, w.entries[g].timerIndex), g)
  {
    ListedBelong(w, g);
    assert TurnId(w) in w.entries[g].timers;
    ErasedCurrent(Advanced(TurnBegun(w), t), g, w.entries[g].timerIndex);
  }

  /** A turn in which the timer leaves the list. */
  lemma TurnEndsCancelled(w: World, x: World, w2: World, t: Timer, g: Target)
    requires Table(w) && AtTurn(w) && w.current == Some(g)
    requires Table(w2) && SameRun(TurnBegun(w), w2) && SelfErased(w, x, g) && Alike(x, w2, g)
    ensures TurnLeaves(w, IndexMoved(TurnEnded(w2)), t, true, g)
  {
    ListedBelong(w, g);
    assert forall y :: y in w.entries[g].timers && y != TurnId(w) ==> w2.timers[y] == w.timers[y];
  }

  lemma TurnEnds(w: World, p: Pass, w2: World, dt: real, made: int, g: Target)
    requires Table(w) && AtTurn(w) && w.current == Some(g) && !w.salvaged
    requires Good(TurnBegun(w), p) && Table(w2) && SameRun(TurnBegun(w), w2) && Updated(TurnBegun(w), w2, dt, made, g)
    ensures TurnDone(w, IndexMoved(TurnEnded(w2)), dt, made, g)
  {
    var r := Tick(w.timers[TurnId(w)], dt);
    TickStaysTickable(w.timers[TurnId(w)], dt);
    TurnStands(w);
    if r.cancelled {
      CancelErases(TurnBegun(w), p, r.timer, g);
      ErasesItself(w, r.timer, g);
      TurnEndsCancelled(w, Erased(Advanced(TurnBegun(w), r.timer), g, w.entries[g].timerIndex), w2, r.timer, g);
    } else {
      TurnEndsOn(w, w2, r.timer, g);
    }
  }

  /** The turn of a timer of another target. */
  lemma TurnElsewhere(w: World, w2: World, dt: real, made: int, g: Target)
    requires Table(w) && AtTurn(w) && w.current != Some(g) && Table(w2)
    requires SameRun(TurnBegun(w), w2) && Updated(TurnBegun(w), w2, dt, made, g)
    ensures Alike(w, IndexMoved(TurnEnded(w2)), g)
  {
    RunningExists(w2);
  }

  /** What a turn of the walk makes of target `g`. */
  ghost predicate TurnTaken(w: World, w1: World, dt: real, made: int, g: Target)
    requires AtTurn(w) && dt >= 0.0
  {
    if w.current == Some(g) then TurnDone(w, w1, dt, made, g) else Alike(w, w1, g)
  }

  lemma TurnOver(w: World, p: Pass, w2: World, dt: real, made: int, g: Target)
    requires Table(w) && AtTurn(w) && (w.current == Some(g) ==> !w.salvaged) && Table(w2)
    requires Good(TurnBegun(w), p) && SameRun(TurnBegun(w), w2) && Updated(TurnBegun(w), w2, dt, made, g)
    ensures TurnTaken(w, IndexMoved(TurnEnded(w2)), dt, made, g)
  {
    if w.current == Some(g) {
      TurnEnds(w, p, w2, dt, made, g);
    } else {
      TurnElsewhere(w, w2, dt, made, g);
    }
  }
}
