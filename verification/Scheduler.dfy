/** The scheduler of cocos/base/Scheduler.cpp as an object whose callbacks call back into it. */
module Scheduling {
  import opened Wrappers
  import opened Timers
  import opened SchedulerWorld
  import opened SchedulerAlone
  import opened SchedulerCalls
  import opened SchedulerFrames

  /** A callback is any list of scheduler calls, chosen by how many callbacks ran before it. */
  class Scheduler {
    var hashForTimers: map<Target, Entry>
    var timers: map<TimerId, Timer>
    var nextId: nat
    var currentTarget: Option<Target>
    var currentTargetSalvaged: bool
    const script: nat -> seq<Op>
    var callbacks: nat
    ghost var pass: Pass
    ghost var fired: map<TimerId, nat>     // the callbacks by timer
    ghost var afters: map<nat, World>      // the state right after each callback

    ghost function W(): World
      reads this
    {
      World(hashForTimers, timers, nextId, currentTarget, currentTargetSalvaged)
    }

    ghost predicate Valid()
      reads this
    {
      Good(W(), pass) && forall n, i :: 0 <= i < |script(n)| ==> OpOk(script(n)[i])
    }

    constructor (script: nat -> seq<Op>)
      requires forall n, i :: 0 <= i < |script(n)| ==> OpOk(script(n)[i])
      ensures Valid() && currentTarget == None && hashForTimers == map[]
    {
      hashForTimers, timers, nextId := map[], map[], 0;
      currentTarget, currentTargetSalvaged := None, false;
      this.script, callbacks := script, 0;
      pass, fired, afters := Pass([], {}, [], 0), map[], map[];
    }

    /** `Ref::retain` on a timer. */
    method Retain(id: TimerId)
      requires id in timers && timers[id].refs > 0
      modifies `timers
      ensures timers == old(timers)[id := old(timers)[id].(refs := old(timers)[id].refs + 1)]
    {
      timers := timers[id := timers[id].(refs := timers[id].refs + 1)];
    }

    /** `Ref::release` on a timer destroys it with its last reference. */
    method Release(id: TimerId)
      requires id in timers && timers[id].refs > 0
      modifies `timers
      ensures timers == if old(timers)[id].refs == 1 then old(timers) - {id}
                        else old(timers)[id := old(timers)[id].(refs := old(timers)[id].refs - 1)]
    {
      var t := timers[id].(refs := timers[id].refs - 1);
      if t.refs == 0 { timers := timers - {id}; } else { timers := timers[id := t]; }
    }

    /** The position of the timer with key `key` in a list, or the list's length. */
    method Find(list: seq<TimerId>, key: string) returns (i: nat)
      requires forall id :: id in list ==> id in timers
      ensures i == KeyIndex(list, timers, key)
    {
      i := 0;
      while i < |list| && timers[list[i]].key != key
        invariant i <= |list|
        invariant forall j :: 0 <= j < i ==> timers[list[j]].key != key
      {
        i := i + 1;
      }
    }

    method ScheduleTimer(op: Op)
      requires Valid() && op.Schedule? && OpOk(op)
      modifies `hashForTimers, `timers, `nextId
      ensures W() == Scheduled(old(W()), op) && Schedules(old(W()), W(), op)
      ensures Valid()
    {
      ghost var w := W();
      ScheduledKeepsPass(w, pass, op);
      ScheduledSchedules(w, op);
      if op.target !in hashForTimers {
        hashForTimers := hashForTimers[op.target := Entry([], 0, None, false, op.paused)];
      } else {
        assert Filed(op.target, w);
        var e := hashForTimers[op.target];
        var k := Find(e.timers, op.key);
        if k < |e.timers| {
          timers := timers[e.timers[k] := timers[e.timers[k]].(interval := op.interval)];
          return;
        }
      }
      var e := hashForTimers[op.target];
      timers := timers[nextId := Setup(op.target, op.key, op.interval, op.repeat, op.delay)];
      hashForTimers := hashForTimers[op.target := e.(timers := e.timers + [nextId])];
      nextId := nextId + 1;
      assert hashForTimers == w.entries[op.target := e.(timers := e.timers + [w.nextId])];
      assert [] + [w.nextId] == [w.nextId];
    }

    /** The end of both unschedules: an entry left without timers goes, unless it is being walked. */
    method CloseEntry(target: Target)
      requires target in hashForTimers
      modifies `hashForTimers, `currentTargetSalvaged
      ensures hashForTimers == if old(hashForTimers)[target].timers == [] && currentTarget != Some(target)
                               then old(hashForTimers) - {target} else old(hashForTimers)
      ensures currentTargetSalvaged ==
              (old(currentTargetSalvaged) || (old(hashForTimers)[target].timers == [] && currentTarget == Some(target)))
    {
      if hashForTimers[target].timers == [] {
        if currentTarget == Some(target) {
          currentTargetSalvaged := true;
        } else {
          hashForTimers := hashForTimers - {target};
        }
      }
    }

    /** A reference is dropped, after the timer has been given one of its own if it is running. */
    method DropReference(e: Entry, id: TimerId)
      requires id in timers && timers[id].refs == 1
      modifies `timers
      ensures timers == old(timers) - Freed(e, {id})
    {
      if e.currentTimer == Some(id) && !e.currentTimerSalvaged {
        Retain(id);
      }
      Release(id);
    }

    /** The timer at position `i` leaves the list of its target; if it is running, it is retained first. */
    method RemoveAt(target: Target, i: nat)
      requires target in hashForTimers && i < |hashForTimers[target].timers|
      requires var id := hashForTimers[target].timers[i]; id in timers && timers[id].refs == 1
      modifies `hashForTimers, `timers, `currentTargetSalvaged
      ensures W() == Erased(old(W()), target, i)
    {
      var e := hashForTimers[target];
      var id := e.timers[i];
      DropReference(e, id);
      e := e.(timers := Without(e.timers, i),
              currentTimerSalvaged := e.currentTimerSalvaged || e.currentTimer == Some(id));
      if e.timerIndex >= i { e := e.(timerIndex := e.timerIndex - 1); }
      hashForTimers := hashForTimers[target := e];
      CloseEntry(target);
    }

    /** `unschedule`. */
    method UnscheduleTimer(key: string, target: Target)
      requires Valid()
      modifies `hashForTimers, `timers, `currentTargetSalvaged, `pass
      ensures W() == Unscheduled(old(W()), key, target) && pass == UnscheduledPass(old(W()), old(pass), key, target)
      ensures Unschedules(old(W()), W(), key, target)
      ensures target != NO_TARGET && key != "" ==> !IsScheduled(W(), key, target)
      ensures Valid()
    {
      UnscheduledUnschedules(W(), key, target);
      if target != NO_TARGET && key != "" { NoLongerScheduled(W(), Unscheduled(W(), key, target), key, target); }
      if target == NO_TARGET || key == "" || target !in hashForTimers { return; }
      ghost var w := W();
      ListedFacts(w, target);
      var i := Find(hashForTimers[target].timers, key);
      if i == |hashForTimers[target].timers| { return; }
      ErasedKeeps(w, pass, target, i);
      pass := Noted(pass, w, target, {hashForTimers[target].timers[i]});
      RemoveAt(target, i);
    }

    /** Each timer of a list is released once. */
    method ReleaseEach(list: seq<TimerId>)
      requires Increasing(list) && forall id :: id in list ==> id in timers && timers[id].refs > 0
      modifies `timers
      ensures timers.Keys == old(timers).Keys - (set id | id in list && old(timers)[id].refs == 1)
      ensures forall id :: id in timers ==>
                timers[id] == if id in list then old(timers)[id].(refs := old(timers)[id].refs - 1) else old(timers)[id]
    {
      for k := 0 to |list|
        invariant forall id :: id in timers ==>
                    id in old(timers) &&
                    timers[id] == if id in list[..k] then old(timers)[id].(refs := old(timers)[id].refs - 1)
                                  else old(timers)[id]
        invariant forall id :: id in old(timers) && !(id in list[..k] && old(timers)[id].refs == 1) ==> id in timers
        invariant forall id :: id in timers ==> !(id in list[..k] && old(timers)[id].refs == 1)
      {
        assert list[k] in list && list[k] !in list[..k];
        assert forall id :: id in list[..k + 1] <==> id in list[..k] || id == list[k];
        Release(list[k]);
      }
      assert list[..|list|] == list;
    }

    /** The list's references are dropped, after the running timer on it has been given one of its own. */
    method DropReferences(e: Entry)
      requires Increasing(e.timers) && forall id :: id in e.timers ==> id in timers && timers[id].refs == 1
      modifies `timers
      ensures timers == old(timers) - Freed(e, Listed(e))
    {
      if e.currentTimer.Some? && e.currentTimer.value in e.timers && !e.currentTimerSalvaged {
        Retain(e.currentTimer.value);
      }
      ReleaseEach(e.timers);
    }

    /** All timers leave the list of their target; the running one among them is retained first. */
    method RemoveAll(target: Target)
      requires target in hashForTimers && Increasing(hashForTimers[target].timers)
      requires forall id :: id in hashForTimers[target].timers ==> id in timers && timers[id].refs == 1
      modifies `hashForTimers, `timers, `currentTargetSalvaged
      ensures W() == Cleared(old(W()), target)
    {
      var e := hashForTimers[target];
      DropReferences(e);
      e := e.(timers := [], currentTimerSalvaged := e.currentTimerSalvaged
                                                    || (e.currentTimer.Some? && e.currentTimer.value in e.timers));
      hashForTimers := hashForTimers[target := e];
      CloseEntry(target);
    }

    /** `unscheduleAllForTarget`. */
    method UnscheduleAllForTarget(target: Target)
      requires Valid()
      modifies `hashForTimers, `timers, `currentTargetSalvaged, `pass
      ensures var w := old(W());
        if target == NO_TARGET || target !in w.entries then W() == w && pass == old(pass)
        else W() == Cleared(w, target) && pass == Noted(old(pass), w, target, Listed(w.entries[target]))
      ensures UnschedulesAllOf(old(W()), W(), target)
      ensures Valid()
    {
      if target == NO_TARGET || target !in hashForTimers { return; }
      ghost var w := W();
      assert Filed(target, w);
      ListedFacts(w, target);
      ClearedKeeps(w, pass, target);
      ClearedUnschedulesAllOf(w, target);
      pass := Noted(pass, w, target, Listed(w.entries[target]));
      RemoveAll(target);
    }

    /** `unscheduleAll`, in whatever order the table is traversed. */
    method UnscheduleEverything()
      requires Valid()
      modifies `hashForTimers, `timers, `currentTargetSalvaged, `pass
      ensures Valid() && SameTurn(old(W()), W()) && SamePass(old(pass), pass)
      ensures UnschedulesAll(old(W()), W())
    {
      ghost var w := W();
      SameTurnReflexive(w);
      var rest := hashForTimers.Keys;
      while rest != {}
        invariant Valid() && SameTurn(w, W()) && SamePass(old(pass), pass)
        invariant forall g :: g in hashForTimers && g != NO_TARGET && g !in rest ==>
                    currentTarget == Some(g) && hashForTimers[g].timers == []
        decreases rest
      {
        var g :| g in rest;
        ghost var w1 := W();
        SameTurnReflexive(w1);
        if g in hashForTimers { DroppingSameTurn(w1, g, ClearedEntry(hashForTimers[g]), Listed(hashForTimers[g])); }
        UnscheduleAllForTarget(g);
        SameTurnTransitive(w, w1, W());
        rest := rest - {g};
      }
      NothingElseLeft(w, W());
    }

    /** `pauseTarget` and `resumeTarget`. */
    method SetPaused(target: Target, paused: bool)
      requires Valid()
      modifies `hashForTimers
      ensures W() == Paused(old(W()), target, paused) && Pauses(old(W()), W(), target, paused)
      ensures Valid()
    {
      PausedPauses(W(), target, paused);
      PausedKeeps(W(), pass, target, paused);
      if target in hashForTimers {
        hashForTimers := hashForTimers[target := hashForTimers[target].(paused := paused)];
      }
    }

    /** One call made by a callback does what it promises; a target `g` that it is not about stays as it was. */
    method Perform(op: Op, ghost g: Target)
      requires Valid() && OpOk(op)
      modifies `hashForTimers, `timers, `nextId, `currentTargetSalvaged, `pass
      ensures Valid() && SameTurn(old(W()), W()) && SamePass(old(pass), pass)
      ensures Performs(old(W()), W(), op)
      ensures Elsewhere(op, g) ==> Alike(old(W()), W(), g)
    {
      ghost var w := W();
      SameTurnReflexive(w);
      match op {
        case Schedule(target, _, _, _, _, _) =>
          ScheduledSameTurn(w, op);
          if target != g { ScheduledAlike(w, op, g); }
          ScheduleTimer(op);
        case Unschedule(key, target) =>
          UnscheduledSameTurn(w, key, target);
          if target != g { UnscheduledAlike(w, key, target, g); }
          UnscheduleTimer(key, target);
        case UnscheduleTarget(target) =>
          if target in hashForTimers {
            DroppingSameTurn(w, target, ClearedEntry(hashForTimers[target]), Listed(hashForTimers[target]));
            if target != g { DroppingAlike(w, target, ClearedEntry(w.entries[target]), Listed(w.entries[target]), g); }
          }
          UnscheduleAllForTarget(target);
        case UnscheduleAll => UnscheduleEverything();
        case PauseTarget(target) => SetPaused(target, true);
        case ResumeTarget(target) => SetPaused(target, false);
      }
    }

    method PerformAll(ops: seq<Op>, ghost g: Target)
      requires Valid() && forall k :: 0 <= k < |ops| ==> OpOk(ops[k])
      modifies `hashForTimers, `timers, `nextId, `currentTargetSalvaged, `pass
      ensures Valid() && SameTurn(old(W()), W()) && SamePass(old(pass), pass)
      ensures CarriedOut(old(W()), W(), ops)
      ensures AllElsewhere(ops, g) ==> Alike(old(W()), W(), g)
    {
      ghost var w := W();
      SameTurnReflexive(w);
      for k := 0 to |ops|
        invariant Valid() && SameTurn(w, W()) && SamePass(old(pass), pass) && CarriedOut(w, W(), ops[..k])
        invariant AllElsewhere(ops, g) ==> Alike(w, W(), g)
      {
        ghost var w1 := W();
        Perform(ops[k], g);
        SameTurnTransitive(w, w1, W());
        OneMoreCarriedOut(w, w1, W(), ops, k);
      }
      assert ops[..|ops|] == ops;
    }

    /** `trigger`: the callback makes whatever calls it likes. */
    method Trigger(ghost g: Target)
      requires Valid() && Running(W())
      modifies `hashForTimers, `timers, `nextId, `currentTargetSalvaged, `callbacks, `pass, `fired, `afters
      ensures Valid() && SameTurn(old(W()), W()) && SamePass(old(pass), pass)
      ensures CarriedOut(old(W()), W(), script(old(callbacks))) && afters == old(afters)[old(callbacks) := W()]
      ensures LeftBehind(script, old(afters), afters, old(callbacks), currentTarget.value)
      ensures callbacks == old(callbacks) + 1 && MoreFired(old(fired), fired, RunningId(old(W())), 1)
      ensures LeftAlone(script, old(callbacks), callbacks, g) ==> Alike(old(W()), W(), g)
    {
      ghost var w, n := W(), callbacks;
      PerformAll(script(callbacks), g);
      LeavesBehind(script, afters, n, w, W());
      afters := afters[n := W()];
      fired := fired[RunningId(w) := Fired(fired, RunningId(w)) + 1];
      callbacks := callbacks + 1;
      assert LeftAlone(script, n, n + 1, g) ==> AllElsewhere(script(n), g);
    }

    /** The fields of the running timer that its own update writes. */
    method Write(id: TimerId, t: Timer)
      requires Valid() && Running(W()) && RunningId(W()) == id && id in timers
      requires SameOwner(timers[id], t) && Tickable(t)
      modifies `timers
      ensures W() == Advanced(old(W()), t)
      ensures Valid() && SameRun(old(W()), W())
    {
      AdvancedKeeps(W(), pass, t);
      timers := timers[id := t];
    }

    /** `cancel`. */
    method Cancel(id: TimerId)
      requires Valid() && Running(W()) && RunningId(W()) == id && id in timers
      modifies `hashForTimers, `timers, `currentTargetSalvaged, `pass
      ensures W() == Unscheduled(old(W()), old(timers[id].key), old(timers[id].target))
      ensures Valid() && SameRun(old(W()), W()) && SamePass(old(pass), pass)
    {
      UnscheduledSameTurn(W(), timers[id].key, timers[id].target);
      UnscheduleTimer(timers[id].key, timers[id].target);
    }

    /** A timer that has fired more than `repeat` times cancels itself: whether it did. */
    method CheckCap(id: TimerId) returns (over: bool)
      requires Valid() && Running(W()) && RunningId(W()) == id && id in timers
      modifies `hashForTimers, `timers, `currentTargetSalvaged, `pass
      ensures over <==> Exhausted(old(timers[id]))
      ensures W() == if over then Unscheduled(old(W()), old(timers[id].key), old(timers[id].target)) else old(W())
      ensures Valid() && SameRun(old(W()), W()) && SamePass(old(pass), pass)
    {
      over := Exhausted(timers[id]);
      if over { Cancel(id); }
    }

    /** What the running timer makes of a callback: whether it was its last. */
    method CountCallback(id: TimerId, t: Timer) returns (over: bool)
      requires Valid() && Running(W()) && RunningId(W()) == id && id in timers
      requires SameOwner(timers[id], t) && Tickable(t)
      modifies `hashForTimers, `timers, `currentTargetSalvaged, `pass
      ensures Valid() && SameRun(old(W()), W()) && SamePass(old(pass), pass)
      ensures (over <==> Exhausted(t)) && timers[id].elapsed == t.elapsed && (over <==> Exhausted(timers[id]))
      ensures Table(Advanced(old(W()), t))
      ensures W() == if over then Unscheduled(Advanced(old(W()), t), t.key, t.target) else Advanced(old(W()), t)
    {
      Write(id, t);
      ghost var w := W();
      over := CheckCap(id);
      if over { UnscheduledSameTurn(w, t.key, t.target); }
    }

    /** A callback of the running timer, and what the timer makes of it; whether it was its last. */
    method FireWith(id: TimerId, elapsed: real, useDelay: bool, ghost g: Target) returns (over: bool)
      requires Valid() && Running(W()) && RunningId(W()) == id && id in timers && elapsed >= 0.0
      requires useDelay ==> timers[id].useDelay
      modifies this
      ensures Valid() && SameRun(old(W()), W()) && SamePass(old(pass), pass)
      ensures id in old(timers) && id in timers && timers[id].elapsed == elapsed
      ensures callbacks == old(callbacks) + 1 && MoreFired(old(fired), fired, id, 1)
      ensures LeftBehind(script, old(afters), afters, old(callbacks), currentTarget.value)
      ensures (over <==> Exhausted(Fires(old(timers[id]), elapsed, useDelay))) && (over <==> Exhausted(timers[id]))
      ensures !over ==>
                && (currentTargetSalvaged <==> afters[old(callbacks)].salvaged)
                && id in afters[old(callbacks)].timers
                && timers[id].interval == afters[old(callbacks)].timers[id].interval
      ensures LeftAlone(script, old(callbacks), callbacks, g) ==> FiredWith(old(W()), W(), elapsed, useDelay, over, g)
    {
      ghost var w, p := W(), pass;
      RunningExists(w);
      Trigger(g);
      ghost var w1, p1 := W(), pass;
      RunningExists(w1);
      var t := Fires(timers[id], elapsed, useDelay);
      over := CountCallback(id, t);
      if LeftAlone(script, old(callbacks), callbacks, g) {
        EndsAfterCallback(w, p, w1, p1, t, 1, over, g);
      }
    }

    /** One round of the catch-up loop: whether it was the last. */
    method FireOnce(id: TimerId, interval: real, ghost g: Target) returns (last: bool)
      requires Valid() && Running(W()) && RunningId(W()) == id && id in timers
      requires timers[id].elapsed >= interval
      modifies this
      ensures Valid() && SameRun(old(W()), W()) && SamePass(old(pass), pass)
      ensures id in old(timers) && id in timers
      ensures timers[id].elapsed == old(timers[id].elapsed) - interval
      ensures callbacks == old(callbacks) + 1 && MoreFired(old(fired), fired, id, 1)
      ensures LeftBehind(script, old(afters), afters, old(callbacks), currentTarget.value)
      ensures last <==> Exhausted(timers[id]) || timers[id].elapsed <= 0.0 || afters[old(callbacks)].salvaged
      ensures LeftAlone(script, old(callbacks), callbacks, g) ==> FiredOnce(old(W()), W(), interval, last, g)
    {
      ghost var w := W();
      var over := FireWith(id, timers[id].elapsed - interval, timers[id].useDelay, g);
      last := over || timers[id].elapsed <= 0.0 || currentTargetSalvaged;
      if LeftAlone(script, old(callbacks), callbacks, g) {
        FiredWithStride(w, W(), interval, over, last, g);
      }
    }

    /** The current target, if that is `g`, has timers. */
    ghost predicate Steady(g: Target)
      reads this
    {
      currentTarget == Some(g) ==> !currentTargetSalvaged
    }

    /** Where a catch-up loop stands that began in the world `w` with callback number `from`. */
    ghost predicate Looping(id: TimerId, interval: real, g: Target, w: World, from: nat, before: map<TimerId, nat>,
                            a: map<nat, World>, ended: bool)
      reads this
    {
      && Valid() && id in timers && from <= callbacks
      && CatchingUp(w, W(), interval, script, from, callbacks, before, fired, ended, g) && id == RunningId(w)
      && Salvages(script, a, afters, from, callbacks, ended, w.current.value)
      && (if callbacks == from then W() == w && !ended else w.timers[id].elapsed >= interval && callbacks - 1 in afters)
      && (ended ==> LoopIsOver(timers[id], interval, afters, callbacks - 1))
    }

    /** One round of it: whether it was the last. */
    method CatchUpRound(id: TimerId, interval: real, ghost g: Target, ghost w: World, ghost p: Pass, ghost from: nat,
                        ghost before: map<TimerId, nat>, ghost a: map<nat, World>) returns (last: bool)
      requires Looping(id, interval, g, w, from, before, a, false) && Good(w, p) && timers[id].elapsed >= interval
      modifies this
      ensures Looping(id, interval, g, w, from, before, a, last) && SamePass(old(pass), pass) && id in old(timers)
      ensures timers[id].elapsed == old(timers[id].elapsed) - interval && (!last ==> timers[id].elapsed > 0.0)
    {
      ghost var w1, c1, f1, a1 := W(), callbacks, fired, afters;
      last := FireOnce(id, interval, g);
      SalvagesMore(script, a, a1, afters, from, c1, last, w.current.value);
      CatchingUpGoesOn(w, p, w1, W(), interval, script, from, c1, before, f1, fired, last, g);
    }

    /** The rounds of a loop that begins in the world `w`, until one is the last or the time left does not reach the
        interval. */
    method CatchUpRounds(id: TimerId, interval: real, ghost g: Target, ghost w: World, ghost p: Pass, ghost c: nat,
                         ghost f: map<TimerId, nat>, ghost a: map<nat, World>) returns (last: bool)
      requires Looping(id, interval, g, w, c, f, a, false) && Good(w, p) && SamePass(p, pass)
      requires CanCatchUp(timers[id], interval)
      modifies this
      ensures Looping(id, interval, g, w, c, f, a, last) && SamePass(p, pass)
      ensures last || timers[id].elapsed < interval
    {
      ghost var n := SomeRounds(timers[id], interval);
      last := false;
      while timers[id].elapsed >= interval
        invariant Looping(id, interval, g, w, c, f, a, false) && SamePass(p, pass)
        invariant AtMost(timers[id].elapsed, interval, n)
        decreases n
      {
        OneRoundLess(timers[id].elapsed, interval, n);
        last := CatchUpRound(id, interval, g, w, p, c, f, a);
        if last { return; }
        n := n - 1;
      }
    }

    /** The catch-up loop of `Timer::update`, whatever the callbacks do: if the timer is due there is one, and they go
        on until the timer has reached its cap, its time is used up, or one of them has left the target without
        timers, after which there is none. */
    method CatchUpLoop(id: TimerId, interval: real, ghost g: Target)
      requires Valid() && Running(W()) && RunningId(W()) == id && id in timers && CanCatchUp(timers[id], interval)
      modifies this
      ensures Valid() && SamePass(old(pass), pass)
      ensures CatchingUp(old(W()), W(), interval, script, old(callbacks), callbacks, old(fired), fired, true, g)
      ensures old(timers[id].elapsed) >= interval <==> callbacks > old(callbacks)
      ensures NoneSalvaged(script, afters, old(callbacks), callbacks - 1, old(currentTarget.value))
      ensures callbacks > old(callbacks) ==> id in timers && LoopIsOver(timers[id], interval, afters, callbacks - 1)
      ensures SameBefore(old(afters), afters, old(callbacks))
    {
      ghost var w, p, c, f, a := W(), pass, callbacks, fired, afters;
      CatchingUpBegins(w, interval, script, c, f, g);
      var last := CatchUpRounds(id, interval, g, w, p, c, f, a);
      if !last {
        CatchingUpEnds(w, W(), interval, script, c, callbacks, f, fired, g);
        if callbacks > c { TimeIsUsedUp(timers[id], interval, afters, callbacks - 1); }
      }
    }

    /** The callback at the end of the delay, in an update that began in the world `w`: whether the update
        goes on. */
    method EndDelay(id: TimerId, rest: real, dt: real, ghost g: Target, ghost w: World) returns (goOn: bool)
      requires Good(w, pass) && ClockMoved(w, W(), dt) && Running(W()) && RunningId(W()) == id && dt >= 0.0 && Valid()
      requires id in timers && DelayPast(W(), rest)
      modifies this
      ensures Valid() && SameRun(w, W()) && SamePass(old(pass), pass) && id in timers && timers[id].elapsed >= 0.0
      ensures callbacks == old(callbacks) + 1 && MoreFired(old(fired), fired, id, 1)
      ensures id in w.timers && (goOn <==> !Exhausted(Fires(w.timers[id], 0.0, false))) && timers[id].elapsed == rest
      ensures goOn ==> old(callbacks) in afters && id in afters[old(callbacks)].timers
                       && timers[id].interval == afters[old(callbacks)].timers[id].interval
      ensures LeftAlone(script, old(callbacks), callbacks, g) ==> DelayEnded(w, W(), dt, goOn, g)
    {
      ghost var p, w1 := pass, W();
      var over := FireWith(id, rest, false, g);
      if LeftAlone(script, old(callbacks), callbacks, g) {
        DelayOver(w, p, w1, W(), dt, rest, over, g);
      }
      return !over;
    }

    /** The part of `Timer::update` that deals with the delay: whether the update goes on. */
    method DelayPart(id: TimerId, dt: real, ghost g: Target, ghost w: World) returns (goOn: bool)
      requires Good(w, pass) && Running(w) && RunningId(w) == id && id in w.timers && dt >= 0.0
      requires w.timers[id].elapsed >= 0.0 && Valid()
      requires W() == Advanced(w, w.timers[id].(elapsed := w.timers[id].elapsed + dt))
      modifies this
      ensures Valid() && SameRun(w, W()) && SamePass(old(pass), pass) && id in timers
      ensures goOn ==> timers[id].elapsed >= 0.0
      ensures callbacks >= old(callbacks) && MoreFired(old(fired), fired, id, callbacks - old(callbacks))
      ensures EndsDelay(w.timers[id], dt) <==> callbacks == old(callbacks) + 1
      ensures EndsDelay(w.timers[id], dt) ==>
                && (goOn <==> !Exhausted(Fires(w.timers[id], 0.0, false)))
                && timers[id].elapsed == w.timers[id].elapsed + dt - w.timers[id].delay
                && (goOn ==> old(callbacks) in afters && id in afters[old(callbacks)].timers
                             && timers[id].interval == afters[old(callbacks)].timers[id].interval)
      ensures !EndsDelay(w.timers[id], dt) ==>
                (goOn <==> !w.timers[id].useDelay) && callbacks == old(callbacks) && W() == old(W())
      ensures LeftAlone(script, old(callbacks), callbacks, g) ==>
                if goOn then DelayDone(w, W(), dt, callbacks - old(callbacks), g)
                else Updated(w, W(), dt, callbacks - old(callbacks), g)
    {
      if !timers[id].useDelay {
        NoDelay(w, dt, g);
        return true;
      }
      if timers[id].elapsed < timers[id].delay {
        StillInDelay(w, dt, g);
        return false;
      }
      goOn := EndDelay(id, timers[id].elapsed - timers[id].delay, dt, g, w);
    }

    /** The last part of an update that began in the world `w`. */
    method CatchUpPart(id: TimerId, dt: real, ghost g: Target, ghost w: World, ghost p: Pass, ghost from: nat,
                       ghost before: map<TimerId, nat>)
      requires Valid() && Running(W()) && RunningId(W()) == id && id in timers && timers[id].elapsed >= 0.0
      requires Good(w, p) && SameRun(w, W()) && SamePass(p, pass)
      requires id in w.timers && Tickable(w.timers[id]) && dt >= 0.0
      requires callbacks >= from && MoreFired(before, fired, id, callbacks - from)
      requires LeftAlone(script, from, callbacks, g) ==> DelayDone(w, W(), dt, callbacks - from, g)
      modifies this
      ensures Valid() && SameRun(w, W()) && SamePass(p, pass) && id in timers
      ensures callbacks >= from && MoreFired(before, fired, id, callbacks - from)
      ensures (old(timers[id].interval) > 0.0 ==> old(timers[id].interval) <= old(timers[id].elapsed))
              <==> callbacks > old(callbacks)
      ensures callbacks >= old(callbacks) && SameBefore(old(afters), afters, old(callbacks))
      ensures NoneSalvaged(script, afters, old(callbacks), callbacks - 1, old(currentTarget.value))
      ensures LeftAlone(script, from, callbacks, g) && (w.current == Some(g) ==> !w.salvaged) ==>
                Updated(w, W(), dt, callbacks - from, g)
    {
      ghost var w2, c2, f2 := W(), callbacks, fired;
      StrideReached(timers[id]);
      CatchUpLoop(id, Stride(timers[id]), g);
      MoreFiredAdds(before, f2, fired, id, c2 - from, callbacks - c2);
      if LeftAlone(script, from, callbacks, g) && (w.current == Some(g) ==> !w.salvaged) {
        LeftAloneSplits(script, from, c2, callbacks, g);
        CaughtUp(w, p, w2, W(), dt, c2 - from, callbacks - c2, g);
      }
    }

    /** `Timer::update` of a timer that has had its first update: exactly when it makes a callback, and when there
        is another one after the delay's. */
    method PassTime(id: TimerId, dt: real, ghost g: Target)
      requires Valid() && Running(W()) && RunningId(W()) == id && dt >= 0.0 && id in timers && timers[id].elapsed >= 0.0
      modifies this
      ensures Valid() && SameRun(old(W()), W()) && SamePass(old(pass), pass) && id in timers
      ensures callbacks >= old(callbacks) && MoreFired(old(fired), fired, id, callbacks - old(callbacks))
      ensures NoneSalvaged(script, afters, old(callbacks) + if old(timers[id].useDelay) then 1 else 0, callbacks - 1,
                           old(currentTarget.value))
      ensures IsDue(old(timers[id]), dt) || EndsDelay(old(timers[id]), dt) <==> callbacks > old(callbacks)
      ensures EndsDelay(old(timers[id]), dt) ==>
                (callbacks > old(callbacks) + 1 <==> GoesOnDue(old(timers[id]), dt, id, afters, old(callbacks)))
      ensures LeftAlone(script, old(callbacks), callbacks, g) && old(Steady(g)) ==>
                Updated(old(W()), W(), dt, callbacks - old(callbacks), g)
    {
      ghost var w, p := W(), pass;
      RunningExists(w);
      Write(id, timers[id].(elapsed := timers[id].elapsed + dt));
      var goOn := DelayPart(id, dt, g, w);
      if goOn {
        CatchUpPart(id, dt, g, w, p, old(callbacks), old(fired));
      }
    }

    /** `Timer::update` of the running timer, whatever its callbacks do: the timer outlives the call, and
        its first update makes no callback. After a callback that has left the target without timers there is no
        other, except that the one at the end of the delay can be followed by one more. If the callbacks leave
        target `g` alone, a timer of `g` fires and ends exactly as `Tick` says, and any other timer's update
        leaves `g` as it was. */
    method UpdateTimer(id: TimerId, dt: real, ghost g: Target)
      requires Valid() && Running(W()) && RunningId(W()) == id && dt >= 0.0
      modifies this
      ensures Valid() && SameRun(old(W()), W()) && SamePass(old(pass), pass)
      ensures id in old(timers) && id in timers && Tickable(old(timers[id]))
      ensures old(timers[id].elapsed) == -1.0 ==>
                && W() == Advanced(old(W()), old(timers[id]).(elapsed := 0.0, timesExecuted := 0))
                && pass == old(pass) && callbacks == old(callbacks)
      ensures callbacks >= old(callbacks) && MoreFired(old(fired), fired, id, callbacks - old(callbacks))
      ensures NoneSalvaged(script, afters, old(callbacks) + if old(timers[id].useDelay) then 1 else 0, callbacks - 1,
                           old(currentTarget.value))
      ensures IsDue(old(timers[id]), dt) && EndsUnscheduling(script(old(callbacks)), old(currentTarget.value)) ==>
                callbacks == old(callbacks) + 1
      ensures LeftAlone(script, old(callbacks), callbacks, g) && old(Steady(g)) ==>
                Updated(old(W()), W(), dt, callbacks - old(callbacks), g)
    {
      RunningExists(W());
      ghost var w, t, c, h := W(), timers[id], callbacks, currentTarget.value;
      if timers[id].elapsed == -1.0 {
        FirstUpdate(w, dt, g);
        Write(id, timers[id].(elapsed := 0.0, timesExecuted := 0));
      } else {
        PassTime(id, dt, g);
        if IsDue(t, dt) && EndsUnscheduling(script(c), h) {
          LastIfUnscheduling(script, afters, c, callbacks, h);
        }
      }
    }

    method BeginTurn(target: Target) returns (id: TimerId)
      requires Valid() && currentTarget == Some(target) && !Running(W())
      requires 0 <= hashForTimers[target].timerIndex < |hashForTimers[target].timers|
      requires PassAt(hashForTimers[target], hashForTimers[target].timerIndex - 1, timers, pass)
      modifies `hashForTimers, `pass
      ensures W() == TurnBegun(old(W())) && id == RunningId(W())
      ensures id == old(hashForTimers[target].timers[hashForTimers[target].timerIndex])
      ensures pass == old(pass).(turns := old(pass).turns + [id])
      ensures Valid()
    {
      TurnBegunKeeps(W(), pass);
      var e := hashForTimers[target];
      id := e.timers[e.timerIndex];
      hashForTimers := hashForTimers[target := e.(currentTimer := Some(id), currentTimerSalvaged := false)];
      pass := pass.(turns := pass.turns + [id]);
    }

    method EndTurn(target: Target, id: TimerId)
      requires Valid() && currentTarget == Some(target) && Running(W()) && RunningId(W()) == id
      modifies `hashForTimers, `timers
      ensures W() == TurnEnded(old(W()))
      ensures Valid() && !Running(W())
      ensures PassAt(hashForTimers[target], hashForTimers[target].timerIndex, timers, pass)
    {
      TurnEndedKeeps(W(), pass);
      SalvagedRefs(W());
      if hashForTimers[target].currentTimerSalvaged { Release(id); }
      hashForTimers := hashForTimers[target := hashForTimers[target].(currentTimer := None)];
    }

    method NextTurn(target: Target)
      requires Valid() && currentTarget == Some(target) && !Running(W())
      modifies `hashForTimers
      ensures target in old(hashForTimers)
      ensures hashForTimers == old(hashForTimers)[target :=
                old(hashForTimers)[target].(timerIndex := old(hashForTimers)[target].timerIndex + 1)]
      ensures Valid() && !Running(W())
    {
      IndexKeeps(W(), target, hashForTimers[target].timerIndex + 1);
      var e := hashForTimers[target];
      hashForTimers := hashForTimers[target := e.(timerIndex := e.timerIndex + 1)];
    }

    /** The turn ends, and the position moves on. */
    method CloseTurn(target: Target, id: TimerId)
      requires Valid() && currentTarget == Some(target) && Running(W()) && RunningId(W()) == id
      modifies `hashForTimers, `timers
      ensures W() == IndexMoved(TurnEnded(old(W()))) && Valid() && target in hashForTimers
      ensures PassAt(hashForTimers[target], hashForTimers[target].timerIndex - 1, timers, pass)
    {
      EndTurn(target, id);
      NextTurn(target);
    }

    /** The running timer is updated, its turn ends, and the position moves on. */
    method FinishTurn(target: Target, id: TimerId, dt: real, ghost g: Target) returns (ghost w2: World)
      requires Valid() && currentTarget == Some(target) && Running(W()) && RunningId(W()) == id && dt >= 0.0
      modifies this
      ensures Valid() && SameRun(old(W()), w2) && Table(w2)
      ensures W() == IndexMoved(TurnEnded(w2)) && SamePass(old(pass), pass)
      ensures target in hashForTimers
      ensures PassAt(hashForTimers[target], hashForTimers[target].timerIndex - 1, timers, pass)
      ensures id in old(timers) && (old(timers[id].elapsed) == -1.0 ==>
                hashForTimers[target].timers == old(hashForTimers[target].timers)
                && hashForTimers[target].timerIndex == old(hashForTimers[target].timerIndex) + 1)
      ensures callbacks >= old(callbacks) && MoreFired(old(fired), fired, id, callbacks - old(callbacks))
      ensures LeftAlone(script, old(callbacks), callbacks, g) && old(Steady(g)) ==>
                Updated(old(W()), w2, dt, callbacks - old(callbacks), g)
    {
      UpdateTimer(id, dt, g);
      w2 := W();
      CloseTurn(target, id);
    }

    /** The turn that has begun in the world `w` is taken. */
    method PlayTurn(target: Target, id: TimerId, dt: real, ghost g: Target, ghost w: World)
      requires Valid() && Table(w) && AtTurn(w) && w.current == Some(target) && dt >= 0.0
      requires W() == TurnBegun(w) && id == TurnId(w)
      modifies this
      ensures Valid() && currentTarget == Some(target) && !Running(W()) && SamePass(old(pass), pass)
      ensures target in hashForTimers
      ensures PassAt(hashForTimers[target], hashForTimers[target].timerIndex - 1, timers, pass)
      ensures w.timers[id].elapsed == -1.0 ==>
                hashForTimers[target].timers == w.entries[target].timers
                && hashForTimers[target].timerIndex == w.entries[target].timerIndex + 1
      ensures callbacks >= old(callbacks) && MoreFired(old(fired), fired, id, callbacks - old(callbacks))
      ensures LeftAlone(script, old(callbacks), callbacks, g) && (target == g ==> !w.salvaged) ==>
                TurnTaken(w, W(), dt, callbacks - old(callbacks), g)
    {
      ghost var p, alone := pass, target == g ==> !w.salvaged;
      ghost var w2 := FinishTurn(target, id, dt, g);
      if LeftAlone(script, old(callbacks), callbacks, g) && alone {
        TurnOver(w, p, w2, dt, callbacks - old(callbacks), g);
      }
    }

    /** One round of the walk. */
    method TakeTurn(target: Target, dt: real, ghost g: Target)
      requires Valid() && currentTarget == Some(target) && !Running(W()) && dt >= 0.0
      requires 0 <= hashForTimers[target].timerIndex < |hashForTimers[target].timers|
      requires PassAt(hashForTimers[target], hashForTimers[target].timerIndex - 1, timers, pass)
      modifies this
      ensures Valid() && currentTarget == Some(target) && !Running(W())
      ensures PassAt(hashForTimers[target], hashForTimers[target].timerIndex - 1, timers, pass)
      ensures target in old(hashForTimers) && AtTurn(old(W())) && OneTurn(old(pass), pass, TurnId(old(W())))
      ensures TurnId(old(W())) !in old(pass.listed) ==>
                && hashForTimers[target].timers == old(hashForTimers[target].timers)
                && hashForTimers[target].timerIndex == old(hashForTimers[target].timerIndex) + 1
      ensures callbacks >= old(callbacks) && MoreFired(old(fired), fired, TurnId(old(W())), callbacks - old(callbacks))
      ensures LeftAlone(script, old(callbacks), callbacks, g) && old(Steady(g)) ==>
                TurnTaken(old(W()), W(), dt, callbacks - old(callbacks), g)
    {
      ghost var w := W();
      TurnIsNew(hashForTimers[target], timers, pass);
      TurnStands(w);
      var id := BeginTurn(target);
      PlayTurn(target, id, dt, g, w);
    }

    /** Where the walk over the current target's timers, which began in the world `w`, stands after `k` turns. */
    ghost predicate Walking(target: Target, dt: real, g: Target, w: World, k: nat, from: nat, before: map<TimerId, nat>)
      reads this
    {
      && currentTarget == Some(target) && !Running(W()) && dt >= 0.0 && target in hashForTimers
      && PassAt(hashForTimers[target], hashForTimers[target].timerIndex - 1, timers, pass)
      && WalksSo(w, W(), before, fired, k, dt, target, script, from, callbacks, g)
    }

    /** How far the walk is from its end. */
    ghost function Ahead(target: Target): int
      requires target in hashForTimers
      reads this
    {
      |hashForTimers[target].timers| - hashForTimers[target].timerIndex
    }

    /** One more round of a walk. */
    method WalkOn(target: Target, dt: real, ghost g: Target, ghost w: World, ghost k: nat, ghost from: nat,
                  ghost before: map<TimerId, nat>)
      requires Valid() && Walking(target, dt, g, w, k, from, before) && Ahead(target) > 0
      modifies this
      ensures Valid() && Walking(target, dt, g, w, k + 1, from, before) && pass.listed == old(pass.listed)
      ensures target in old(hashForTimers)
      ensures Waiting(pass) < old(Waiting(pass))
           || (Waiting(pass) == old(Waiting(pass)) && Ahead(target) < old(Ahead(target)))
    {
      ghost var p, w1, c1, f1 := pass, W(), callbacks, fired;
      TakeTurn(target, dt, g);
      TurnLessens(p, pass, TurnId(w1));
      WalksSoOn(w, w1, W(), before, f1, fired, k, dt, target, script, from, c1, callbacks, g);
    }

    /** The walk over the timers of the current target, which began in the world `w`. */
    method Walk(target: Target, dt: real, ghost g: Target, ghost w: World)
      requires Valid() && Walking(target, dt, g, w, 0, callbacks, fired)
      modifies this
      ensures Valid() && currentTarget == Some(target) && !Running(W())
      ensures pass.listed == old(pass.listed) && WalkReport(pass, pass.listed)
      ensures forall id :: id in pass.dropped ==> id !in hashForTimers[target].timers
      ensures callbacks >= old(callbacks)
      ensures LeftAlone(script, old(callbacks), callbacks, g) ==>
                WalkOver(w, W(), old(fired), fired, dt, target, g)
    {
      ghost var list, k: nat, c, f := pass.listed, 0, callbacks, fired;
      while hashForTimers[target].timerIndex < |hashForTimers[target].timers|
        invariant Valid() && Walking(target, dt, g, w, k, c, f) && pass.listed == list
        decreases Waiting(pass), Ahead(target)
      {
        WalkOn(target, dt, g, w, k, c, f);
        k := k + 1;
      }
      WalkIsComplete(hashForTimers[target], hashForTimers[target].timerIndex - 1, timers, pass, nextId);
      if LeftAlone(script, c, callbacks, g) {
        WalksEnd(w, W(), f, fired, k, dt, target, g);
      }
    }

    /** The walk over the target's timers, from its first position. */
    method WalkAll(target: Target, dt: real, ghost g: Target)
      requires Valid() && currentTarget == Some(target) && !currentTargetSalvaged && !Running(W()) && dt >= 0.0
      requires hashForTimers[target].timers != []
      modifies this
      ensures Valid() && currentTarget == Some(target) && !Running(W()) && callbacks >= old(callbacks)
      ensures target in old(hashForTimers)
      ensures pass.listed == old(hashForTimers[target].timers) && WalkReport(pass, pass.listed)
      ensures forall id :: id in pass.dropped ==> id !in hashForTimers[target].timers
      ensures LeftAlone(script, old(callbacks), callbacks, g) ==>
                WalkOver(old(W()), W(), old(fired), fired, dt, target, g)
    {
      ghost var w := W();
      pass := Pass([], {}, hashForTimers[target].timers, nextId);
      hashForTimers := hashForTimers[target := hashForTimers[target].(timerIndex := 0)];
      WalkStarts(w, target);
      if target == g { WalkBegins(w, W(), fired, dt, g); }
      Walk(target, dt, g, w);
    }

    /** The end of a target's turn: an entry that has lost all its timers goes now. */
    method Leave(target: Target)
      requires Valid() && currentTarget == Some(target) && !Running(W())
      modifies `hashForTimers, `currentTarget
      ensures target in old(hashForTimers) && W() == Left(old(W())) && Valid() && currentTarget == None
      ensures target in hashForTimers ==> hashForTimers[target] == old(hashForTimers[target])
    {
      LeftKeeps(W(), pass);
      if currentTargetSalvaged && hashForTimers[target].timers == [] {
        hashForTimers := hashForTimers - {target};
      }
      currentTarget := None;
    }

    /** The walk of `Scheduler::update` over the timers of one target. Whatever the callbacks schedule and
        unschedule, no timer is updated twice, timers are updated in the order of their creation, and each
        timer listed at the start is either updated or was unscheduled before its turn, not both. A paused
        target is left alone. The walk ends although callbacks may add timers for ever. If the callbacks
        leave target `g` alone, each timer of `g` is updated as `Tick` says when `g` is ticked, and is not
        touched when another target is. */
    method TickTarget(target: Target, dt: real, ghost g: Target) returns (ghost report: Pass)
      requires Valid() && currentTarget == None && target in hashForTimers && dt >= 0.0
      modifies this
      ensures Valid() && currentTarget == None && callbacks >= old(callbacks)
      ensures old(hashForTimers[target].paused) ==>
                hashForTimers == old(hashForTimers) && timers == old(timers) && callbacks == old(callbacks)
                && nextId == old(nextId) && fired == old(fired)
      ensures !old(hashForTimers[target].paused) ==>
                && report.listed == old(hashForTimers[target].timers) && WalkReport(report, report.listed)
                && forall id :: id in report.dropped && target in hashForTimers ==> id !in hashForTimers[target].timers
      ensures !old(hashForTimers[target].paused) && LeftAlone(script, old(callbacks), callbacks, g) ==>
                Ticked(old(W()), W(), old(fired), fired, dt, target, g)
    {
      ghost var w := W();
      report := pass;
      EnteredKeeps(w, target);
      assert Filed(target, w);
      currentTarget := Some(target);
      currentTargetSalvaged := false;
      if !hashForTimers[target].paused {
        ghost var w1 := W();
        WalkAll(target, dt, g);
        report := pass;
        if LeftAlone(script, old(callbacks), callbacks, g) {
          WalkLeaves(w, w1, W(), old(fired), fired, dt, target, g);
        }
      }
      Leave(target);
    }

    /** The visit of one entry in a frame that began in the world `w`. */
    method Visit(visited: seq<Target>, i: nat, dt: real, ghost g: Target, ghost w: World, ghost from: nat,
                 ghost before: map<TimerId, nat>) returns (ghost report: Option<Pass>)
      requires Valid() && currentTarget == None && dt >= 0.0 && i < |visited| && callbacks >= from
      requires Table(w)
      requires LeftAlone(script, from, callbacks, g) && Comes(visited, w, g) ==>
                 Framed(w, W(), before, fired, g in w.entries && g in visited[..i], dt, g)
      modifies this
      ensures Valid() && currentTarget == None && callbacks >= old(callbacks)
      ensures VisitReported(old(W()), W(), visited[i], report)
      ensures LeftAlone(script, from, callbacks, g) && Comes(visited, w, g) ==>
                Framed(w, W(), before, fired, g in w.entries && g in visited[..i + 1], dt, g)
    {
      ghost var w1, c1, f1 := W(), callbacks, fired;
      var target := visited[i];
      report := None;
      VisitedOnce(visited, i, g);
      if target in hashForTimers {
        ghost var p := TickTarget(target, dt, g);
        if !w1.entries[target].paused {
          report := Some(p);
          if LeftAlone(script, from, callbacks, g) && Comes(visited, w, g) {
            LeftAloneSplits(script, from, c1, callbacks, g);
            FramedMore(w, w1, W(), before, f1, fired, g in w.entries && g in visited[..i], dt, target, g);
          }
        }
      }
    }

    /** `update`, for whichever entries the iteration of the hash table comes to, in whatever order: what
        each visit did, and what the whole frame means for a target `g` that is visited once or not there. */
    method Update(visited: seq<Target>, dt: real, ghost g: Target)
      returns (ghost states: seq<World>, ghost reports: seq<Option<Pass>>)
      requires Valid() && currentTarget == None && dt >= 0.0
      modifies this
      ensures Valid() && currentTarget == None && callbacks >= old(callbacks)
      ensures |reports| == |visited| && |states| == |visited| + 1 && states[0] == old(W()) && states[|visited|] == W()
      ensures forall i :: 0 <= i < |visited| ==> VisitReported(states[i], states[i + 1], visited[i], reports[i])
      ensures LeftAlone(script, old(callbacks), callbacks, g) && Comes(visited, old(W()), g) ==>
                Framed(old(W()), W(), old(fired), fired, g in old(hashForTimers), dt, g)
    {
      ghost var w := W();
      states, reports := [w], [];
      for i := 0 to |visited|
        invariant Valid() && currentTarget == None && callbacks >= old(callbacks)
        invariant |reports| == i && |states| == i + 1 && states[0] == w && states[i] == W()
        invariant forall k :: 0 <= k < i ==> VisitReported(states[k], states[k + 1], visited[k], reports[k])
        invariant LeftAlone(script, old(callbacks), callbacks, g) && Comes(visited, w, g) ==>
                    Framed(w, W(), old(fired), fired, g in w.entries && g in visited[..i], dt, g)
      {
        ghost var report := Visit(visited, i, dt, g, w, old(callbacks), old(fired));
        states, reports := states + [W()], reports + [report];
      }
      TimesPositive(visited, g);
      assert visited[..|visited|] == visited;
    }

    /** Any number of frames, each of which comes to target `g` once. If the callbacks leave `g` alone, each
        timer that it has at the start fires as often as `Play` says of it. */
    method PlayFrames(frames: seq<Frame>, ghost g: Target)
      requires Valid() && currentTarget == None && forall k :: 0 <= k < |frames| ==> FrameOk(frames[k], g)
      modifies this
      ensures Valid() && currentTarget == None && callbacks >= old(callbacks)
      ensures LeftAlone(script, old(callbacks), callbacks, g)
              && g in old(hashForTimers) && !old(hashForTimers[g].paused) ==>
                Played(old(W()), old(fired), fired, Lengths(frames), g)
    {
      ghost var w, dts := W(), Lengths(frames);
      ghost var there := g in w.entries && !w.entries[g].paused;
      if there { NothingPlayedYet(w, fired, dts, g); }
      for i := 0 to |frames|
        invariant Valid() && currentTarget == None && callbacks >= old(callbacks)
        invariant there && LeftAlone(script, old(callbacks), callbacks, g) ==>
                    && (g in hashForTimers ==> Sound(timers, hashForTimers[g].timers))
                    && PlayedSoFar(w, W(), old(fired), fired, w.entries[g].timers, dts, i, g)
      {
        ghost var w1, c1, f1 := W(), callbacks, fired;
        ghost var states, reports := Update(frames[i].visited, frames[i].dt, g);
        if there && LeftAlone(script, old(callbacks), callbacks, g) {
          LeftAloneSplits(script, old(callbacks), c1, callbacks, g);
          OneMoreFrame(w, w1, W(), old(fired), f1, fired, dts, i, g);
        }
      }
      if there && LeftAlone(script, old(callbacks), callbacks, g) {
        AllPlayed(w, W(), old(fired), fired, dts, g);
      }
    }

    /** Frame-rate independence in the scheduler: a new timer with an interval makes as many callbacks as are
        due in the time after its first frame, however that time is cut into frames, whatever other targets'
        timers do, if the callbacks leave its target alone. */
    method ScheduleAndPlay(op: Op, first: Frame, frames: seq<Frame>) returns (ghost id: TimerId)
      requires Valid() && currentTarget == None
      requires op.Schedule? && OpOk(op) && op.interval > 0.0 && op.repeat <= UINT_MAX
      requires forall x :: x in timers && timers[x].target == op.target ==> timers[x].key != op.key
      requires if op.target in hashForTimers then !hashForTimers[op.target].paused else !op.paused
      requires FrameOk(first, op.target) && forall k :: 0 <= k < |frames| ==> FrameOk(frames[k], op.target)
      modifies this
      ensures Valid() && currentTarget == None && callbacks >= old(callbacks) && id !in old(timers)
      ensures Sum(Lengths(frames)) >= 0.0
      ensures LeftAlone(script, old(callbacks), callbacks, op.target) ==>
                Fired(fired, id) - Fired(old(fired), id)
                == Capped(op.repeat, Due(op.interval, op.delay, Sum(Lengths(frames))))
    {
      ghost var w := W();
      id := nextId;
      if op.target in w.entries { ListIsSound(w, op.target); }
      NewlyScheduled(w, op);
      assert Known(id, w);
      ScheduleTimer(op);
      FrameRateIndependence(op.target, op.key, op.interval, op.repeat, op.delay, first.dt, Lengths(frames));
      assert Lengths([first] + frames) == [first.dt] + Lengths(frames);
      PlayFrames([first] + frames, op.target);
    }
  }
}