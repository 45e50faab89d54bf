/** What each call of the scheduler's interface means for the timers of its target and for all the others. */
module SchedulerCalls {
  import opened Wrappers
  import opened Timers
  import opened SchedulerWorld
  import opened SchedulerAlone

  /** Every target but `g` has what it had. */
  ghost predicate OthersAlike(w: World, w': World, g: Target) {
    && w'.current == w.current && w.nextId <= w'.nextId
    && forall h: Target :: h != g ==> Alike(w, w', h)
  }

  predicate HasKey(timers: map<TimerId, Timer>, id: TimerId, key: string) {
    id in timers && timers[id].key == key
  }

  /** The timers of the list that do not have the key, in their order. */
  function OtherKeys(list: seq<TimerId>, timers: map<TimerId, Timer>, key: string): seq<TimerId> {
    if list == [] then []
    else (if HasKey(timers, list[0], key) then [] else [list[0]]) + OtherKeys(list[1..], timers, key)
  }

  /** The list of target `g` has become `kept`, whose timers are as they were; of the others only the one that
      is running still exists, as it was. An entry without timers is gone, or the target that is being
      walked has been marked as salvaged. */
  ghost predicate KeepsOnly(w: World, w': World, g: Target, kept: seq<TimerId>)
    requires g in w.entries
  {
    && OthersAlike(w, w', g)
    && (g in w'.entries <==> kept != [] || w.current == Some(g))
    && (g in w'.entries ==>
          && w'.entries[g].timers == kept
          && w'.entries[g].paused == w.entries[g].paused && w'.entries[g].currentTimer == w.entries[g].currentTimer)
    && (w.current == Some(g) ==> (w'.salvaged <==> w.salvaged || kept == []))
    && forall id :: id in w.timers && w.timers[id].target == g ==>
         && (id in w'.timers <==> id in kept || w.entries[g].currentTimer == Some(id))
         && (id in w'.timers ==> w'.timers[id] == w.timers[id])
  }

  /** `unschedule`. */
  ghost predicate Unschedules(w: World, w': World, key: string, g: Target) {
    if g == NO_TARGET || key == "" || g !in w.entries then w' == w
    else KeepsOnly(w, w', g, OtherKeys(w.entries[g].timers, w.timers, key))
  }

  /** `unscheduleAllForTarget`. */
  ghost predicate UnschedulesAllOf(w: World, w': World, g: Target) {
    if g == NO_TARGET || g !in w.entries then w' == w else KeepsOnly(w, w', g, [])
  }

  /** `unscheduleAll`: what is left is the timer that is running, in the entry that is being walked. */
  ghost predicate UnschedulesAll(w: World, w': World) {
    && w'.current == w.current
    && (forall g :: g in w'.entries ==> w.current == Some(g) && w'.entries[g].timers == [] && w'.salvaged)
    && (forall id :: id in w'.timers ==> Running(w') && id == RunningId(w'))
  }

  /** A timer of target `g` with this key is listed. */
  predicate IsScheduled(w: World, key: string, g: Target) {
    g in w.entries && exists id :: id in w.entries[g].timers && HasKey(w.timers, id, key)
  }

  /** `schedule`: a timer with the key has a new interval, and nothing else is changed; without one, a new timer
      with a clock that has not started stands at the end of the list. */
  ghost predicate Schedules(w: World, w': World, op: Op)
    requires op.Schedule?
  {
    var g := op.target;
    && OthersAlike(w, w', g) && g in w'.entries && w'.salvaged == w.salvaged
    && if IsScheduled(w, op.key, g) then
         && w'.entries == w.entries && w'.timers.Keys == w.timers.Keys && w'.nextId == w.nextId
         && forall id :: id in w.timers ==>
              w'.timers[id] == if id in w.entries[g].timers && w.timers[id].key == op.key
                               then w.timers[id].(interval := op.interval) else w.timers[id]
       else
         && w'.nextId > w.nextId && w.nextId in w'.timers && w.nextId !in w.timers
         && w'.timers == w.timers[w.nextId := w'.timers[w.nextId]]
         && w'.entries[g].timers == (if g in w.entries then w.entries[g].timers else []) + [w.nextId]
         && w'.entries[g].paused == (if g in w.entries then w.entries[g].paused else op.paused)
         && (g in w.entries ==> w'.entries[g].currentTimer == w.entries[g].currentTimer)
         && var t := w'.timers[w.nextId];
            && t.target == g && t.key == op.key && t.interval == op.interval && t.delay == op.delay
            && t.repeat == op.repeat && (t.runForever <==> op.repeat == REPEAT_FOREVER)
            && t.elapsed == -1.0 && (t.useDelay <==> op.delay > 0.0)
  }

  /** `pauseTarget` and `resumeTarget`. */
  ghost predicate Pauses(w: World, w': World, g: Target, paused: bool) {
    && OthersAlike(w, w', g) && w'.timers == w.timers && w'.nextId == w.nextId && w'.salvaged == w.salvaged
    && w'.entries.Keys == w.entries.Keys
    && (g in w.entries ==>
          w'.entries[g].paused == paused && w'.entries[g].(paused := w.entries[g].paused) == w.entries[g])
  }

  /** What the call promises. */
  ghost predicate Performs(w: World, w': World, op: Op) {
    && Table(w) && w'.current == w.current
    && match op
       case Schedule(_, _, _, _, _, _) => Schedules(w, w', op)
       case Unschedule(key, g) => Unschedules(w, w', key, g)
       case UnscheduleTarget(g) => UnschedulesAllOf(w, w', g)
       case UnscheduleAll => UnschedulesAll(w, w')
       case PauseTarget(g) => Pauses(w, w', g, true)
       case ResumeTarget(g) => Pauses(w, w', g, false)
  }

  /** The calls have been carried out one after the other. */
  ghost predicate CarriedOut(w: World, w': World, ops: seq<Op>)
    decreases |ops|
  {
    if ops == [] then w' == w
    else
      var most, last := ops[..|ops| - 1], ops[|ops| - 1];
      exists w1 :: CarriedOut(w, w1, most) && Performs(w1, w', last)
  }

  // ---------------------------------------------------------------- the calls keep what they promise

  lemma {:induction false} OtherKeysAll(list: seq<TimerId>, timers: map<TimerId, Timer>, key: string)
    requires forall i :: 0 <= i < |list| ==> !HasKey(timers, list[i], key)
    ensures OtherKeys(list, timers, key) == list
  {
    if list != [] {
      OtherKeysAll(list[1..], timers, key);
    }
  }

  lemma {:induction false} OtherKeysWithout(list: seq<TimerId>, timers: map<TimerId, Timer>, key: string, i: nat)
    requires i < |list| && forall j :: 0 <= j < |list| ==> (HasKey(timers, list[j], key) <==> j == i)
    ensures OtherKeys(list, timers, key) == Without(list, i)
  {
    if i == 0 {
      OtherKeysAll(list[1..], timers, key);
    } else {
      OtherKeysWithout(list[1..], timers, key, i - 1);
    }
  }

  /** With distinct keys, the timer that is found is the only one. */
  lemma OnlyOneFound(list: seq<TimerId>, timers: map<TimerId, Timer>, key: string)
    requires Increasing(list) && (forall id :: id in list ==> id in timers) && KeysDistinct(list, timers)
    ensures var i := KeyIndex(list, timers, key);
      OtherKeys(list, timers, key) == if i < |list| then Without(list, i) else list
  {
    var i := KeyIndex(list, timers, key);
    forall j | 0 <= j < |list| ensures HasKey(timers, list[j], key) <==> j == i {
      assert list[j] in list;
      if i < j {
        assert list[i] in list && list[i] < list[j];
      }
    }
    if i < |list| {
      OtherKeysWithout(list, timers, key, i);
    } else {
      OtherKeysAll(list, timers, key);
    }
  }

  lemma {:induction false} OtherKeysMembers(list: seq<TimerId>, timers: map<TimerId, Timer>, key: string)
    ensures forall id :: id in OtherKeys(list, timers, key) <==> id in list && !HasKey(timers, id, key)
  {
    if list != [] {
      OtherKeysMembers(list[1..], timers, key);
      assert forall id :: id in list <==> id == list[0] || id in list[1..];
    }
  }

  /** After `unschedule` no timer of the target has the key. */
  lemma NoLongerScheduled(w: World, w': World, key: string, g: Target)
    requires Unschedules(w, w', key, g) && Table(w) && g != NO_TARGET && key != ""
    ensures !IsScheduled(w', key, g)
  {
    if g in w.entries && g in w'.entries {
      OtherKeysMembers(w.entries[g].timers, w.timers, key);
      assert Filed(g, w);
      forall id | id in w'.entries[g].timers ensures !HasKey(w'.timers, id, key) {
        assert Belongs(id, g, w.timers);
      }
    }
  }

  /** What `Dropping` does to its own target. */
  lemma DroppingKeepsOnly(w: World, g: Target, e': Entry, ids: set<TimerId>)
    requires Table(w) && g in w.entries && ids <= Listed(w.entries[g])
    requires e'.paused == w.entries[g].paused && e'.currentTimer == w.entries[g].currentTimer
    requires forall id :: id in e'.timers <==> id in w.entries[g].timers && id !in ids
    ensures KeepsOnly(w, Dropping(w, g, e', ids), g, e'.timers)
  {
    var e, w' := w.entries[g], Dropping(w, g, e', ids);
    assert Filed(g, w);
    forall h: Target | h != g ensures Alike(w, w', h) { DroppingAlike(w, g, e', ids, h); }
    forall id | id in w.timers && w.timers[id].target == g
      ensures id in w'.timers <==> id in e'.timers || e.currentTimer == Some(id)
      ensures id in w'.timers ==> w'.timers[id] == w.timers[id]
    {
      assert Known(id, w);
    }
  }

  lemma KeepingAll(w: World, g: Target)
    requires Table(w) && g in w.entries
    ensures KeepsOnly(w, w, g, w.entries[g].timers)
  {
    assert Filed(g, w);
    forall id | id in w.timers && w.timers[id].target == g
      ensures id in w.entries[g].timers || w.entries[g].currentTimer == Some(id)
    {
      assert Known(id, w);
    }
  }

  lemma UnscheduledUnschedules(w: World, key: string, g: Target)
    requires Table(w)
    ensures Unschedules(w, Unscheduled(w, key, g), key, g)
  {
    if g != NO_TARGET && key != "" && g in w.entries {
      var list := w.entries[g].timers;
      assert Filed(g, w);
      ListedFacts(w, g);
      OnlyOneFound(list, w.timers, key);
      if Finds(w, key, g) {
        var i := Found(w, key, g);
        WithoutFacts(list, i);
        assert list[i] in list;
        DroppingKeepsOnly(w, g, ErasedEntry(w.entries[g], i), {list[i]});
      } else {
        KeepingAll(w, g);
      }
    }
  }

  lemma ClearedUnschedulesAllOf(w: World, g: Target)
    requires Table(w) && g in w.entries
    ensures UnschedulesAllOf(w, Cleared(w, g), g)
  {
    assert Filed(g, w);
    DroppingKeepsOnly(w, g, ClearedEntry(w.entries[g]), Listed(w.entries[g]));
  }

  lemma ScheduledSchedules(w: World, op: Op)
    requires op.Schedule? && OpOk(op) && Table(w)
    ensures Schedules(w, Scheduled(w, op), op)
  {
    var g, w' := op.target, Scheduled(w, op);
    forall h: Target | h != g ensures Alike(w, w', h) { ScheduledAlike(w, op, h); }
    assert Known(w.nextId, w);
    if g in w.entries {
      var e := w.entries[g];
      assert Filed(g, w);
      ListedFacts(w, g);
      var k := KeyIndex(e.timers, w.timers, op.key);
      if k < |e.timers| {
        assert e.timers[k] in e.timers;
      } else {
        assert forall j :: 0 <= j < |e.timers| ==> w.timers[e.timers[j]].key != op.key;
      }
    } else {
      assert [] + [w.nextId] == [w.nextId];
    }
  }

  lemma PausedPauses(w: World, g: Target, paused: bool)
    ensures Pauses(w, Paused(w, g, paused), g, paused)
  {
  }

  // ---------------------------------------------------------------- callbacks that unschedule their target

  /** The last call unschedules target `g`. */
  predicate EndsUnscheduling(ops: seq<Op>, g: Target) {
    ops != [] && (ops[|ops| - 1] == UnscheduleTarget(g) || ops[|ops| - 1].UnscheduleAll?)
  }

  lemma {:induction false} CarriedOutInside(w: World, w': World, ops: seq<Op>)
    requires CarriedOut(w, w', ops)
    ensures w'.current == w.current
    decreases |ops|
  {
    if ops != [] {
      var w1 :| CarriedOut(w, w1, ops[..|ops| - 1]) && Performs(w1, w', ops[|ops| - 1]);
      CarriedOutInside(w, w1, ops[..|ops| - 1]);
    }
  }

  /** A callback whose last call unschedules the target being walked leaves it salvaged. */
  lemma UnscheduledIsSalvaged(w: World, w': World, ops: seq<Op>)
    requires CarriedOut(w, w', ops) && w.current.Some? && EndsUnscheduling(ops, w.current.value) && Table(w')
    ensures w'.salvaged
  {
    var g, last := w.current.value, ops[|ops| - 1];
    var w1 :| CarriedOut(w, w1, ops[..|ops| - 1]) && Performs(w1, w', last);
    CarriedOutInside(w, w1, ops[..|ops| - 1]);
    assert Filed(g, w1) && g in w'.entries;
  }

  lemma NothingElseLeft(w: World, w': World)
    requires Table(w') && w'.current == w.current
    requires forall g :: g in w'.entries && g != NO_TARGET ==> w'.current == Some(g) && w'.entries[g].timers == []
    ensures UnschedulesAll(w, w')
  {
    forall g | g in w'.entries ensures w.current == Some(g) && w'.entries[g].timers == [] && w'.salvaged {
      assert Filed(g, w');
    }
    forall id | id in w'.timers ensures Running(w') && id == RunningId(w') {
      assert Known(id, w');
    }
  }

  lemma OneMoreCarriedOut(w: World, w1: World, w2: World, ops: seq<Op>, k: nat)
    requires k < |ops| && CarriedOut(w, w1, ops[..k]) && Performs(w1, w2, ops[k])
    ensures CarriedOut(w, w2, ops[..k + 1])
  {
    assert ops[..k + 1][..k] == ops[..k];
  }

  /** The callback numbered `n` has left its state behind. */
  ghost predicate LeftBehind(script: nat -> seq<Op>, a: map<nat, World>, a': map<nat, World>, n: nat, g: Target) {
    n in a' && a' == a[n := a'[n]] && (EndsUnscheduling(script(n), g) ==> a'[n].salvaged)
  }

  /** None of the callbacks from `from` on and below `until` has left target `g`, which is being walked, without
      timers; in particular none of them ended by unscheduling it. */
  ghost predicate NoneSalvaged(script: nat -> seq<Op>, a: map<nat, World>, from: int, until: int, g: Target) {
    forall n: nat :: from <= n < until ==> n in a && !a[n].salvaged && !EndsUnscheduling(script(n), g)
  }

  lemma LeavesBehind(script: nat -> seq<Op>, a: map<nat, World>, n: nat, w: World, w1: World)
    requires CarriedOut(w, w1, script(n)) && w.current.Some? && Table(w1)
    ensures LeftBehind(script, a, a[n := w1], n, w.current.value)
  {
    if EndsUnscheduling(script(n), w.current.value) {
      UnscheduledIsSalvaged(w, w1, script(n));
    }
  }

  /** A callback that ends by unscheduling its target is the last. */
  lemma LastIfUnscheduling(script: nat -> seq<Op>, a: map<nat, World>, from: nat, until: nat, g: Target)
    requires NoneSalvaged(script, a, from, until - 1, g) && until > from && EndsUnscheduling(script(from), g)
    ensures until == from + 1
  {
  }

  /** What the callbacks below `n` left behind is still recorded. */
  ghost predicate SameBefore(a: map<nat, World>, a': map<nat, World>, n: nat) {
    forall k :: k < n && k in a ==> k in a' && a'[k] == a[k]
  }

  /** A catch-up loop has come from callback number `from` to `now`; its last callback, if it has ended, is the only
      one that may have left the target salvaged. */
  ghost predicate Salvages(script: nat -> seq<Op>, a: map<nat, World>, a': map<nat, World>, from: nat, now: nat,
                           ended: bool, g: Target)
  {
    NoneSalvaged(script, a', from, if ended then now - 1 else now, g) && SameBefore(a, a', from)
  }

  lemma SalvagesMore(script: nat -> seq<Op>, a: map<nat, World>, a1: map<nat, World>, a2: map<nat, World>, from: nat,
                     now: nat, ended: bool, g: Target)
    requires Salvages(script, a, a1, from, now, false, g) && from <= now
    requires LeftBehind(script, a1, a2, now, g) && (!ended ==> !a2[now].salvaged)
    ensures Salvages(script, a, a2, from, now + 1, ended, g)
  {
  }

  /** A catch-up loop with the timer as `t` after callback number `n` is over: the timer has reached its cap or used
      up its time, or the callback has left the target salvaged. */
  predicate LoopIsOver(t: Timer, interval: real, a: map<nat, World>, n: nat) {
    n in a && (Exhausted(t) || t.elapsed < interval || t.elapsed <= 0.0 || a[n].salvaged)
  }

  lemma TimeIsUsedUp(t: Timer, interval: real, a: map<nat, World>, n: nat)
    requires n in a && t.elapsed < interval
    ensures LoopIsOver(t, interval, a, n)
  {
  }

  /** An update without delay is to make a callback. */
  predicate IsDue(t: Timer, dt: real) {
    t.elapsed >= 0.0 && !t.useDelay && (t.interval > 0.0 ==> t.elapsed + dt >= t.interval)
  }

  lemma StrideReached(t: Timer)
    ensures t.elapsed >= Stride(t) <==> !(t.interval > 0.0 && t.interval > t.elapsed)
  {
  }

  /** An update ends the delay. */
  predicate EndsDelay(t: Timer, dt: real) {
    t.elapsed >= 0.0 && t.useDelay && t.elapsed + dt >= t.delay
  }

  /** After the callback at the end of the delay, numbered `n`, there is another one: the repetitions are not used
      up, and the time left reaches the interval that the callback has left. */
  predicate GoesOnDue(t: Timer, dt: real, id: TimerId, a: map<nat, World>, n: nat) {
    && !Exhausted(Fires(t, 0.0, false))
    && n in a && id in a[n].timers
    && (a[n].timers[id].interval > 0.0 ==> a[n].timers[id].interval <= t.elapsed + dt - t.delay)
  }
}
