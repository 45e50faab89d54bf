/** Whole frames: what a walk over a target's timers, and one frame after another, make of them while
    the callbacks leave that target alone. */
module SchedulerFrames {
  import opened Wrappers
  import opened Timers
  import opened SchedulerWorld
  import opened SchedulerAlone

  /** The timers of the list exist, and can be updated. */
  ghost predicate Sound(timers: map<TimerId, Timer>, list: seq<TimerId>) {
    forall id :: id in list ==> id in timers && Tickable(timers[id])
  }

  /** Those that are still listed when each has been updated once. */
  function Surviving(timers: map<TimerId, Timer>, list: seq<TimerId>, dt: real): (r: seq<TimerId>)
    requires Sound(timers, list) && dt >= 0.0
    ensures forall id :: id in r <==> id in list && !Tick(timers[id], dt).cancelled
  {
    if list == [] then [] else
      var most, last := list[..|list| - 1], list[|list| - 1];
      Surviving(timers, most, dt) + if Tick(timers[last], dt).cancelled then [] else [last]
  }

  /** The timer has been updated as `Tick` says. */
  ghost predicate HasTicked(t: Timer, id: TimerId, dt: real, timers: map<TimerId, Timer>,
                            before: map<TimerId, nat>, after: map<TimerId, nat>)
    requires Tickable(t) && dt >= 0.0
  {
    var r := Tick(t, dt);
    && Fired(after, id) == Fired(before, id) + r.fired
    && (!r.cancelled ==> id in timers && timers[id] == r.timer)
  }

  ghost predicate Waits(t: Timer, id: TimerId, timers: map<TimerId, Timer>,
                        before: map<TimerId, nat>, after: map<TimerId, nat>)
  {
    Fired(after, id) == Fired(before, id) && id in timers && timers[id] == t
  }

  /** The list of target `g` after `k` turns of the walk that began in the world `w`. */
  ghost predicate ListWalked(w: World, w1: World, k: nat, dt: real, g: Target) {
    && dt >= 0.0 && g in w.entries && k <= |w.entries[g].timers| && Sound(w.timers, w.entries[g].timers)
    && Increasing(w.entries[g].timers) && NoReturn(w, w1)
    && w1.current == Some(g) && g in w1.entries && w1.entries[g].paused == w.entries[g].paused
    && var kept := Surviving(w.timers, w.entries[g].timers[..k], dt);
       && w1.entries[g].timers == kept + w.entries[g].timers[k..]
       && w1.entries[g].timerIndex == |kept|
       && (w1.salvaged <==> w1.entries[g].timers == [])
  }

  /** The timers and their callbacks once the first `k` of the list have been updated. */
  ghost predicate TimersWalked(timers: map<TimerId, Timer>, timers1: map<TimerId, Timer>, before: map<TimerId, nat>,
                               after: map<TimerId, nat>, list: seq<TimerId>, k: nat, dt: real)
    requires Sound(timers, list) && dt >= 0.0
  {
    && (forall j :: 0 <= j < |list| ==>
          if j < k then HasTicked(timers[list[j]], list[j], dt, timers1, before, after)
          else Waits(timers[list[j]], list[j], timers1, before, after))
    && (forall id: TimerId :: id !in list ==> Fired(after, id) == Fired(before, id))
  }

  /** The walk that began in the world `w` has taken `k` turns. */
  ghost predicate Walked(w: World, w1: World, before: map<TimerId, nat>, after: map<TimerId, nat>, k: nat, dt: real,
                         g: Target)
  {
    ListWalked(w, w1, k, dt, g) && TimersWalked(w.timers, w1.timers, before, after, w.entries[g].timers, k, dt)
  }

  lemma SurvivingMore(timers: map<TimerId, Timer>, list: seq<TimerId>, k: nat, dt: real)
    requires Sound(timers, list) && dt >= 0.0 && k < |list|
    ensures Surviving(timers, list[..k + 1], dt)
         == Surviving(timers, list[..k], dt) + if Tick(timers[list[k]], dt).cancelled then [] else [list[k]]
  {
    assert list[..k + 1][..k] == list[..k];
  }

  /** The list after the turn at position `|kept|`. */
  lemma ListAfterTurn(kept: seq<TimerId>, list: seq<TimerId>, k: nat, cancelled: bool)
    requires k < |list|
    ensures (kept + list[k..])[|kept|] == list[k]
    ensures (if cancelled then Without(kept + list[k..], |kept|) else kept + list[k..])
         == kept + (if cancelled then [] else [list[k]]) + list[k + 1..]
  {
  }

  lemma ListWalkedMore(w: World, w1: World, w2: World, k: nat, dt: real, made: nat, g: Target)
    requires ListWalked(w, w1, k, dt, g) && k < |w.entries[g].timers| && AtTurn(w1) && TurnDone(w1, w2, dt, made, g)
    requires var id := w.entries[g].timers[k]; id in w1.timers && w1.timers[id] == w.timers[id]
    ensures TurnId(w1) == w.entries[g].timers[k] && made == Tick(w.timers[TurnId(w1)], dt).fired
    ensures ListWalked(w, w2, k + 1, dt, g)
  {
    var list := w.entries[g].timers;
    SurvivingMore(w.timers, list, k, dt);
    ListAfterTurn(Surviving(w.timers, list[..k], dt), list, k, Tick(w.timers[list[k]], dt).cancelled);
  }

  predicate Stays(id: TimerId, timers: map<TimerId, Timer>, timers': map<TimerId, Timer>) {
    id in timers && id in timers' && timers'[id] == timers[id]
  }

  /** The timers that are still listed keep their values, but for the one that has its turn. */
  lemma ListedStay(w: World, w1: World, w2: World, k: nat, dt: real, made: nat, g: Target, j: nat)
    requires ListWalked(w, w1, k, dt, g) && k < |w.entries[g].timers| && AtTurn(w1) && TurnDone(w1, w2, dt, made, g)
    requires TurnId(w1) == w.entries[g].timers[k] && j < |w.entries[g].timers| && j != k
    ensures w.entries[g].timers[j] != w.entries[g].timers[k]
    ensures var x := w.entries[g].timers[j];
      (j < k ==> !Tick(w.timers[x], dt).cancelled) ==> Stays(x, w1.timers, w2.timers)
  {
    var list := w.entries[g].timers;
    var x := list[j];
    assert x != list[k];
    if j < k {
      assert x in list[..k];
      assert !Tick(w.timers[x], dt).cancelled ==> x in Surviving(w.timers, list[..k], dt);
    } else {
      assert list[k..][j - k] == x;
    }
  }

  lemma TimersWalkedMore(timers: map<TimerId, Timer>, timers1: map<TimerId, Timer>, timers2: map<TimerId, Timer>,
                         before: map<TimerId, nat>, mid: map<TimerId, nat>, after: map<TimerId, nat>,
                         list: seq<TimerId>, k: nat, dt: real)
    requires Sound(timers, list) && dt >= 0.0 && k < |list| && TimersWalked(timers, timers1, before, mid, list, k, dt)
    requires var r := Tick(timers[list[k]], dt);
      && MoreFired(mid, after, list[k], r.fired)
      && (r.cancelled || (list[k] in timers2 && timers2[list[k]] == r.timer))
    requires forall j :: 0 <= j < |list| && j != k ==>
      && list[j] != list[k]
      && ((j < k ==> !Tick(timers[list[j]], dt).cancelled) ==> Stays(list[j], timers1, timers2))
    ensures TimersWalked(timers, timers2, before, after, list, k + 1, dt)
  {
  }

  lemma WalkedMore(w: World, w1: World, w2: World, before: map<TimerId, nat>, mid: map<TimerId, nat>,
                   after: map<TimerId, nat>, k: nat, dt: real, made: nat, g: Target)
    requires Walked(w, w1, before, mid, k, dt, g) && k < |w.entries[g].timers|
    requires AtTurn(w1) && TurnDone(w1, w2, dt, made, g) && MoreFired(mid, after, TurnId(w1), made)
    ensures Walked(w, w2, before, after, k + 1, dt, g)
  {
    var list := w.entries[g].timers;
    ListWalkedMore(w, w1, w2, k, dt, made, g);
    forall j | 0 <= j < |list| && j != k
      ensures list[j] != list[k]
      ensures (j < k ==> !Tick(w.timers[list[j]], dt).cancelled) ==> Stays(list[j], w1.timers, w2.timers)
    {
      ListedStay(w, w1, w2, k, dt, made, g, j);
    }
    TimersWalkedMore(w.timers, w1.timers, w2.timers, before, mid, after, list, k, dt);
  }

  // ---------------------------------------------------------------- a frame

  /** Each timer that target `g` had has been updated once, those that this cancelled are unlisted, and no
      timer that was gone before has made a callback. */
  ghost predicate FrameDone(w: World, w1: World, before: map<TimerId, nat>, after: map<TimerId, nat>, dt: real,
                            g: Target) {
    && dt >= 0.0 && g in w.entries && Sound(w.timers, w.entries[g].timers) && NoReturn(w, w1)
    && var list := w.entries[g].timers;
       var kept := Surviving(w.timers, list, dt);
       && (if kept == [] then g !in w1.entries
           else g in w1.entries && w1.entries[g].timers == kept && w1.entries[g].paused == w.entries[g].paused)
       && (forall id :: id in list ==> HasTicked(w.timers[id], id, dt, w1.timers, before, after))
       && (forall id: TimerId :: id !in list && id < w.nextId && (id in w.timers ==> w.timers[id].target == g) ==>
             Fired(after, id) == Fired(before, id))
  }

  /** The timers of target `g`, and those that are gone, have made no callbacks. */
  ghost predicate Silent(w: World, before: map<TimerId, nat>, after: map<TimerId, nat>, g: Target) {
    forall id: TimerId :: id < w.nextId && (id in w.timers ==> w.timers[id].target == g) ==>
      Fired(after, id) == Fired(before, id)
  }

  lemma WalkEnds(w: World, w1: World, before: map<TimerId, nat>, after: map<TimerId, nat>, dt: real, g: Target)
    requires g in w.entries && Walked(w, w1, before, after, |w.entries[g].timers|, dt, g)
    ensures FrameDone(w, Left(w1), before, after, dt, g)
  {
    var list := w.entries[g].timers;
    assert list[..|list|] == list && list[|list|..] == [];
    forall id | id in list ensures HasTicked(w.timers[id], id, dt, w1.timers, before, after) {
      var j :| 0 <= j < |list| && list[j] == id;
    }
  }

  lemma WalkBegins(w: World, w1: World, fired: map<TimerId, nat>, dt: real, g: Target)
    requires Table(w) && g in w.entries && w.current == Some(g) && !w.salvaged && dt >= 0.0
    requires w.entries[g].timers != [] && w1 == w.(entries := w.entries[g := w.entries[g].(timerIndex := 0)])
    ensures Walked(w, w1, fired, fired, 0, dt, g)
  {
    assert Filed(g, w);
    var list := w.entries[g].timers;
    assert list[..0] == [] && [] + list[0..] == list;
    forall id | id in list ensures id in w.timers && Tickable(w.timers[id]) {
      assert Belongs(id, g, w.timers) && Known(id, w);
    }
  }

  /** The turn of another target's timer leaves everybody of target `g` silent. */
  lemma SilentMore(w: World, w1: World, before: map<TimerId, nat>, mid: map<TimerId, nat>, after: map<TimerId, nat>,
                   id: TimerId, made: nat, g: Target)
    requires Silent(w, before, mid, g) && Alike(w, w1, g) && MoreFired(mid, after, id, made)
    requires id in w1.timers && w1.timers[id].target != g
    ensures Silent(w, before, after, g)
  {
  }

  lemma AlikeThen(w: World, w1: World, w2: World, g: Target)
    requires Alike(w, w1, g) && Alike(w1, w2, g)
    ensures Alike(w, w2, g)
  {
  }

  /** What a walk over the timers of `target` makes of the timers of target `g`. */
  ghost predicate Walks(w: World, w1: World, before: map<TimerId, nat>, after: map<TimerId, nat>, k: nat,
                        dt: real, target: Target, g: Target)
  {
    if target == g then Walked(w, w1, before, after, k, dt, g)
    else Alike(w, w1, g) && Silent(w, before, after, g)
  }

  /** While there is a turn to take, the running target has timers. */
  lemma WalksSteady(w: World, w1: World, before: map<TimerId, nat>, after: map<TimerId, nat>, k: nat, dt: real,
                    target: Target, g: Target)
    requires Walks(w, w1, before, after, k, dt, target, g) && w1.current == Some(target) && AtTurn(w1)
    ensures w1.current == Some(g) ==> !w1.salvaged
  {
  }

  lemma WalksOn(w: World, w1: World, w2: World, before: map<TimerId, nat>, mid: map<TimerId, nat>,
                after: map<TimerId, nat>, k: nat, dt: real, made: nat, target: Target, g: Target)
    requires Table(w1) && AtTurn(w1) && w1.current == Some(target) && dt >= 0.0
    requires Walks(w, w1, before, mid, k, dt, target, g) && MoreFired(mid, after, TurnId(w1), made)
    requires TurnTaken(w1, w2, dt, made, g)
    ensures Walks(w, w2, before, after, k + 1, dt, target, g)
  {
    if target == g {
      WalkedMore(w, w1, w2, before, mid, after, k, dt, made, g);
    } else {
      TurnStands(w1);
      SilentMore(w, w1, before, mid, after, TurnId(w1), made, g);
      AlikeThen(w, w1, w2, g);
    }
  }

  /** The same, if the callbacks from number `from` to `now` leave `g` alone. */
  ghost predicate WalksSo(w: World, w1: World, before: map<TimerId, nat>, after: map<TimerId, nat>, k: nat, dt: real,
                          target: Target, script: nat -> seq<Op>, from: nat, now: nat, g: Target)
  {
    now >= from && (LeftAlone(script, from, now, g) ==> Walks(w, w1, before, after, k, dt, target, g))
  }

  lemma WalksSoOn(w: World, w1: World, w2: World, before: map<TimerId, nat>, mid: map<TimerId, nat>,
                  after: map<TimerId, nat>, k: nat, dt: real, target: Target, script: nat -> seq<Op>, from: nat,
                  c1: nat, c2: nat, g: Target)
    requires Table(w1) && AtTurn(w1) && w1.current == Some(target) && dt >= 0.0 && c1 <= c2
    requires WalksSo(w, w1, before, mid, k, dt, target, script, from, c1, g)
    requires MoreFired(mid, after, TurnId(w1), c2 - c1)
    requires LeftAlone(script, c1, c2, g) && (w1.current == Some(g) ==> !w1.salvaged) ==>
               TurnTaken(w1, w2, dt, c2 - c1, g)
    ensures WalksSo(w, w2, before, after, k + 1, dt, target, script, from, c2, g)
  {
    if LeftAlone(script, from, c2, g) {
      LeftAloneSplits(script, from, c1, c2, g);
      WalksSteady(w, w1, before, mid, k, dt, target, g);
      WalksOn(w, w1, w2, before, mid, after, k, dt, c2 - c1, target, g);
    }
  }

  /** What a walk that has taken all its turns has made of the timers of target `g`. */
  ghost predicate WalkOver(w: World, w1: World, before: map<TimerId, nat>, after: map<TimerId, nat>, dt: real,
                           target: Target, g: Target)
  {
    if target == g then g in w.entries && Walked(w, w1, before, after, |w.entries[g].timers|, dt, g)
    else Alike(w, w1, g) && Silent(w, before, after, g)
  }

  lemma WalksEnd(w: World, w1: World, before: map<TimerId, nat>, after: map<TimerId, nat>, k: nat, dt: real,
                 target: Target, g: Target)
    requires Walks(w, w1, before, after, k, dt, target, g) && target in w1.entries
    requires w1.entries[target].timerIndex >= |w1.entries[target].timers|
    ensures WalkOver(w, w1, before, after, dt, target, g)
  {
  }

  /** What a finished walk over the timers of `target` means for target `g`. */
  ghost predicate Ticked(w: World, w1: World, before: map<TimerId, nat>, after: map<TimerId, nat>, dt: real,
                         target: Target, g: Target)
  {
    if target == g then FrameDone(w, w1, before, after, dt, g)
    else Alike(w, w1, g) && Silent(w, before, after, g)
  }

  lemma WalkLeaves(w: World, w1: World, w2: World, before: map<TimerId, nat>, after: map<TimerId, nat>, dt: real,
                   target: Target, g: Target)
    requires w.current == None && target in w.entries && w1 == w.(current := Some(target), salvaged := false)
    requires w2.current == Some(target) && target in w2.entries
    requires WalkOver(w1, w2, before, after, dt, target, g)
    ensures Ticked(w, Left(w2), before, after, dt, target, g)
  {
    if target == g {
      WalkEnds(w1, w2, before, after, dt, g);
    }
  }

  // ---------------------------------------------------------------- a frame among others

  /** Some entries have been visited, target `g` among them or not yet. */
  ghost predicate Framed(w: World, w1: World, before: map<TimerId, nat>, after: map<TimerId, nat>, done: bool, dt: real,
                         g: Target)
  {
    if done then FrameDone(w, w1, before, after, dt, g) else Alike(w, w1, g) && Silent(w, before, after, g)
  }

  lemma {:induction false} SurvivingAlike(a: map<TimerId, Timer>, b: map<TimerId, Timer>, list: seq<TimerId>, dt: real)
    requires Sound(a, list) && Sound(b, list) && dt >= 0.0 && forall id :: id in list ==> a[id] == b[id]
    ensures Surviving(a, list, dt) == Surviving(b, list, dt)
  {
    if list != [] {
      SurvivingAlike(a, b, list[..|list| - 1], dt);
    }
  }

  lemma SilentThen(w: World, w1: World, before: map<TimerId, nat>, mid: map<TimerId, nat>, after: map<TimerId, nat>,
                   g: Target)
    requires Alike(w, w1, g) && Silent(w, before, mid, g) && Silent(w1, mid, after, g)
    ensures Silent(w, before, after, g)
  {
    forall id: TimerId | id < w.nextId && (id in w.timers ==> w.timers[id].target == g)
      ensures Fired(after, id) == Fired(before, id)
    {
      assert id in w1.timers ==> w1.timers[id].target == g;
    }
  }

  /** The listed timers of a target exist, belong to it, and can be updated. */
  lemma ListIsSound(w: World, g: Target)
    requires Table(w) && g in w.entries
    ensures Sound(w.timers, w.entries[g].timers)
    ensures forall id :: id in w.entries[g].timers ==> w.timers[id].target == g && id < w.nextId
  {
    assert Filed(g, w);
    forall id | id in w.entries[g].timers
      ensures id in w.timers && Tickable(w.timers[id]) && w.timers[id].target == g && id < w.nextId
    {
      assert Belongs(id, g, w.timers) && Known(id, w);
    }
  }

  /** The visit of `g` itself. */
  lemma FramedBy(w: World, w1: World, w2: World, before: map<TimerId, nat>, mid: map<TimerId, nat>,
                 after: map<TimerId, nat>,
                 dt: real, g: Target)
    requires Table(w) && g in w.entries && Alike(w, w1, g) && Silent(w, before, mid, g)
    requires FrameDone(w1, w2, mid, after, dt, g)
    ensures FrameDone(w, w2, before, after, dt, g)
  {
    var list := w.entries[g].timers;
    ListIsSound(w, g);
    assert forall id :: id in list ==> id in w.timers && w1.timers[id] == w.timers[id];
    SurvivingAlike(w.timers, w1.timers, list, dt);
    forall id | id in list ensures HasTicked(w.timers[id], id, dt, w2.timers, before, after) {
      assert HasTicked(w1.timers[id], id, dt, w2.timers, mid, after);
    }
    forall id: TimerId | id !in list && id < w.nextId && (id in w.timers ==> w.timers[id].target == g)
      ensures Fired(after, id) == Fired(before, id)
    {
      assert id in w1.timers ==> w1.timers[id].target == g;
    }
  }

  /** A later visit of another target. */
  lemma FramedStill(w: World, w1: World, w2: World, before: map<TimerId, nat>, mid: map<TimerId, nat>,
                    after: map<TimerId, nat>,
                    dt: real, g: Target)
    requires Table(w) && FrameDone(w, w1, before, mid, dt, g) && Alike(w1, w2, g) && Silent(w1, mid, after, g)
    ensures FrameDone(w, w2, before, after, dt, g)
  {
    var list := w.entries[g].timers;
    ListIsSound(w, g);
    forall id | id in list ensures HasTicked(w.timers[id], id, dt, w2.timers, before, after) {
      assert HasTicked(w.timers[id], id, dt, w1.timers, before, mid);
      TickStaysTickable(w.timers[id], dt);
      assert id in w1.timers ==> w1.timers[id].target == g;
    }
    forall id: TimerId | id !in list && id < w.nextId && (id in w.timers ==> w.timers[id].target == g)
      ensures Fired(after, id) == Fired(before, id)
    {
      assert id in w1.timers ==> w1.timers[id].target == g;
    }
  }

  /** One more visit, of an entry that is there and not paused. */
  lemma FramedMore(w: World, w1: World, w2: World, before: map<TimerId, nat>, mid: map<TimerId, nat>,
                   after: map<TimerId, nat>, done: bool, dt: real, target: Target, g: Target)
    requires Table(w) && Framed(w, w1, before, mid, done, dt, g) && Ticked(w1, w2, mid, after, dt, target, g)
    requires target == g ==> !done && g in w.entries
    ensures Framed(w, w2, before, after, done || target == g, dt, g)
  {
    if target == g {
      FramedBy(w, w1, w2, before, mid, after, dt, g);
    } else if done {
      FramedStill(w, w1, w2, before, mid, after, dt, g);
    } else {
      SilentThen(w, w1, before, mid, after, g);
      AlikeThen(w, w1, w2, g);
    }
  }

  /** What became of the timers of `target` when its entry was visited. */
  ghost predicate VisitReported(w: World, w1: World, target: Target, report: Option<Pass>) {
    if target in w.entries && !w.entries[target].paused
    then
      && report.Some? && report.value.listed == w.entries[target].timers
      && WalkReport(report.value, report.value.listed)
      && forall id :: id in report.value.dropped && target in w1.entries ==> id !in w1.entries[target].timers
    else
      report == None && w1 == w.(salvaged := w1.salvaged)
  }

  /** The frame comes to `g` once, and `g` is not paused. */
  ghost predicate Comes(visited: seq<Target>, w: World, g: Target) {
    Times(visited, g) == 1 && (g in w.entries ==> !w.entries[g].paused)
  }

  lemma VisitedOnce(visited: seq<Target>, i: nat, g: Target)
    requires i < |visited|
    ensures g in visited[..i + 1] <==> g in visited[..i] || visited[i] == g
    ensures Times(visited, g) == 1 && visited[i] == g ==> g !in visited[..i]
  {
    assert visited[..i + 1] == visited[..i] + [visited[i]];
    TimesAt(visited, i, g);
    TimesConcat(visited[..i], visited[i + 1..], g);
    TimesPositive(visited[..i], g);
  }

  // ---------------------------------------------------------------- frame after frame

  /** A call of `update`: the entries it comes to, and the time since the last one. */
  datatype Frame = Frame(visited: seq<Target>, dt: real)

  ghost predicate FrameOk(f: Frame, g: Target) {
    f.dt >= 0.0 && Times(f.visited, g) == 1
  }

  function Lengths(frames: seq<Frame>): (r: seq<real>)
    ensures |r| == |frames| && forall k :: 0 <= k < |r| ==> r[k] == frames[k].dt
  {
    seq(|frames|, k requires 0 <= k < |frames| => frames[k].dt)
  }

  /** The callbacks that a timer of target `g` will still make in the frames to come. */
  ghost function StillToFire(w: World, id: TimerId, dts: seq<real>, g: Target): nat
    requires g in w.entries ==> Sound(w.timers, w.entries[g].timers)
    requires forall k :: 0 <= k < |dts| ==> dts[k] >= 0.0
  {
    if g in w.entries && id in w.entries[g].timers then Play(w.timers[id], dts).fired else 0
  }

  /** One frame makes as many of those callbacks as it takes away. */
  lemma FramePlays(w: World, w1: World, before: map<TimerId, nat>, after: map<TimerId, nat>, id: TimerId,
                   dts: seq<real>, g: Target)
    requires Table(w) && Table(w1) && dts != [] && forall k :: 0 <= k < |dts| ==> dts[k] >= 0.0
    requires id < w.nextId && (id in w.timers ==> w.timers[id].target == g)
    requires Framed(w, w1, before, after, g in w.entries, dts[0], g)
    ensures g in w.entries ==> Sound(w.timers, w.entries[g].timers)
    ensures g in w1.entries ==> Sound(w1.timers, w1.entries[g].timers)
    ensures Fired(before, id) + StillToFire(w, id, dts, g) == Fired(after, id) + StillToFire(w1, id, dts[1..], g)
  {
    if g in w.entries {
      ListIsSound(w, g);
      if id in w.entries[g].timers {
        assert HasTicked(w.timers[id], id, dts[0], w1.timers, before, after);
      }
    }
    if g in w1.entries {
      ListIsSound(w1, g);
    }
  }

  /** What the frames so far have made of the timers in `list`, those of target `g` in the world `w`. */
  ghost predicate PlayedSoFar(w: World, w1: World, before: map<TimerId, nat>, after: map<TimerId, nat>,
                              list: seq<TimerId>, dts: seq<real>, i: nat, g: Target)
    requires i <= |dts| && forall k :: 0 <= k < |dts| ==> dts[k] >= 0.0
    requires Sound(w.timers, list) && (g in w1.entries ==> Sound(w1.timers, w1.entries[g].timers))
  {
    && NoReturn(w, w1) && (g in w1.entries ==> !w1.entries[g].paused)
    && forall id :: id in list ==>
         Fired(after, id) + StillToFire(w1, id, dts[i..], g) == Fired(before, id) + Play(w.timers[id], dts).fired
  }

  lemma NothingPlayedYet(w: World, fired: map<TimerId, nat>, dts: seq<real>, g: Target)
    requires Table(w) && g in w.entries && !w.entries[g].paused && forall k :: 0 <= k < |dts| ==> dts[k] >= 0.0
    ensures Sound(w.timers, w.entries[g].timers) && PlayedSoFar(w, w, fired, fired, w.entries[g].timers, dts, 0, g)
  {
    ListIsSound(w, g);
    assert dts[0..] == dts;
  }

  lemma OneMoreFrame(w: World, w1: World, w2: World, before: map<TimerId, nat>, mid: map<TimerId, nat>,
                     after: map<TimerId, nat>, dts: seq<real>, i: nat, g: Target)
    requires Table(w) && Table(w1) && Table(w2) && g in w.entries
    requires i < |dts| && forall k :: 0 <= k < |dts| ==> dts[k] >= 0.0
    requires Sound(w.timers, w.entries[g].timers) && (g in w1.entries ==> Sound(w1.timers, w1.entries[g].timers))
    requires PlayedSoFar(w, w1, before, mid, w.entries[g].timers, dts, i, g)
    requires Framed(w1, w2, mid, after, g in w1.entries, dts[i], g)
    ensures g in w2.entries ==> Sound(w2.timers, w2.entries[g].timers)
    ensures PlayedSoFar(w, w2, before, after, w.entries[g].timers, dts, i + 1, g)
  {
    var list := w.entries[g].timers;
    if g in w2.entries { ListIsSound(w2, g); }
    ListIsSound(w, g);
    assert dts[i..][0] == dts[i] && dts[i..][1..] == dts[i + 1..];
    forall id | id in list
      ensures Fired(after, id) + StillToFire(w2, id, dts[i + 1..], g)
           == Fired(before, id) + Play(w.timers[id], dts).fired
    {
      FramePlays(w1, w2, mid, after, id, dts[i..], g);
    }
  }

  /** Each timer that target `g` had has fired as often as `Play` says of it. */
  ghost predicate Played(w: World, before: map<TimerId, nat>, after: map<TimerId, nat>, dts: seq<real>, g: Target) {
    && g in w.entries && Sound(w.timers, w.entries[g].timers) && (forall k :: 0 <= k < |dts| ==> dts[k] >= 0.0)
    && forall id :: id in w.entries[g].timers ==> Fired(after, id) == Fired(before, id) + Play(w.timers[id], dts).fired
  }

  lemma AllPlayed(w: World, w1: World, before: map<TimerId, nat>, after: map<TimerId, nat>, dts: seq<real>, g: Target)
    requires g in w.entries && Sound(w.timers, w.entries[g].timers) && forall k :: 0 <= k < |dts| ==> dts[k] >= 0.0
    requires g in w1.entries ==> Sound(w1.timers, w1.entries[g].timers)
    requires PlayedSoFar(w, w1, before, after, w.entries[g].timers, dts, |dts|, g)
    ensures Played(w, before, after, dts, g)
  {
    assert dts[|dts|..] == [];
  }

  /** A newly scheduled timer is on the list of its target as it was set up. */
  lemma NewlyScheduled(w: World, op: Op)
    requires Table(w) && op.Schedule? && OpOk(op)
    requires op.target in w.entries ==> forall id :: id in w.entries[op.target].timers && id in w.timers ==>
      w.timers[id].key != op.key
    ensures var w1 := Scheduled(w, op);
      && op.target in w1.entries && w.nextId in w1.entries[op.target].timers && w.nextId in w1.timers
      && w1.timers[w.nextId] == Setup(op.target, op.key, op.interval, op.repeat, op.delay)
      && w1.entries[op.target].paused == (if op.target in w.entries then w.entries[op.target].paused else op.paused)
  {
    if op.target in w.entries {
      assert Filed(op.target, w);
      ListedFacts(w, op.target);
      var list := w.entries[op.target].timers;
      var k := KeyIndex(list, w.timers, op.key);
      assert forall j :: 0 <= j < |list| ==> list[j] in list;
      assert (list + [w.nextId])[|list|] == w.nextId;
    }
  }
}
