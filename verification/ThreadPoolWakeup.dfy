/** No lost wake-up: although tasks are enqueued outside `_mutex` and the wait predicate itself pops,
    a queued task always has a thread awake to take it, as long as `stopTasksByType` finds nothing
    that it has to put back. */
module ThreadPoolWakeup {
  import opened Wrappers
  import opened ThreadPool
  import opened ThreadPoolBooks

  /** The thread will evaluate the wait predicate without being notified again. */
  predicate WillPoll(w: Worker) {
    w.Woken? || w.PredPop?
  }

  /** Tasks enqueued whose notification is still to come. */
  function Pending(m: Main): nat {
    if m.Notify? then 1 else 0
  }

  /** The tasks `stopTasksByType` has taken out of the queue and will put back. */
  function Kept(m: Main): seq<Task> {
    if m.Sorting? || m.Repush? then m.kept else []
  }

  predicate Joined(m: Main) {
    (m.StopJoin? || m.StopDelete?) && m.joined
  }

  predicate SomeGaveUp(s: Pool) {
    exists i :: 0 <= i < |s.workers| && GaveUp(s.workers[i])
  }

  predicate Wake(s: Pool) {
    && Kept(s.main) == []
    && (SomeBlocked(s) ==> |s.queue| - Pending(s.main) <= Count(s.workers, WillPoll))
    && (forall i :: 0 <= i < |s.workers| && (s.workers[i].PredTest? || s.workers[i].AboutToBlock?) ==>
          |s.queue| <= Pending(s.main))
    && (s.isDone && (SomeGaveUp(s) || Joined(s.main) || s.main.Stopped?) ==> s.queue == [])
  }

  /** How a worker's step moves the queue and its own place. */
  lemma WorkerMoves(s: Pool, i: nat)
    requires Sized(s) && WorkerEnabled(s, i)
    ensures var t, w := WorkerStep(s, i), s.workers[i]; var w' := t.workers[i];
      && t.workers == s.workers[i := w'] && t.main == s.main && t.isDone == s.isDone
      && (t.queue == s.queue || (s.queue != [] && t.queue == s.queue[1..]))
      && (w.PredPop? && s.queue != [] ==> t.queue == s.queue[1..])
      && (w'.Blocked? ==> w.AboutToBlock?)
      && (w'.PredTest? ==> w.PredPop? && s.queue == [])
      && (w'.AboutToBlock? ==> w.PredTest?)
      && (WillPoll(w) ==> WillPoll(w') || w.PredPop?)
      && (GaveUp(w') ==> GaveUp(w) || (w.PredTest? && (s.isDone || s.abort[i])) || (w.AbortCheck? && s.abort[i]))
  {
  }

  lemma WorkerKeepsWake(s: Pool, i: nat)
    requires Books(s) && Wake(s) && WorkerEnabled(s, i)
    ensures Wake(WorkerStep(s, i))
  {
    WorkerMoves(s, i);
    var t := WorkerStep(s, i);
    CountUpdate(s.workers, i, t.workers[i], WillPoll);
    if SomeBlocked(t) && !SomeBlocked(s) {
      assert s.workers[i].AboutToBlock?;
    }
    if SomeGaveUp(t) && !SomeGaveUp(s) {
      assert SlotOk(s, i) && GaveUp(t.workers[i]);
    }
  }

  lemma PushKeepsWake(s: Pool, c: Choice)
    requires Books(s) && Wake(s) && InPush(s.main) && MainEnabled(s, c)
    ensures Wake(PushStep(s, c))
  {
    var t := PushStep(s, c);
    if s.main.Notify? {
      if SomeBlocked(s) { CountUpdate(s.workers, c.wake, Woken, WillPoll); }
      forall i | 0 <= i < |s.workers| ensures !s.workers[i].PredTest? && !s.workers[i].AboutToBlock? {
        assert SlotOk(s, i);
      }
    } else if s.main.Stretch? && s.main.next < s.cfg.maxNum && !s.inited[s.main.next] {
      var i := s.main.next;
      assert SlotOk(s, i);
      CountUpdate(s.workers, i, FirstPop, WillPoll);
      if SomeBlocked(t) {
        var j :| 0 <= j < |t.workers| && t.workers[j].Blocked?;
        assert s.workers[j].Blocked?;
      }
    }
  }

  /** Taking an ended thread out of its slot. */
  lemma JoinKeepsWake(s: Pool, i: nat, m: Main)
    requires Wake(s) && i < |s.workers| && s.workers[i].Exited?
    requires Pending(m) == Pending(s.main) && Kept(m) == [] && !m.Stopped?
    ensures Wake(Put(s, i, NoThread).(main := m))
  {
    var t := Put(s, i, NoThread).(main := m);
    CountUpdate(s.workers, i, NoThread, WillPoll);
    if SomeBlocked(t) {
      var j :| 0 <= j < |t.workers| && t.workers[j].Blocked?;
      assert s.workers[j].Blocked?;
    }
    if SomeGaveUp(t) {
      var j :| 0 <= j < |t.workers| && GaveUp(t.workers[j]);
      assert GaveUp(s.workers[j]);
    }
    assert GaveUp(s.workers[i]);
  }

  lemma WakeAllKeepsWake(s: Pool, m: Main)
    requires Wake(s) && Pending(m) == Pending(s.main) && Kept(m) == [] && !m.Stopped? && !Joined(m)
    ensures Wake(s.(workers := WakeAll(s.workers), main := m))
  {
    var t := s.(workers := WakeAll(s.workers), main := m);
    if SomeGaveUp(t) {
      var j :| 0 <= j < |t.workers| && GaveUp(t.workers[j]);
      assert GaveUp(s.workers[j]);
    }
  }

  lemma ShrinkKeepsWake(s: Pool, c: Choice)
    requires Books(s) && Wake(s) && InShrink(s.main) && MainEnabled(s, c)
    ensures Wake(ShrinkStep(s, c))
  {
    var t := ShrinkStep(s, c);
    if s.main.ShrinkJoin? && s.main.ids != [] {
      JoinKeepsWake(s, s.main.ids[0], t.main);
    } else if s.main.ShrinkNotify? {
      WakeAllKeepsWake(s, t.main);
    }
  }

  lemma StopTasksKeepsWake(s: Pool)
    requires Books(s) && Wake(s) && InStopTasks(s.main) && Kept(StopTasksStep(s).main) == []
    ensures Wake(StopTasksStep(s))
  {
    var t := StopTasksStep(s);
    assert |t.queue| <= |s.queue| && t.workers == s.workers;
  }

  lemma StopKeepsWake(s: Pool, c: Choice)
    requires Books(s) && Wake(s) && InStop(s.main) && MainEnabled(s, c)
    ensures s.cfg.minNum > 0 ==> Wake(StopStep(s, c))
  {
    var t := StopStep(s, c);
    if s.main.StopJoin? && s.main.next < s.cfg.maxNum && s.inited[s.main.next] {
      JoinKeepsWake(s, s.main.next, t.main);
    } else if s.main.StopNotify? {
      WakeAllKeepsWake(s, t.main);
    } else if s.main.StopDelete? {
      CountBounds(s.inited, IsSet);
    }
  }

  /** Stopping finds nobody that has given up: only aborted threads do, and those are joined. */
  lemma NobodyGaveUpAtRest(s: Pool)
    requires Books(s) && s.main.AtRest?
    ensures !SomeGaveUp(s)
  {
    forall i | 0 <= i < |s.workers| ensures !GaveUp(s.workers[i]) { assert SlotOk(s, i); }
  }

  lemma StepKeepsWake(s: Pool, a: Action)
    requires Books(s) && Wake(s) && Enabled(s, a) && s.cfg.minNum > 0
    requires Kept(Apply(s, a).main) == []
    ensures Wake(Apply(s, a))
  {
    match a {
      case Work(i) => WorkerKeepsWake(s, i);
      case Spurious(i) => CountUpdate(s.workers, i, Woken, WillPoll);
      case Invoke(_) => NobodyGaveUpAtRest(s);
      case MainMove(c) =>
        if InPush(s.main) { PushKeepsWake(s, c); }
        else if InShrink(s.main) { ShrinkKeepsWake(s, c); }
        else if InStopTasks(s.main) { StopTasksKeepsWake(s); }
        else { StopKeepsWake(s, c); }
    }
  }

  /** Whenever `stopTasksByType` is called, all tasks it finds queued are of the type it stops. */
  predicate NothingPutBack(run: seq<Pool>) {
    forall k :: 0 <= k < |run| ==> Kept(run[k].main) == []
  }

  lemma {:induction false} RunKeepsWake(c: Config, run: seq<Pool>, acts: seq<Action>, k: nat)
    requires IsRun(c, run, acts) && k < |run| && c.minNum > 0 && NothingPutBack(run)
    ensures Books(run[k]) && Wake(run[k]) && run[k].cfg == c
  {
    RunKeepsBooks(c, run, acts, k);
    if k > 0 {
      RunKeepsWake(c, run, acts, k - 1);
      StepKeepsWake(run[k - 1], acts[k - 1]);
    }
  }

  /** More flags are set than the list names: one of them is not named. */
  lemma {:induction false} Unnamed(b: seq<bool>, ids: seq<nat>) returns (i: nat)
    requires Count(b, IsSet) > |ids|
    ensures i < |b| && b[i] && i !in ids
    decreases ids
  {
    CountBounds(b, IsSet);
    if ids == [] {
      i :| 0 <= i < |b| && b[i];
    } else if ids[0] < |b| {
      CountUpdate(b, ids[0], false, IsSet);
      i := Unnamed(b[ids[0] := false], ids[1..]);
    } else {
      i := Unnamed(b, ids[1..]);
    }
  }

  predicate Live(w: Worker) {
    !w.NoThread? && !w.Exited?
  }

  lemma AwakeServer(s: Pool) returns (i: nat)
    requires Books(s) && Wake(s) && s.cfg.minNum > 0 && s.queue != [] && !s.main.Notify?
    ensures i < |s.workers| && Live(s.workers[i]) && !s.workers[i].Blocked?
  {
    i := Unnamed(s.inited, Marked(s.main));
    assert SlotOk(s, i);
    if s.workers[i].Blocked? {
      CountBounds(s.workers, WillPoll);
      i :| 0 <= i < |s.workers| && WillPoll(s.workers[i]);
    }
  }

  /** The task queue is served: whenever it holds a task whose notification has been sent, some
      thread is alive and not asleep on the condition variable. */
  lemma NoLostWakeup(c: Config, run: seq<Pool>, acts: seq<Action>, k: nat)
    requires IsRun(c, run, acts) && k < |run| && c.minNum > 0 && NothingPutBack(run)
    requires run[k].queue != [] && !run[k].main.Notify?
    ensures exists i :: 0 <= i < |run[k].workers| && Live(run[k].workers[i]) && !run[k].workers[i].Blocked?
  {
    RunKeepsWake(c, run, acts, k);
    var _ := AwakeServer(run[k]);
  }

  // ---------------------------------------------------------------- progress

  /** The number of moves a thread can still make before it pops again. */
  function Rank(w: Worker): nat {
    match w
    case NoThread | Blocked | Exited => 0
    case AboutToBlock => 1
    case PredTest => 3
    case PredPop => 4
    case Woken | RaiseFlag => 5
    case CountIdle => 6
    case Locking => 7
    case Polling | FirstPop => 8
    case AbortCheck => 9
    case Holding(_) => 10
    case UncountIdle(got) => if got.Some? then 11 else 1
    case LowerFlag(got) => if got.Some? then 12 else 2
  }

  function Ranks(ws: seq<Worker>): nat {
    if ws == [] then 0 else Rank(ws[0]) + Ranks(ws[1..])
  }

  lemma {:induction false} RanksUpdate(ws: seq<Worker>, i: nat, w: Worker)
    requires i < |ws|
    ensures Ranks(ws[i := w]) == Ranks(ws) - Rank(ws[i]) + Rank(w)
  {
    if i == 0 {
      assert ws[0 := w][1..] == ws[1..];
    } else {
      assert ws[i := w][1..] == ws[1..][i - 1 := w];
      RanksUpdate(ws[1..], i - 1, w);
    }
  }

  /** A bound on the number of steps the workers can take by themselves. */
  function WorkLeft(s: Pool): nat {
    20 * |s.queue| + Ranks(s.workers)
  }

  lemma WorkerStepsLessen(s: Pool, i: nat)
    requires Sized(s) && WorkerEnabled(s, i)
    ensures WorkLeft(WorkerStep(s, i)) < WorkLeft(s)
  {
    RanksUpdate(s.workers, i, WorkerStep(s, i).workers[i]);
  }

  /** Once no thread can move and the main thread is outside any call, nothing is queued and no
      thread is busy. */
  lemma QuietMeansDone(s: Pool)
    requires Books(s) && Wake(s) && s.cfg.minNum > 0 && s.main.AtRest?
    requires forall i :: !WorkerEnabled(s, i)
    ensures s.queue == []
    ensures forall i :: 0 <= i < |s.workers| ==> s.workers[i].NoThread? || s.workers[i].Blocked?
  {
    NobodyGaveUpAtRest(s);
    if s.mutex.Some? {
      assert SlotOk(s, s.mutex.value);
      assert WorkerEnabled(s, s.mutex.value);
    }
    forall i | 0 <= i < |s.workers| ensures s.workers[i].NoThread? || s.workers[i].Blocked? {
      assert !WorkerEnabled(s, i);
      assert !GaveUp(s.workers[i]);
    }
    if s.queue != [] {
      var _ := AwakeServer(s);
    }
  }
}
