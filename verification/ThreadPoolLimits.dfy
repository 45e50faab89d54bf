/** Two runs of a pool of one in which a task that `stopTasksByType` has put back without a notification
    is stranded, and even deleted. */
module ThreadPoolLimits {
  import opened Wrappers
  import opened ThreadPool
  import opened ThreadPoolBooks
  import opened ThreadPoolWakeup
  import opened ThreadPoolStranding

  lemma Extend(c: Config, run: seq<Pool>, acts: seq<Action>, a: Action) returns (run': seq<Pool>, acts': seq<Action>)
    requires IsRun(c, run, acts) && Enabled(run[|acts|], a)
    ensures IsRun(c, run', acts') && run'[|acts'|] == Apply(run[|acts|], a) && acts' == acts + [a]
    ensures run' == run + [Apply(run[|acts|], a)]
  {
    run' := run + [Apply(run[|acts|], a)];
    acts' := acts + [a];
    forall k | 0 <= k < |acts'| ensures Enabled(run'[k], acts'[k]) && run'[k + 1] == Apply(run'[k], acts'[k]) {
      if k < |acts| { assert acts'[k] == acts[k]; }
    }
  }

  /** Fixed pools of `n` threads, at rest, as `newSingleThreadPool` and `newFixedThreadPool` build them. */
  function Fixed(n: nat): Config {
    Config(n, n, true, 2, 2)
  }

  function OneWorker(w: Worker, idle: bool, idleNum: int, held: bool, queue: seq<Task>, m: Main): Pool {
    Pool(Fixed(1), [w], [false], [idle], [true], idleNum, 1, false, if held then Some(0) else None,
         queue, m, [Task(0, Default)], [], [])
  }

  /** The worker finds the queue empty, twice, while `stopTasksByType` has the task aside. */
  lemma WorkerFindsNothing(run: seq<Pool>, acts: seq<Action>, m: Main) returns (run': seq<Pool>, acts': seq<Action>)
    requires IsRun(Fixed(1), run, acts) && run[|acts|] == OneWorker(FirstPop, false, 0, false, [], m)
    ensures IsRun(Fixed(1), run', acts') && run'[|acts'|] == OneWorker(PredTest, true, 1, true, [], m)
    ensures acts' == acts + seq(5, i => Work(0))
  {
    run', acts' := Extend(Fixed(1), run, acts, Work(0));
    assert run'[|acts'|] == OneWorker(Locking, false, 0, false, [], m);
    run', acts' := Extend(Fixed(1), run', acts', Work(0));
    assert run'[|acts'|] == OneWorker(CountIdle, false, 0, true, [], m);
    run', acts' := Extend(Fixed(1), run', acts', Work(0));
    assert run'[|acts'|] == OneWorker(RaiseFlag, false, 1, true, [], m);
    run', acts' := Extend(Fixed(1), run', acts', Work(0));
    assert run'[|acts'|] == OneWorker(PredPop, true, 1, true, [], m);
    run', acts' := Extend(Fixed(1), run', acts', Work(0));
  }

  lemma WorkerFallsAsleep(run: seq<Pool>, acts: seq<Action>, m: Main) returns (run': seq<Pool>, acts': seq<Action>)
    requires IsRun(Fixed(1), run, acts) && run[|acts|] == OneWorker(FirstPop, false, 0, false, [], m)
    ensures IsRun(Fixed(1), run', acts') && run'[|acts'|] == OneWorker(Blocked, true, 1, false, [], m)
    ensures acts' == acts + seq(7, i => Work(0))
  {
    run', acts' := WorkerFindsNothing(run, acts, m);
    run', acts' := Extend(Fixed(1), run', acts', Work(0));
    assert run'[|acts'|] == OneWorker(AboutToBlock, true, 1, true, [], m);
    run', acts' := Extend(Fixed(1), run', acts', Work(0));
  }

  lemma OnePush() returns (run: seq<Pool>, acts: seq<Action>)
    ensures IsRun(Fixed(1), run, acts)
    ensures run[|acts|] == OneWorker(FirstPop, false, 0, false, [Task(0, Default)], AtRest)
    ensures acts == [Invoke(Push(Default)), HERE_NOW, HERE_NOW]
  {
    run, acts := [Init(Fixed(1))], [];
    run, acts := Extend(Fixed(1), run, acts, Invoke(Push(Default)));
    run, acts := Extend(Fixed(1), run, acts, HERE_NOW);
    assert run[|acts|] == OneWorker(FirstPop, false, 0, false, [Task(0, Default)], Notify);
    run, acts := Extend(Fixed(1), run, acts, HERE_NOW);
  }

  /** A push, and a `stopTasksByType` of another type up to where it has the task aside. */
  lemma TaskAside() returns (run: seq<Pool>, acts: seq<Action>)
    ensures IsRun(Fixed(1), run, acts)
    ensures run[|acts|] == OneWorker(FirstPop, false, 0, false, [], Sorting(Network, [Task(0, Default)], 0))
    ensures acts == [Invoke(Push(Default)), HERE_NOW, HERE_NOW, Invoke(StopTasksByType(Network)), HERE_NOW]
  {
    var t := Task(0, Default);
    run, acts := OnePush();
    run, acts := Extend(Fixed(1), run, acts, Invoke(StopTasksByType(Network)));
    assert run[|acts|] == OneWorker(FirstPop, false, 0, false, [t], Sorting(Network, [], 0));
    run, acts := Extend(Fixed(1), run, acts, HERE_NOW);
    assert [t][1..] == [] && [] + [t] == [t];
  }

  /** One push and one `stopTasksByType` of another type can strand the task in a pool of one. */
  lemma StopTasksByTypeCanStrand() returns (run: seq<Pool>, acts: seq<Action>)
    ensures IsRun(Fixed(1), run, acts) && Stranded(run[|acts|])
    ensures acts == [Invoke(Push(Default)), HERE_NOW, HERE_NOW, Invoke(StopTasksByType(Network)), HERE_NOW]
                    + seq(7, i => Work(0)) + [HERE_NOW, HERE_NOW, HERE_NOW]
  {
    var t := Task(0, Default);
    run, acts := TaskAside();
    run, acts := WorkerFallsAsleep(run, acts, Sorting(Network, [t], 0));
    run, acts := Extend(Fixed(1), run, acts, HERE_NOW);
    assert run[|acts|] == OneWorker(Blocked, true, 1, false, [], Repush(Network, [t], 0));
    run, acts := Extend(Fixed(1), run, acts, HERE_NOW);
    assert [t][1..] == [] && [] + [t] == [t];
    assert run[|acts|] == OneWorker(Blocked, true, 1, false, [t], Repush(Network, [], 0));
    run, acts := Extend(Fixed(1), run, acts, HERE_NOW);
  }

  /** The pool of one while it is being stopped. */
  function Ending(w: Worker, idle: bool, idleNum: int, held: bool, queue: seq<Task>, deleted: seq<Task>,
                  m: Main): Pool {
    Pool(Fixed(1), [w], [false], [idle], [!w.NoThread?], idleNum, if w.NoThread? then 0 else 1, true,
         if held then Some(0) else None, queue, m, [Task(0, Default)], [], deleted)
  }

  /** The worker, which had polled before the task was put back, sees `_isDone` and leaves. */
  lemma WorkerLeaves(run: seq<Pool>, acts: seq<Action>) returns (run': seq<Pool>, acts': seq<Action>)
    requires IsRun(Fixed(1), run, acts)
    requires run[|acts|] == Ending(PredTest, true, 1, true, [Task(0, Default)], [], StopNotify)
    ensures IsRun(Fixed(1), run', acts') && acts' == acts + [Work(0), Work(0), Work(0)]
    ensures run'[|acts'|] == Ending(Exited, false, 0, false, [Task(0, Default)], [], StopNotify)
  {
    var queue := [Task(0, Default)];
    run', acts' := Extend(Fixed(1), run, acts, Work(0));
    assert run'[|acts'|] == Ending(LowerFlag(None), true, 1, true, queue, [], StopNotify);
    run', acts' := Extend(Fixed(1), run', acts', Work(0));
    assert run'[|acts'|] == Ending(UncountIdle(None), false, 1, true, queue, [], StopNotify);
    run', acts' := Extend(Fixed(1), run', acts', Work(0));
  }

  /** The task is queued again after the worker has polled, and before it looks at `_isDone`. */
  lemma PutBackUnseen() returns (run: seq<Pool>, acts: seq<Action>)
    ensures IsRun(Fixed(1), run, acts)
    ensures run[|acts|] == OneWorker(PredTest, true, 1, true, [Task(0, Default)], AtRest)
    ensures acts == [Invoke(Push(Default)), HERE_NOW, HERE_NOW, Invoke(StopTasksByType(Network)), HERE_NOW]
                    + seq(5, i => Work(0)) + [HERE_NOW, HERE_NOW, HERE_NOW]
  {
    var t := Task(0, Default);
    run, acts := TaskAside();
    run, acts := WorkerFindsNothing(run, acts, Sorting(Network, [t], 0));
    run, acts := Extend(Fixed(1), run, acts, HERE_NOW);
    assert run[|acts|] == OneWorker(PredTest, true, 1, true, [], Repush(Network, [t], 0));
    run, acts := Extend(Fixed(1), run, acts, HERE_NOW);
    assert [t][1..] == [] && [] + [t] == [t];
    assert run[|acts|] == OneWorker(PredTest, true, 1, true, [t], Repush(Network, [], 0));
    run, acts := Extend(Fixed(1), run, acts, HERE_NOW);
  }

  /** The main thread joins the worker. */
  lemma WorkerIsJoined(run: seq<Pool>, acts: seq<Action>) returns (run': seq<Pool>, acts': seq<Action>)
    requires IsRun(Fixed(1), run, acts)
    requires run[|acts|] == Ending(Exited, false, 0, false, [Task(0, Default)], [], StopNotify)
    ensures IsRun(Fixed(1), run', acts') && acts' == acts + [HERE_NOW, HERE_NOW, HERE_NOW]
    ensures run'[|acts'|] == Ending(NoThread, false, 0, false, [Task(0, Default)], [], StopDelete(true))
  {
    var t := Task(0, Default);
    run', acts' := Extend(Fixed(1), run, acts, HERE_NOW);
    assert run'[|acts'|] == Ending(Exited, false, 0, false, [t], [], StopJoin(0, false));
    run', acts' := Extend(Fixed(1), run', acts', HERE_NOW);
    assert run'[|acts'|] == Ending(NoThread, false, 0, false, [t], [], StopJoin(1, true));
    run', acts' := Extend(Fixed(1), run', acts', HERE_NOW);
  }

  lemma PoolIsTakenDown(run: seq<Pool>, acts: seq<Action>) returns (run': seq<Pool>, acts': seq<Action>)
    requires IsRun(Fixed(1), run, acts)
    requires run[|acts|] == Ending(Exited, false, 0, false, [Task(0, Default)], [], StopNotify)
    ensures IsRun(Fixed(1), run', acts') && acts' == acts + seq(5, i => HERE_NOW)
    ensures run'[|acts'|] == Ending(NoThread, false, 0, false, [], [Task(0, Default)], Stopped)
  {
    var t := Task(0, Default);
    run', acts' := WorkerIsJoined(run, acts);
    run', acts' := Extend(Fixed(1), run', acts', HERE_NOW);
    assert [t][1..] == [] && [] + [t] == [t];
    assert run'[|acts'|] == Ending(NoThread, false, 0, false, [], [t], StopDelete(true));
    run', acts' := Extend(Fixed(1), run', acts', HERE_NOW);
  }

  /**
   * One push, one `stopTasksByType` of another type and the destructor can end with the task deleted
   * and never run, although the pool had a thread that nobody had aborted.
   */
  lemma DestructorCanLoseATask() returns (run: seq<Pool>, acts: seq<Action>)
    ensures IsRun(Fixed(1), run, acts) && run[|acts|].main == Stopped
    ensures run[|acts|].pushed == run[|acts|].deleted == [Task(0, Default)] && run[|acts|].ran == []
    ensures forall k :: 0 <= k < |acts| && acts[k].Invoke? ==>
              acts[k].call in [Push(Default), StopTasksByType(Network), Stop]
  {
    run, acts := PutBackUnseen();
    run, acts := Extend(Fixed(1), run, acts, Invoke(Stop));
    assert run[|acts|] == Ending(PredTest, true, 1, true, [Task(0, Default)], [], StopNotify);
    run, acts := WorkerLeaves(run, acts);
    run, acts := PoolIsTakenDown(run, acts);
  }
}
