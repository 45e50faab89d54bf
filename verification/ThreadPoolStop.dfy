/** What `stop`, and with it the destructor, does to the tasks that are still queued: it lets them be run,
    or it deletes some, and which of the two can be told from the state in which it is called. */
module ThreadPoolStop {
  import opened Wrappers
  import opened ThreadPool
  import opened ThreadPoolBooks
  import opened ThreadPoolWakeup
  import opened ThreadPoolTasks
  import opened ThreadPoolPaths

  /** Some thread will look at the queue once more: it is not just about to look at `_isDone` only. */
  predicate Attentive(w: Worker) {
    !w.NoThread? && !w.PredTest?
  }

  /** A pool may be stopped in this state without losing a task. */
  predicate Attended(s: Pool) {
    s.queue == [] || exists q :: 0 <= q < |s.workers| && Attentive(s.workers[q])
  }

  /** The pool is being stopped, and as long as a task is queued thread `q` will look at the queue. */
  predicate Watched(s: Pool, q: nat) {
    && s.isDone && InStop(s.main)
    && (s.queue != [] ==> q < |s.workers| && Attentive(s.workers[q]) && !GaveUp(s.workers[q]))
  }

  lemma WorkKeepsWatch(s: Pool, i: nat, q: nat)
    requires Books(s) && Watched(s, q) && WorkerEnabled(s, i)
    ensures Watched(WorkerStep(s, i), q)
    ensures var t := WorkerStep(s, i); t.deleted == s.deleted && t.pushed == s.pushed
  {
    if i == q {
      assert SlotOk(s, q);
    }
  }

  lemma StopKeepsWatch(s: Pool, c: Choice, q: nat)
    requires Books(s) && Watched(s, q) && MainEnabled(s, c)
    ensures Watched(StopStep(s, c), q)
    ensures StopStep(s, c).deleted == s.deleted && StopStep(s, c).pushed == s.pushed
  {
    if s.queue != [] {
      assert SlotOk(s, q);
    }
  }

  /** As long as somebody watches, a stop deletes nothing. */
  lemma {:induction false} WatchedPath(s: Pool, t: Pool, acts: seq<Action>, may: Action -> bool, q: nat)
    requires Books(s) && Watched(s, q) && IsPath(s, t, acts, may)
    ensures t.deleted == s.deleted && t.pushed == s.pushed && Watched(t, q)
    decreases |acts|
  {
    if acts != [] {
      var a := acts[0];
      StepKeepsBooks(s, a);
      match a {
        case Work(i) => WorkKeepsWatch(s, i, q);
        case Spurious(i) =>
        case Invoke(_) =>
        case MainMove(c) => StopKeepsWatch(s, c, q);
      }
      WatchedPath(Apply(s, a), t, acts[1..], may, q);
    }
  }

  lemma StoppingDeletesNothing(s: Pool, t: Pool, acts: seq<Action>)
    requires Books(s) && s.main.AtRest? && Attended(s)
    requires acts != [] && acts[0] == Invoke(Stop) && IsPath(s, t, acts, Anything)
    ensures t.deleted == s.deleted && t.pushed == s.pushed
  {
    var q := 0;
    if s.queue != [] {
      q :| 0 <= q < |s.workers| && Attentive(s.workers[q]);
      assert SlotOk(s, q);
    }
    StepKeepsBooks(s, acts[0]);
    WatchedPath(Apply(s, acts[0]), t, acts[1..], Anything, q);
  }

  // ---------------------------------------------------------------- the other direction

  /** All threads have ended, and the rest of the slots are joined. */
  lemma {:induction false} EndedAreJoined(s: Pool) returns (t: Pool)
    requires Books(s) && s.main.StopJoin?
    requires forall i :: 0 <= i < |s.workers| ==> s.workers[i].NoThread? || s.workers[i].Exited?
    ensures Reaches(s, t, Inside) && Sized(t) && t.main.StopDelete? && t.queue == s.queue && t.deleted == s.deleted
    decreases s.cfg.maxNum - s.main.next
  {
    var c := Choice(false, 0);
    var i := s.main.next;
    if i < s.cfg.maxNum {
      assert SlotOk(s, i);
    }
    var u := Apply(s, MainMove(c));
    if u.main.StopDelete? {
      t := u;
      ReachesSelf(u, Inside);
    } else {
      StepKeepsBooks(s, MainMove(c));
      t := EndedAreJoined(u);
    }
    ReachesBy(s, MainMove(c), t, Inside);
  }

  /** Thread `q`, which has polled, sees `_isDone` and leaves. */
  lemma PollerLeaves(s: Pool, q: nat) returns (t: Pool)
    requires Books(s) && s.main.StopNotify? && q < |s.workers| && s.workers[q].PredTest?
    ensures Reaches(s, t, Inside) && Books(t) && t.main == s.main && t.queue == s.queue && t.deleted == s.deleted
    ensures t.workers == s.workers[q := Exited] && t.mutex == None
  {
    assert SlotOk(s, q);
    var s1 := WorkerStep(s, q);
    var s2 := WorkerStep(s1, q);
    t := WorkerStep(s2, q);
    WorkerKeepsBooks(s, q);
    WorkerKeepsBooks(s1, q);
    WorkerKeepsBooks(s2, q);
    ReachesSelf(t, Inside);
    ReachesBy(s2, Work(q), t, Inside);
    ReachesBy(s1, Work(q), t, Inside);
    ReachesBy(s, Work(q), t, Inside);
  }

  /** If nobody watches, all threads can be gone before the main thread joins them. */
  lemma AllCanLeave(s: Pool) returns (t: Pool)
    requires Books(s) && s.main.StopNotify? && forall i :: 0 <= i < |s.workers| ==> !Attentive(s.workers[i])
    ensures Reaches(s, t, Inside) && Books(t) && t.main == s.main && t.queue == s.queue && t.deleted == s.deleted
    ensures t.mutex == None && forall i :: 0 <= i < |t.workers| ==> t.workers[i].NoThread? || t.workers[i].Exited?
  {
    if s.mutex.Some? {
      var q := s.mutex.value;
      assert SlotOk(s, q);
      forall i | 0 <= i < |s.workers| && i != q ensures s.workers[i].NoThread? {
        assert SlotOk(s, i);
      }
      t := PollerLeaves(s, q);
    } else {
      forall i | 0 <= i < |s.workers| ensures s.workers[i].NoThread? {
        assert SlotOk(s, i);
      }
      t := s;
      ReachesSelf(s, Inside);
    }
  }

  /** The first task of the queue, when all threads have been joined. */
  lemma FirstIsDeleted(s: Pool) returns (t: Pool)
    requires Sized(s) && s.main.StopDelete? && s.queue != []
    ensures Reaches(s, t, Inside) && |t.deleted| > |s.deleted|
  {
    var move := MainMove(Choice(false, 0));
    t := Apply(s, move);
    ReachesSelf(t, Inside);
    ReachesBy(s, move, t, Inside);
  }

  /** Then a queued task is deleted. */
  lemma UnattendedLoses(s: Pool) returns (t: Pool)
    requires Books(s) && s.main.AtRest? && !Attended(s)
    ensures Reaches(CallStep(s, Stop), t, Inside) && |t.deleted| > |s.deleted|
  {
    var move := MainMove(Choice(false, 0));
    var s1 := CallStep(s, Stop);
    CallKeepsBooks(s, Stop);
    var s2 := AllCanLeave(s1);
    var s3 := Apply(s2, move);
    StepKeepsBooks(s2, move);
    var s4 := EndedAreJoined(s3);
    t := FirstIsDeleted(s4);
    ReachesThen(s3, s4, t, Inside);
    ReachesBy(s2, move, t, Inside);
    ReachesThen(s1, s2, t, Inside);
  }

  /** Some run that begins with a call of `stop` deletes a task. */
  ghost predicate StopCanDelete(s: Pool) {
    exists t, acts :: acts != [] && acts[0] == Invoke(Stop) && IsPath(s, t, acts, Anything) && t.deleted != s.deleted
  }

  lemma LossIsARun(s: Pool, t: Pool)
    requires Sized(s) && s.main.AtRest? && Reaches(CallStep(s, Stop), t, Inside) && t.deleted != s.deleted
    ensures StopCanDelete(s)
  {
    ReachesWeaken(CallStep(s, Stop), t, Inside, Anything);
    var acts :| IsPath(CallStep(s, Stop), t, acts, Anything);
    assert ([Invoke(Stop)] + acts)[1..] == acts;
    assert IsPath(s, t, [Invoke(Stop)] + acts, Anything);
  }

  /** A stop can delete a task if and only if, when it is called, a task is queued and every thread that
      there is has just found the queue empty and not yet looked at `_isDone`. */
  lemma StopLosesExactlyIfUnattended(s: Pool)
    requires Books(s) && s.main.AtRest?
    ensures StopCanDelete(s) <==> !Attended(s)
  {
    if !Attended(s) {
      var t := UnattendedLoses(s);
      LossIsARun(s, t);
    } else if StopCanDelete(s) {
      var t, acts :| acts != [] && acts[0] == Invoke(Stop) && IsPath(s, t, acts, Anything) && t.deleted != s.deleted;
      StoppingDeletesNothing(s, t, acts);
    }
  }

  // ---------------------------------------------------------------- when somebody attends

  /** A pool of two threads or more can always be stopped: only one thread can be about to look at `_isDone`. */
  lemma TwoThreadsAttend(s: Pool)
    requires Books(s) && s.main.AtRest? && s.cfg.minNum >= 2
    ensures Attended(s)
  {
    var q := if s.mutex.Some? then s.mutex.value else 0;
    var i := Unnamed(s.inited, [q]);
    assert SlotOk(s, i);
  }

  /** So can a pool of one, as long as `stopTasksByType` has not put a task back. */
  lemma NothingPutBackAttends(s: Pool)
    requires Books(s) && Wake(s) && s.main.AtRest? && s.cfg.minNum > 0
    ensures Attended(s)
  {
    if s.queue != [] {
      var i := AwakeServer(s);
    }
  }

  lemma NothingPutBackInARun(c: Config, run: seq<Pool>, acts: seq<Action>, k: nat)
    requires IsRun(c, run, acts) && k < |run| && c.minNum > 0 && NothingPutBack(run) && run[k].main.AtRest?
    ensures Attended(run[k])
  {
    RunKeepsBooks(c, run, acts, k);
    RunKeepsWake(c, run, acts, k);
    NothingPutBackAttends(run[k]);
  }

  lemma StoppedIsEmptyStep(s: Pool, a: Action)
    requires Enabled(s, a) && (s.main.Stopped? ==> s.queue == [])
    ensures Apply(s, a).main.Stopped? ==> Apply(s, a).queue == []
  {
    if a.Work? {
      WorkerMovesOneTask(s, a.slot);
    }
  }

  /** A stopped pool has no tasks left. */
  lemma {:induction false} StoppedIsEmpty(c: Config, run: seq<Pool>, acts: seq<Action>, k: nat)
    requires IsRun(c, run, acts) && k < |run|
    ensures run[k].main.Stopped? ==> run[k].queue == []
  {
    if k > 0 {
      StoppedIsEmpty(c, run, acts, k - 1);
      assert Enabled(run[k - 1], acts[k - 1]);
      StoppedIsEmptyStep(run[k - 1], acts[k - 1]);
    }
  }

  /** The destructor waits for all the functions in the queue: when it returns, each task that had not been
      deleted before it was called has been run. */
  lemma DestructorRunsEveryTask(c: Config, run: seq<Pool>, acts: seq<Action>, lo: nat, hi: nat, x: Task)
    requires IsRun(c, run, acts) && lo < hi < |run| && Attended(run[lo])
    requires acts[lo] == Invoke(Stop) && run[hi].main.Stopped?
    ensures Times(run[hi].ran, x) + Times(run[lo].deleted, x) == Times(run[lo].pushed, x)
  {
    RunKeepsBooks(c, run, acts, lo);
    RunKeepsBooks(c, run, acts, hi);
    RunIsPath(c, run, acts, lo, hi);
    assert Enabled(run[lo], acts[lo]);
    StoppingDeletesNothing(run[lo], run[hi], acts[lo..hi]);
    RunConserves(c, run, acts, hi, x);
    var s := run[hi];
    StoppedIsEmpty(c, run, acts, hi);
    forall i | 0 <= i < |s.workers| ensures HeldBy(s.workers[i]) == None {
      assert SlotOk(s, i);
    }
    NoHolders(s.workers, x);
  }

  lemma PoolsOfTwoLoseNothing(c: Config, run: seq<Pool>, acts: seq<Action>, lo: nat, hi: nat, x: Task)
    requires IsRun(c, run, acts) && lo < hi < |run| && c.minNum >= 2
    requires acts[lo] == Invoke(Stop) && run[hi].main.Stopped?
    ensures Times(run[hi].ran, x) + Times(run[lo].deleted, x) == Times(run[lo].pushed, x)
  {
    RunKeepsBooks(c, run, acts, lo);
    assert Enabled(run[lo], acts[lo]);
    TwoThreadsAttend(run[lo]);
    DestructorRunsEveryTask(c, run, acts, lo, hi, x);
  }
}
