/** Continuations of the pool's life from an arbitrary state. */
module ThreadPoolPaths {
  import opened Wrappers
  import opened ThreadPool
  import opened ThreadPoolBooks
  import opened ThreadPoolWakeup

  /** The actions lead from `s` to `t`, and `may` holds of each of them. */
  ghost predicate IsPath(s: Pool, t: Pool, acts: seq<Action>, may: Action -> bool)
    decreases |acts|
  {
    if acts == [] then s == t
    else Enabled(s, acts[0]) && may(acts[0]) && IsPath(Apply(s, acts[0]), t, acts[1..], may)
  }

  ghost predicate Reaches(s: Pool, t: Pool, may: Action -> bool) {
    exists acts :: IsPath(s, t, acts, may)
  }

  /** What happens inside a call: no other call begins. */
  predicate Inside(a: Action) {
    !a.Invoke?
  }

  /** Anything but a call of `stopTasksByType`. */
  predicate Plain(a: Action) {
    a.Invoke? ==> !a.call.StopTasksByType?
  }

  predicate Anything(a: Action) {
    true
  }

  lemma {:induction false} PathConcat(s: Pool, t: Pool, u: Pool, a: seq<Action>, b: seq<Action>, may: Action -> bool)
    requires IsPath(s, t, a, may) && IsPath(t, u, b, may)
    ensures IsPath(s, u, a + b, may)
    decreases |a|
  {
    if a == [] {
      assert a + b == b;
    } else {
      assert (a + b)[1..] == a[1..] + b;
      PathConcat(Apply(s, a[0]), t, u, a[1..], b, may);
    }
  }

  lemma ReachesSelf(s: Pool, may: Action -> bool)
    ensures Reaches(s, s, may)
  {
    assert IsPath(s, s, [], may);
  }

  lemma ReachesBy(s: Pool, a: Action, t: Pool, may: Action -> bool)
    requires Enabled(s, a) && may(a) && Reaches(Apply(s, a), t, may)
    ensures Reaches(s, t, may)
  {
    var acts :| IsPath(Apply(s, a), t, acts, may);
    assert ([a] + acts)[1..] == acts;
    assert IsPath(s, t, [a] + acts, may);
  }

  lemma ReachesThen(s: Pool, t: Pool, u: Pool, may: Action -> bool)
    requires Reaches(s, t, may) && Reaches(t, u, may)
    ensures Reaches(s, u, may)
  {
    var a :| IsPath(s, t, a, may);
    var b :| IsPath(t, u, b, may);
    PathConcat(s, t, u, a, b, may);
  }

  lemma {:induction false} PathWeaken(s: Pool, t: Pool, acts: seq<Action>, may: Action -> bool, might: Action -> bool)
    requires IsPath(s, t, acts, may) && forall a :: may(a) ==> might(a)
    ensures IsPath(s, t, acts, might)
    decreases |acts|
  {
    if acts != [] {
      PathWeaken(Apply(s, acts[0]), t, acts[1..], may, might);
    }
  }

  lemma ReachesWeaken(s: Pool, t: Pool, may: Action -> bool, might: Action -> bool)
    requires Reaches(s, t, may) && forall a :: may(a) ==> might(a)
    ensures Reaches(s, t, might)
  {
    var acts :| IsPath(s, t, acts, may);
    PathWeaken(s, t, acts, may, might);
  }

  lemma {:induction false} PathKeepsBooks(s: Pool, t: Pool, acts: seq<Action>, may: Action -> bool)
    requires Books(s) && IsPath(s, t, acts, may)
    ensures Books(t) && t.cfg == s.cfg
    decreases |acts|
  {
    if acts != [] {
      StepKeepsBooks(s, acts[0]);
      StepKeepsConfig(s, acts[0]);
      PathKeepsBooks(Apply(s, acts[0]), t, acts[1..], may);
    }
  }

  // ---------------------------------------------------------------- runs and paths

  function States(s: Pool, acts: seq<Action>): (r: seq<Pool>)
    ensures |r| == |acts| + 1 && r[0] == s
    decreases |acts|
  {
    if acts == [] || !Enabled(s, acts[0]) then [s] + seq(|acts|, i => s)
    else [s] + States(Apply(s, acts[0]), acts[1..])
  }

  lemma {:induction false} PathIsRun(s: Pool, t: Pool, acts: seq<Action>, may: Action -> bool)
    requires IsPath(s, t, acts, may)
    ensures var run := States(s, acts);
      && run[|acts|] == t
      && forall k {:trigger acts[k]} :: 0 <= k < |acts| ==>
           Enabled(run[k], acts[k]) && run[k + 1] == Apply(run[k], acts[k]) && may(acts[k])
    decreases |acts|
  {
    if acts != [] {
      var run, rest := States(s, acts), States(Apply(s, acts[0]), acts[1..]);
      PathIsRun(Apply(s, acts[0]), t, acts[1..], may);
      forall k | 0 <= k < |acts|
        ensures Enabled(run[k], acts[k]) && run[k + 1] == Apply(run[k], acts[k]) && may(acts[k])
      {
        if k > 0 {
          assert acts[1..][k - 1] == acts[k] && run[k] == rest[k - 1] && run[k + 1] == rest[k];
        }
      }
    }
  }

  lemma {:induction false} RunIsPath(c: Config, run: seq<Pool>, acts: seq<Action>, lo: nat, hi: nat)
    requires IsRun(c, run, acts) && lo <= hi < |run|
    ensures IsPath(run[lo], run[hi], acts[lo..hi], Anything)
    decreases hi - lo
  {
    if lo < hi {
      assert Enabled(run[lo], acts[lo]) && run[lo + 1] == Apply(run[lo], acts[lo]);
      assert acts[lo..hi][1..] == acts[lo + 1..hi] && acts[lo..hi][0] == acts[lo];
      RunIsPath(c, run, acts, lo + 1, hi);
    }
  }

  // ---------------------------------------------------------------- letting the workers move

  /** Every thread is asleep on the condition variable, or the slot is free. */
  predicate AllAsleep(s: Pool) {
    forall i :: 0 <= i < |s.workers| ==> s.workers[i].Blocked? || s.workers[i].NoThread?
  }

  /** What the workers do not touch. */
  predicate SameButWork(s: Pool, t: Pool) {
    && t.main == s.main && t.cfg == s.cfg && t.deleted == s.deleted && t.pushed == s.pushed && t.isDone == s.isDone
    && t.inited == s.inited && t.initedNum == s.initedNum && t.abort == s.abort
  }

  lemma WorkerLeavesRest(s: Pool, i: nat)
    requires Sized(s) && WorkerEnabled(s, i)
    ensures SameButWork(s, WorkerStep(s, i)) && (s.queue == [] ==> WorkerStep(s, i).queue == [])
  {
  }

  /** The workers alone, until none of them can move. */
  lemma {:induction false} WorkersSettle(s: Pool) returns (t: Pool)
    requires Books(s)
    ensures Reaches(s, t, Inside) && Books(t) && SameButWork(s, t) && (s.queue == [] ==> t.queue == [])
    ensures forall i :: !WorkerEnabled(t, i)
    decreases WorkLeft(s)
  {
    if i: nat :| WorkerEnabled(s, i) {
      WorkerStepsLessen(s, i);
      WorkerKeepsBooks(s, i);
      WorkerLeavesRest(s, i);
      t := WorkersSettle(WorkerStep(s, i));
      ReachesBy(s, Work(i), t, Inside);
    } else {
      t := s;
      ReachesSelf(s, Inside);
    }
  }

  /** When no worker can move, nobody holds the mutex, and each thread sleeps or has ended. */
  lemma SettledStands(s: Pool)
    requires Books(s) && forall i :: !WorkerEnabled(s, i)
    ensures s.mutex == None
    ensures forall i :: 0 <= i < |s.workers| ==> s.workers[i].NoThread? || s.workers[i].Blocked? || s.workers[i].Exited?
    ensures !s.isDone && Marked(s.main) == [] ==> AllAsleep(s)
  {
    if s.mutex.Some? {
      assert SlotOk(s, s.mutex.value);
      assert WorkerEnabled(s, s.mutex.value);
    }
    forall i | 0 <= i < |s.workers|
      ensures s.workers[i].NoThread? || s.workers[i].Blocked? || s.workers[i].Exited?
      ensures !s.isDone && Marked(s.main) == [] ==> !s.workers[i].Exited?
    {
      assert !WorkerEnabled(s, i) && SlotOk(s, i);
    }
  }

  // ---------------------------------------------------------------- calls return

  function UpTo(n: nat, next: nat): nat {
    if next < n then n - next else 0
  }

  /** A bound on the steps that the main thread still takes in its call. */
  function MainLeft(s: Pool): nat {
    var n, q := s.cfg.maxNum, |s.queue|;
    match s.main
    case AtRest | Stopped => 0
    case Notify => 1
    case Enqueue(_) => 2
    case ShrinkJoin(ids, _) => |ids| + 3
    case ShrinkNotify(ids, _) => |ids| + 4
    case ShrinkMark(next, ids, _) => 3 * UpTo(n, next) + |ids| + 4
    case ShrinkScan(next, ids, _) => 3 * UpTo(n, next) + |ids| + 5
    case Stretch(next, _, _) => UpTo(n, next) + 3
    case CheckQueue(_) => 3 * n + 6
    case ReadIdle(_) => 3 * n + 7
    case Deleting => q + 1
    case Repush(_, kept, _) => |kept| + 1
    case Sorting(_, kept, _) => 2 * q + |kept| + 3
    case StopDelete(_) => q + 1
    case StopJoin(next, _) => UpTo(n, next) + q + 2
    case StopNotify => n + q + 3
  }

  lemma PushReturns(s: Pool, c: Choice)
    requires Sized(s) && InPush(s.main) && MainEnabled(s, c)
    ensures MainLeft(PushStep(s, c)) < MainLeft(s)
  {
  }

  lemma ShrinkReturns(s: Pool, c: Choice)
    requires Sized(s) && InShrink(s.main) && MainEnabled(s, c) && (s.main.ShrinkMark? ==> s.main.next < s.cfg.maxNum)
    ensures MainLeft(ShrinkStep(s, c)) < MainLeft(s)
  {
  }

  lemma StopTasksReturns(s: Pool)
    requires InStopTasks(s.main)
    ensures MainLeft(StopTasksStep(s)) < MainLeft(s)
  {
  }

  lemma StopReturns(s: Pool, c: Choice)
    requires Sized(s) && InStop(s.main) && MainEnabled(s, c)
    ensures MainLeft(StopStep(s, c)) < MainLeft(s)
  {
  }

  lemma WorkLeavesMain(s: Pool, i: nat)
    requires Sized(s) && WorkerEnabled(s, i)
    ensures WorkerStep(s, i).main == s.main && MainLeft(WorkerStep(s, i)) <= MainLeft(s)
  {
    WorkerMoves(s, i);
  }

  /** Inside a call each step of a thread lowers the measure; spurious wake-ups aside, the threads can only
      go on until the call has returned, and by `CallsNeverDeadlock` they do go on. */
  lemma CallsReturn(s: Pool, a: Action)
    requires Books(s) && Enabled(s, a) && (a.Work? || a.MainMove?)
    requires !s.main.AtRest? && !s.main.Stopped?
    ensures var t := Apply(s, a);
      MainLeft(t) < MainLeft(s) || (MainLeft(t) <= MainLeft(s) && t.main == s.main && WorkLeft(t) < WorkLeft(s))
  {
    if a.Work? {
      WorkLeavesMain(s, a.slot);
      WorkerStepsLessen(s, a.slot);
    } else if InPush(s.main) {
      PushReturns(s, a.choice);
    } else if InShrink(s.main) {
      ShrinkReturns(s, a.choice);
    } else if InStopTasks(s.main) {
      StopTasksReturns(s);
    } else {
      StopReturns(s, a.choice);
    }
  }
}
