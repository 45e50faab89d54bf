/** No task is lost, run twice, or both run and deleted, whatever is called in whatever order. */
module ThreadPoolTasks {
  import opened Wrappers
  import opened ThreadPool
  import opened ThreadPoolBooks
  import opened ThreadPoolWakeup

  function HeldBy(w: Worker): Option<Task> {
    match w
    case Holding(t) => Some(t)
    case LowerFlag(got) => got
    case UncountIdle(got) => got
    case _ => None
  }

  /** The number of workers that hold task `x`. */
  function Holders(ws: seq<Worker>, x: Task): nat {
    if ws == [] then 0 else (if HeldBy(ws[0]) == Some(x) then 1 else 0) + Holders(ws[1..], x)
  }

  /** In how many places task `x` is: queued, held by a worker, set aside, run, or deleted. */
  function Places(s: Pool, x: Task): nat {
    Times(s.queue, x) + Holders(s.workers, x) + Times(Kept(s.main), x) + Times(s.ran, x) + Times(s.deleted, x)
  }

  /** The difference between the pushes of a task and its places. */
  function Missing(s: Pool, x: Task): int {
    Times(s.pushed, x) - Places(s, x)
  }

  lemma {:induction false} HoldersUpdate(ws: seq<Worker>, i: nat, w: Worker, x: Task)
    requires i < |ws|
    ensures Holders(ws[i := w], x) ==
            Holders(ws, x) - (if HeldBy(ws[i]) == Some(x) then 1 else 0) + (if HeldBy(w) == Some(x) then 1 else 0)
  {
    if i == 0 {
      assert ws[0 := w][1..] == ws[1..];
    } else {
      assert ws[i := w][1..] == ws[1..][i - 1 := w];
      HoldersUpdate(ws[1..], i - 1, w, x);
    }
  }

  lemma HoldersWakeAll(ws: seq<Worker>, x: Task)
    ensures Holders(WakeAll(ws), x) == Holders(ws, x)
  {
    if ws != [] {
      assert WakeAll(ws)[1..] == WakeAll(ws[1..]);
      HoldersWakeAll(ws[1..], x);
    }
  }

  lemma {:induction false} NoHolders(ws: seq<Worker>, x: Task)
    requires forall i :: 0 <= i < |ws| ==> HeldBy(ws[i]) == None
    ensures Holders(ws, x) == 0
  {
    if ws != [] {
      assert HeldBy(ws[0]) == None;
      assert forall i :: 0 <= i < |ws[1..]| ==> ws[1..][i] == ws[i + 1];
      NoHolders(ws[1..], x);
    }
  }

  /** A worker's step moves at most one task: out of the queue into its hand, or from there to the
      tasks that have run. */
  lemma WorkerMovesOneTask(s: Pool, i: nat)
    requires Sized(s) && WorkerEnabled(s, i)
    ensures var t, w := WorkerStep(s, i), s.workers[i]; var w' := t.workers[i];
      && t.workers == s.workers[i := w'] && t.main == s.main && t.deleted == s.deleted && t.pushed == s.pushed
      && t.isDone == s.isDone
      && ((t.queue == s.queue && t.ran == s.ran && HeldBy(w') == HeldBy(w))
          || (s.queue != [] && t.queue == s.queue[1..] && t.ran == s.ran
              && HeldBy(w) == None && HeldBy(w') == Some(s.queue[0]))
          || (t.queue == s.queue && w.Holding? && t.ran == s.ran + [w.task] && HeldBy(w') == None))
  {
  }

  lemma WorkerKeepsPlaces(s: Pool, i: nat, x: Task)
    requires Sized(s) && WorkerEnabled(s, i)
    ensures Missing(WorkerStep(s, i), x) == Missing(s, x)
  {
    WorkerMovesOneTask(s, i);
    var t, w := WorkerStep(s, i), s.workers[i];
    HoldersUpdate(s.workers, i, t.workers[i], x);
    if t.ran != s.ran { TimesAppend(s.ran, w.task, x); }
  }

  lemma DeletingKeepsPlaces(s: Pool, m: Main, x: Task)
    requires s.queue != [] && Kept(m) == Kept(s.main)
    ensures Places(s.(queue := s.queue[1..], deleted := s.deleted + [s.queue[0]], main := m), x) == Places(s, x)
  {
    TimesAppend(s.deleted, s.queue[0], x);
  }

  lemma StopTasksKeepsPlaces(s: Pool, x: Task)
    requires InStopTasks(s.main)
    ensures Missing(StopTasksStep(s), x) == Missing(s, x)
  {
    match s.main {
      case Deleting => if s.queue != [] { DeletingKeepsPlaces(s, s.main, x); }
      case Sorting(kind, kept, _) =>
        if s.queue != [] {
          if s.queue[0].kind == kind {
            DeletingKeepsPlaces(s, s.main, x);
          } else {
            TimesAppend(kept, s.queue[0], x);
          }
        }
      case Repush(_, kept, _) =>
        if kept != [] {
          TimesAppend(s.queue, kept[0], x);
        }
    }
  }

  lemma PushKeepsPlaces(s: Pool, c: Choice, x: Task)
    requires Sized(s) && InPush(s.main) && MainEnabled(s, c)
    requires s.main.Stretch? && s.main.next < s.cfg.maxNum ==> SlotOk(s, s.main.next)
    ensures Missing(PushStep(s, c), x) == Missing(s, x)
  {
    if s.main.Notify? && SomeBlocked(s) {
      HoldersUpdate(s.workers, c.wake, Woken, x);
    } else if s.main.Stretch? && s.main.next < s.cfg.maxNum && !s.inited[s.main.next] {
      HoldersUpdate(s.workers, s.main.next, FirstPop, x);
    } else if s.main.Enqueue? {
      TimesAppend(s.queue, Task(|s.pushed|, s.main.kind), x);
      TimesAppend(s.pushed, Task(|s.pushed|, s.main.kind), x);
    }
  }

  lemma ShrinkKeepsPlaces(s: Pool, c: Choice, x: Task)
    requires Sized(s) && InShrink(s.main) && MainEnabled(s, c)
    ensures Missing(ShrinkStep(s, c), x) == Missing(s, x)
  {
    HoldersWakeAll(s.workers, x);
    if s.main.ShrinkJoin? && s.main.ids != [] { HoldersUpdate(s.workers, s.main.ids[0], NoThread, x); }
  }

  lemma StopKeepsPlaces(s: Pool, c: Choice, x: Task)
    requires Sized(s) && InStop(s.main) && MainEnabled(s, c)
    ensures Missing(StopStep(s, c), x) == Missing(s, x)
  {
    HoldersWakeAll(s.workers, x);
    if s.main.StopJoin? && s.main.next < s.cfg.maxNum && s.inited[s.main.next] {
      HoldersUpdate(s.workers, s.main.next, NoThread, x);
    } else if s.main.StopDelete? && s.queue != [] {
      DeletingKeepsPlaces(s, s.main, x);
    }
  }

  lemma MainKeepsPlaces(s: Pool, c: Choice, x: Task)
    requires Books(s) && MainEnabled(s, c)
    ensures Missing(MainStep(s, c), x) == Missing(s, x)
  {
    if InPush(s.main) { PushKeepsPlaces(s, c, x); }
    else if InShrink(s.main) { ShrinkKeepsPlaces(s, c, x); }
    else if InStopTasks(s.main) { StopTasksKeepsPlaces(s, x); }
    else { StopKeepsPlaces(s, c, x); }
  }

  lemma CallKeepsPlaces(s: Pool, c: Call, x: Task)
    requires s.main.AtRest?
    ensures Missing(CallStep(s, c), x) == Missing(s, x)
  {
  }

  lemma StepKeepsPlaces(s: Pool, a: Action, x: Task)
    requires Books(s) && Enabled(s, a)
    ensures Missing(Apply(s, a), x) == Missing(s, x)
  {
    match a {
      case Work(i) => WorkerKeepsPlaces(s, i, x);
      case Spurious(i) => HoldersUpdate(s.workers, i, Woken, x);
      case Invoke(c) => CallKeepsPlaces(s, c, x);
      case MainMove(c) => MainKeepsPlaces(s, c, x);
    }
  }

  // ---------------------------------------------------------------- order

  /** The tasks that wait, in the order in which they will be taken. */
  function Line(s: Pool): seq<Task> {
    if s.main.Sorting? then s.main.kept + s.queue else s.queue + Kept(s.main)
  }

  predicate Rising(l: seq<Task>, bound: nat) {
    && (forall i :: 0 <= i < |l| ==> l[i].id < bound)
    && (forall i, j :: 0 <= i < j < |l| ==> l[i].id < l[j].id)
  }

  /** What `stopTasksByType` has done so far: only tasks of that type are deleted, none is kept. */
  predicate ByTypeOk(s: Pool) {
    s.main.Sorting? || s.main.Repush? ==>
      && s.main.from <= |s.deleted|
      && (forall j :: s.main.from <= j < |s.deleted| ==> s.deleted[j].kind == s.main.stopped)
      && (forall j :: 0 <= j < |s.main.kept| ==> s.main.kept[j].kind != s.main.stopped)
      && (s.main.Repush? ==> forall j :: 0 <= j < |s.queue| ==> s.queue[j].kind != s.main.stopped)
  }

  predicate Ordered(s: Pool) {
    && (forall i :: 0 <= i < |s.pushed| ==> s.pushed[i].id == i)
    && Rising(Line(s), |s.pushed|)
    && ByTypeOk(s)
  }

  /** Taking one task out of the line keeps its order. */
  lemma Shorter(l: seq<Task>, k: nat, l': seq<Task>, bound: nat)
    requires Rising(l, bound) && k < |l| && l' == l[..k] + l[k + 1..]
    ensures Rising(l', bound)
  {
  }

  lemma WorkerKeepsOrder(s: Pool, i: nat)
    requires Sized(s) && WorkerEnabled(s, i) && Ordered(s)
    ensures Ordered(WorkerStep(s, i))
  {
    WorkerMovesOneTask(s, i);
    var t := WorkerStep(s, i);
    if t.queue == s.queue {
      assert Line(t) == Line(s);
    } else {
      var k := if s.main.Sorting? then |s.main.kept| else 0;
      assert Line(t) == Line(s)[..k] + Line(s)[k + 1..];
      Shorter(Line(s), k, Line(t), |s.pushed|);
    }
  }

  lemma StopTasksKeepsByType(s: Pool)
    requires InStopTasks(s.main) && ByTypeOk(s)
    ensures ByTypeOk(StopTasksStep(s))
  {
  }

  lemma DeletingKeepsLine(s: Pool, bound: nat)
    requires s.main.Deleting? && Rising(Line(s), bound)
    ensures Rising(Line(StopTasksStep(s)), bound)
  {
    var l, l' := Line(s), Line(StopTasksStep(s));
    if s.queue == [] {
      assert l' == l;
    } else {
      assert l' == l[..0] + l[0 + 1..];
      Shorter(l, 0, l', bound);
    }
  }

  lemma SortingKeepsLine(s: Pool, bound: nat)
    requires s.main.Sorting? && Rising(Line(s), bound)
    ensures Rising(Line(StopTasksStep(s)), bound)
  {
    var l, l', k := Line(s), Line(StopTasksStep(s)), |s.main.kept|;
    if s.queue != [] && s.queue[0].kind == s.main.stopped {
      assert l' == l[..k] + l[k + 1..];
      Shorter(l, k, l', bound);
    } else {
      assert l' == l;
    }
  }

  lemma RepushKeepsLine(s: Pool)
    requires s.main.Repush?
    ensures Line(StopTasksStep(s)) == Line(s)
  {
  }

  lemma StopTasksKeepsOrder(s: Pool)
    requires InStopTasks(s.main) && Ordered(s)
    ensures Ordered(StopTasksStep(s))
  {
    StopTasksKeepsByType(s);
    assert StopTasksStep(s).pushed == s.pushed;
    match s.main {
      case Deleting => DeletingKeepsLine(s, |s.pushed|);
      case Sorting(_, _, _) => SortingKeepsLine(s, |s.pushed|);
      case Repush(_, _, _) => RepushKeepsLine(s);
    }
  }

  /** A push joins the end of the line. */
  lemma EnqueueKeepsOrder(s: Pool, c: Choice)
    requires Sized(s) && s.main.Enqueue? && Ordered(s)
    ensures Ordered(PushStep(s, c))
  {
    assert Line(PushStep(s, c)) == Line(s) + [Task(|s.pushed|, s.main.kind)];
  }

  lemma PushKeepsOrder(s: Pool, c: Choice)
    requires Sized(s) && MainEnabled(s, c) && InPush(s.main) && Ordered(s)
    ensures Ordered(PushStep(s, c))
  {
    if s.main.Enqueue? {
      EnqueueKeepsOrder(s, c);
    } else {
      var t := PushStep(s, c);
      assert t.pushed == s.pushed && Line(t) == Line(s);
    }
  }

  lemma ShrinkKeepsOrder(s: Pool, c: Choice)
    requires Sized(s) && MainEnabled(s, c) && InShrink(s.main) && Ordered(s)
    ensures Ordered(ShrinkStep(s, c))
  {
    var t := ShrinkStep(s, c);
    assert t.pushed == s.pushed && Line(t) == Line(s);
  }

  lemma StopKeepsOrder(s: Pool, c: Choice)
    requires Sized(s) && MainEnabled(s, c) && InStop(s.main) && Ordered(s)
    ensures Ordered(StopStep(s, c))
  {
    var t := StopStep(s, c);
    assert t.pushed == s.pushed;
    if s.main.StopDelete? && s.queue != [] {
      assert Line(t) == Line(s)[..0] + Line(s)[0 + 1..];
      Shorter(Line(s), 0, Line(t), |s.pushed|);
    } else {
      assert Line(t) == Line(s);
    }
  }

  lemma CallKeepsOrder(s: Pool, c: Call)
    requires s.main.AtRest? && Ordered(s)
    ensures Ordered(CallStep(s, c))
  {
    assert CallStep(s, c).pushed == s.pushed && Line(CallStep(s, c)) == Line(s);
  }

  lemma MainKeepsOrder(s: Pool, c: Choice)
    requires Sized(s) && MainEnabled(s, c) && Ordered(s)
    ensures Ordered(MainStep(s, c))
  {
    if InPush(s.main) { PushKeepsOrder(s, c); }
    else if InShrink(s.main) { ShrinkKeepsOrder(s, c); }
    else if InStopTasks(s.main) { StopTasksKeepsOrder(s); }
    else { StopKeepsOrder(s, c); }
  }

  lemma StepKeepsOrder(s: Pool, a: Action)
    requires Enabled(s, a) && Ordered(s)
    ensures Ordered(Apply(s, a))
  {
    match a {
      case Work(i) => WorkerKeepsOrder(s, i);
      case Spurious(i) => assert Line(Put(s, i, Woken)) == Line(s);
      case Invoke(c) => CallKeepsOrder(s, c);
      case MainMove(c) => MainKeepsOrder(s, c);
    }
  }

  // ---------------------------------------------------------------- runs

  /** Over any run at all, a task is in exactly as many places as it has been pushed. */
  lemma {:induction false} RunConserves(c: Config, run: seq<Pool>, acts: seq<Action>, k: nat, x: Task)
    requires IsRun(c, run, acts) && k < |run|
    ensures Places(run[k], x) == Times(run[k].pushed, x)
  {
    if k == 0 {
      NoHolders(run[0].workers, x);
    } else {
      RunConserves(c, run, acts, k - 1, x);
      RunKeepsBooks(c, run, acts, k - 1);
      StepKeepsPlaces(run[k - 1], acts[k - 1], x);
    }
  }

  lemma InitOrdered(c: Config)
    requires ConfigOk(c)
    ensures Ordered(Init(c))
  {
    assert Line(Init(c)) == [];
  }

  lemma {:induction false} RunKeepsOrder(c: Config, run: seq<Pool>, acts: seq<Action>, k: nat)
    requires IsRun(c, run, acts) && k < |run|
    ensures Ordered(run[k])
  {
    if k == 0 {
      InitOrdered(c);
    } else {
      RunKeepsOrder(c, run, acts, k - 1);
      assert run[k] == Apply(run[k - 1], acts[k - 1]);
      StepKeepsOrder(run[k - 1], acts[k - 1]);
    }
  }

  lemma RunKeepsByType(c: Config, run: seq<Pool>, acts: seq<Action>, k: nat)
    requires IsRun(c, run, acts) && k < |run|
    ensures ByTypeOk(run[k])
  {
    RunKeepsOrder(c, run, acts, k);
  }

  lemma {:induction false} Once(s: seq<Task>, lo: nat, x: Task)
    requires forall i :: 0 <= i < |s| ==> s[i].id == lo + i
    ensures Times(s, x) == if x in s then 1 else 0
  {
    if s != [] {
      assert forall i :: 0 <= i < |s[1..]| ==> s[1..][i] == s[i + 1];
      Once(s[1..], lo + 1, x);
      assert x in s <==> x == s[0] || x in s[1..];
    }
  }

  lemma QueueRises(s: Pool)
    requires Ordered(s)
    ensures forall i, j :: 0 <= i < j < |s.queue| ==> s.queue[i].id < s.queue[j].id
  {
    var d := if s.main.Sorting? then |s.main.kept| else 0;
    assert forall i :: 0 <= i < |s.queue| ==> s.queue[i] == Line(s)[d + i];
  }

  /** Every task pushed is in exactly one place (queued, held by one worker, set aside by
      `stopTasksByType`, run, or deleted), and no other task is anywhere: nothing is lost, run twice,
      or both run and deleted. The queue holds tasks in the order of their pushes. */
  lemma TasksAreConserved(c: Config, run: seq<Pool>, acts: seq<Action>, k: nat, x: Task)
    requires IsRun(c, run, acts) && k < |run|
    ensures Places(run[k], x) == if x in run[k].pushed then 1 else 0
    ensures forall i, j :: 0 <= i < j < |run[k].queue| ==> run[k].queue[i].id < run[k].queue[j].id
  {
    RunConserves(c, run, acts, k, x);
    RunKeepsOrder(c, run, acts, k);
    Once(run[k].pushed, 0, x);
    QueueRises(run[k]);
  }

  /** Since the call began with `from` tasks deleted, only tasks of type `kind` have been; and after
      it no task of that type is queued. */
  predicate OnlyKindStopped(s: Pool, kind: TaskType, from: nat) {
    && from <= |s.deleted|
    && (forall j :: from <= j < |s.deleted| ==> s.deleted[j].kind == kind)
    && (s.main.AtRest? ==> forall j :: 0 <= j < |s.queue| ==> s.queue[j].kind != kind)
  }

  lemma ByTypeStep(s: Pool, a: Action)
    requires Enabled(s, a) && ByTypeOk(s) && (s.main.Sorting? || s.main.Repush?)
    ensures OnlyKindStopped(Apply(s, a), s.main.stopped, s.main.from)
  {
    if a.Work? { WorkerMovesOneTask(s, a.slot); }
  }

  lemma StaysByTypeStep(s: Pool, a: Action)
    requires Enabled(s, a) && (s.main.Sorting? || s.main.Repush?)
    ensures var m := Apply(s, a).main;
      m.AtRest? || ((m.Sorting? || m.Repush?) && m.stopped == s.main.stopped && m.from == s.main.from)
  {
  }

  lemma {:induction false} StaysByType(c: Config, run: seq<Pool>, acts: seq<Action>, lo: nat, hi: nat)
    requires IsRun(c, run, acts) && lo < hi < |run|
    requires acts[lo].Invoke? && acts[lo].call.StopTasksByType?
    requires forall k :: lo < k <= hi ==> !run[k].main.AtRest?
    ensures var m := run[hi].main;
      (m.Sorting? || m.Repush?) && m.stopped == acts[lo].call.kind && m.from == |run[lo].deleted|
    decreases hi
  {
    assert run[hi] == Apply(run[hi - 1], acts[hi - 1]);
    if lo + 1 < hi {
      StaysByType(c, run, acts, lo, hi - 1);
      StaysByTypeStep(run[hi - 1], acts[hi - 1]);
    }
  }

  /** `stopTasksByType` deletes tasks of that type only, and leaves none of them queued. */
  lemma StopTasksByTypeIsExact(c: Config, run: seq<Pool>, acts: seq<Action>, lo: nat, hi: nat)
    requires IsRun(c, run, acts) && lo < hi < |run|
    requires acts[lo].Invoke? && acts[lo].call.StopTasksByType?
    requires forall k :: lo < k < hi ==> !run[k].main.AtRest?
    ensures OnlyKindStopped(run[hi], acts[lo].call.kind, |run[lo].deleted|)
  {
    if lo + 1 < hi {
      StaysByType(c, run, acts, lo, hi - 1);
      RunKeepsByType(c, run, acts, hi - 1);
      ByTypeStep(run[hi - 1], acts[hi - 1]);
    } else {
      assert run[hi] == CallStep(run[lo], acts[lo].call);
    }
  }

  /** The threads make at most `WorkLeft` moves between two calls, and when they can make no more,
      every task ever pushed has been run or was deleted by a stop. */
  lemma EveryTaskIsServed(c: Config, run: seq<Pool>, acts: seq<Action>, lo: nat, hi: nat)
    requires IsRun(c, run, acts) && lo <= hi < |run| && c.minNum > 0 && NothingPutBack(run)
    requires forall k :: lo <= k < hi ==> acts[k].Work?
    ensures hi - lo + WorkLeft(run[hi]) <= WorkLeft(run[lo])
    ensures run[hi].main.AtRest? && (forall i :: !WorkerEnabled(run[hi], i)) ==>
              forall x :: Times(run[hi].ran, x) + Times(run[hi].deleted, x) == Times(run[hi].pushed, x)
    decreases hi
  {
    if lo < hi {
      EveryTaskIsServed(c, run, acts, lo, hi - 1);
      WorkerStepsLessen(run[hi - 1], acts[hi - 1].slot);
    }
    var s := run[hi];
    if s.main.AtRest? && (forall i :: !WorkerEnabled(s, i)) {
      RunKeepsWake(c, run, acts, hi);
      QuietMeansDone(s);
      forall x ensures Times(s.ran, x) + Times(s.deleted, x) == Times(s.pushed, x) {
        RunConserves(c, run, acts, hi, x);
        NoHolders(s.workers, x);
      }
    }
  }
}
