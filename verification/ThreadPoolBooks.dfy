/** What every step of the thread pool keeps: who holds `_mutex`, what the flags mean, how many
    threads there are, and that neither a shrink nor the destructor can wait for a sleeping thread. */
module ThreadPoolBooks {
  import opened Wrappers
  import opened ThreadPool

  predicate InCritical(w: Worker) {
    w.CountIdle? || w.RaiseFlag? || w.PredPop? || w.PredTest? || w.AboutToBlock? || w.LowerFlag? || w.UncountIdle?
  }

  /** The thread is between raising and lowering its idle flag. */
  predicate Flagged(w: Worker) {
    w.PredPop? || w.PredTest? || w.AboutToBlock? || w.Blocked? || w.Woken? || w.LowerFlag?
  }

  /** The thread is counted in `_idleThreadNum`. */
  predicate Counted(w: Worker) {
    Flagged(w) || w.RaiseFlag? || w.UncountIdle?
  }

  predicate Asleep(w: Worker) {
    w.Blocked? || w.AboutToBlock?
  }

  /** The thread has decided to end. */
  predicate GaveUp(w: Worker) {
    w.Exited? || (w.LowerFlag? && w.got == None) || (w.UncountIdle? && w.got == None)
  }

  predicate IsSet(b: bool) { b }

  /** The slots whose threads the running shrink has told to abort. */
  function Marked(m: Main): seq<nat> {
    match m
    case ShrinkScan(_, ids, _) => ids
    case ShrinkMark(_, ids, _) => ids
    case ShrinkNotify(ids, _) => ids
    case ShrinkJoin(ids, _) => ids
    case _ => []
  }

  predicate MayNotifyAborted(m: Main) {
    m.ShrinkScan? || m.ShrinkMark? || m.ShrinkNotify?
  }

  predicate SlotOk(s: Pool, i: nat)
    requires Sized(s) && i < |s.workers|
  {
    var w := s.workers[i];
    && (InCritical(w) <==> s.mutex == Some(i))
    && (s.idle[i] <==> Flagged(w))
    && (s.inited[i] <==> !w.NoThread?)
    && (s.abort[i] && s.inited[i] <==> i in Marked(s.main))
    && (GaveUp(w) ==> s.abort[i] || s.isDone)
    && (Asleep(w) && s.abort[i] ==> MayNotifyAborted(s.main))
    && (Asleep(w) && s.isDone ==> s.main.StopNotify?)
  }

  predicate Distinct<T(==)>(s: seq<T>) {
    forall i, j :: 0 <= i < j < |s| ==> s[i] != s[j]
  }

  predicate MainOk(s: Pool)
    requires Sized(s)
  {
    && Distinct(Marked(s.main))
    && (forall k :: 0 <= k < |Marked(s.main)| ==> Marked(s.main)[k] < s.cfg.maxNum)
    && |Marked(s.main)| <= (if Marked(s.main) == [] then 0 else s.initedNum - s.cfg.minNum)
    && (s.main.ShrinkScan? ==>
          && |Marked(s.main)| <= Quota(s)
          && forall k :: 0 <= k < |Marked(s.main)| ==> Marked(s.main)[k] < s.main.next)
    && (s.main.ShrinkMark? ==>
          && s.main.next < s.cfg.maxNum
          && s.inited[s.main.next]
          && |Marked(s.main)| < Quota(s)
          && forall k :: 0 <= k < |Marked(s.main)| ==> Marked(s.main)[k] < s.main.next)
    && (s.isDone <==> InStop(s.main))
    && (!s.isDone || s.main.StopNotify? ==> s.cfg.minNum <= s.initedNum)
    && (s.main.StopJoin? ==>
          && (forall j :: 0 <= j < s.main.next && j < s.cfg.maxNum ==> !s.inited[j])
          && (s.main.joined || s.cfg.minNum <= s.initedNum))
    && (s.main.StopDelete? || s.main.Stopped? ==> forall j :: 0 <= j < s.cfg.maxNum ==> !s.inited[j])
    && (s.main.StopDelete? ==> s.main.joined || s.cfg.minNum <= s.initedNum)
  }

  predicate Slots(s: Pool)
    requires Sized(s)
  {
    forall i :: 0 <= i < |s.workers| ==> SlotOk(s, i)
  }

  predicate CountersOk(s: Pool) {
    s.idleNum == Count(s.workers, Counted) && s.initedNum == Count(s.inited, IsSet)
  }

  predicate Books(s: Pool) {
    && Sized(s) && ConfigOk(s.cfg)
    && Slots(s)
    && (s.mutex.Some? ==> s.mutex.value < |s.workers|)
    && MainOk(s)
    && CountersOk(s)
  }

  lemma {:induction false} CountFrom(n: nat, lo: nat, m: nat)
    requires lo <= n && m <= n
    ensures Count(seq(n, i => i < m)[lo..], IsSet) == if lo <= m then m - lo else 0
    decreases n - lo
  {
    var s := seq(n, i => i < m);
    if lo < n {
      assert s[lo..][1..] == s[lo + 1..];
      CountFrom(n, lo + 1, m);
    }
  }

  lemma {:induction false} NoneCounted(ws: seq<Worker>)
    requires forall i :: 0 <= i < |ws| ==> !Counted(ws[i])
    ensures Count(ws, Counted) == 0
  {
    CountBounds(ws, Counted);
  }

  lemma InitBooks(c: Config)
    requires ConfigOk(c)
    ensures Books(Init(c))
  {
    var s := Init(c);
    NoneCounted(s.workers);
    CountFrom(c.maxNum, 0, c.minNum);
    assert s.inited[0..] == s.inited;
  }

  lemma WakeAllCounted(ws: seq<Worker>)
    ensures Count(WakeAll(ws), Counted) == Count(ws, Counted)
  {
    if ws != [] {
      assert WakeAll(ws)[1..] == WakeAll(ws[1..]);
      WakeAllCounted(ws[1..]);
    }
  }

  /** What a worker's step leaves alone, and that it keeps the idle count in step with its place. */
  lemma WorkerFrame(s: Pool, i: nat)
    requires Sized(s) && WorkerEnabled(s, i)
    ensures var t, w := WorkerStep(s, i), s.workers[i]; var w' := t.workers[i];
      && Sized(t) && t.cfg == s.cfg && t.main == s.main && t.abort == s.abort && t.inited == s.inited
      && t.initedNum == s.initedNum && t.isDone == s.isDone
      && t.workers == s.workers[i := w'] && t.idle == s.idle[i := t.idle[i]]
      && t.idleNum == s.idleNum - (if Counted(w) then 1 else 0) + (if Counted(w') then 1 else 0)
  {
  }

  /** `_mutex` changes hands only as a worker enters or leaves its critical places. */
  lemma WorkerMutex(s: Pool, i: nat)
    requires Sized(s) && WorkerEnabled(s, i)
    ensures var t, w := WorkerStep(s, i), s.workers[i]; var w' := t.workers[i];
      || (t.mutex == s.mutex && (InCritical(w) <==> InCritical(w')))
      || (t.mutex == None && InCritical(w) && !InCritical(w'))
      || (s.mutex == None && t.mutex == Some(i) && InCritical(w'))
  {
  }

  /** A worker's step, seen from its own slot ... */
  lemma WorkerKeepsOwnSlot(s: Pool, i: nat)
    requires Sized(s) && WorkerEnabled(s, i) && SlotOk(s, i)
    ensures SlotOk(WorkerStep(s, i), i)
  {
    WorkerFrame(s, i);
    WorkerMutex(s, i);
    var t := WorkerStep(s, i);
    var w, w' := s.workers[i], t.workers[i];
    assert !w'.NoThread?;
    assert InCritical(w') <==> t.mutex == Some(i);
    assert t.idle[i] <==> Flagged(w');
    assert GaveUp(w') ==> s.abort[i] || s.isDone;
    assert Asleep(w') ==> Asleep(w) || (!s.abort[i] && !s.isDone);
  }

  /** ... and from another one. */
  lemma WorkerKeepsOtherSlot(s: Pool, i: nat, j: nat)
    requires Sized(s) && WorkerEnabled(s, i) && j < |s.workers| && j != i
    requires SlotOk(s, i) && SlotOk(s, j)
    ensures SlotOk(WorkerStep(s, i), j)
  {
    WorkerFrame(s, i);
    WorkerMutex(s, i);
    assert WorkerStep(s, i).mutex == Some(j) <==> s.mutex == Some(j);
  }

  lemma WorkerKeepsCounters(s: Pool, i: nat)
    requires Sized(s) && WorkerEnabled(s, i) && CountersOk(s)
    ensures CountersOk(WorkerStep(s, i))
  {
    WorkerFrame(s, i);
    CountUpdate(s.workers, i, WorkerStep(s, i).workers[i], Counted);
  }

  lemma WorkerKeepsBooks(s: Pool, i: nat)
    requires Books(s) && WorkerEnabled(s, i)
    ensures Books(WorkerStep(s, i))
  {
    WorkerKeepsCounters(s, i);
    WorkerFrame(s, i);
    WorkerMutex(s, i);
    var t := WorkerStep(s, i);
    forall j | 0 <= j < |t.workers| ensures SlotOk(t, j) {
      if j == i { WorkerKeepsOwnSlot(s, i); } else { WorkerKeepsOtherSlot(s, i, j); }
    }
  }

  /** What starting or joining the thread of slot `i` does to both counts. */
  lemma SlotCounters(s: Pool, i: nat, w: Worker, b: bool)
    requires Sized(s) && i < |s.workers| && SlotOk(s, i)
    requires !Counted(w) && (if b then s.workers[i].NoThread? else s.inited[i] && s.workers[i].Exited?)
    ensures Count(s.workers[i := w], Counted) == Count(s.workers, Counted)
    ensures Count(s.inited[i := b], IsSet) == Count(s.inited, IsSet) + if b then 1 else -1
  {
    CountUpdate(s.workers, i, w, Counted);
    CountUpdate(s.inited, i, b, IsSet);
  }

  lemma PushKeepsSlot(s: Pool, c: Choice, j: nat)
    requires Sized(s) && InPush(s.main) && MainEnabled(s, c) && j < |s.workers| && MainOk(s) && SlotOk(s, j)
    ensures SlotOk(PushStep(s, c), j)
  {
  }

  lemma PushKeepsMainOk(s: Pool, c: Choice)
    requires Sized(s) && InPush(s.main) && MainEnabled(s, c) && MainOk(s)
    ensures MainOk(PushStep(s, c))
  {
  }

  lemma PushKeepsBooks(s: Pool, c: Choice)
    requires Books(s) && InPush(s.main) && MainEnabled(s, c)
    ensures Books(PushStep(s, c))
  {
    var t := PushStep(s, c);
    forall j | 0 <= j < |t.workers| ensures SlotOk(t, j) { PushKeepsSlot(s, c, j); }
    PushKeepsMainOk(s, c);
    if s.main.Notify? && SomeBlocked(s) {
      CountUpdate(s.workers, c.wake, Woken, Counted);
    } else if s.main.Stretch? && s.main.next < s.cfg.maxNum && !s.inited[s.main.next] {
      SlotCounters(s, s.main.next, FirstPop, true);
    }
  }

  lemma ShrinkKeepsSlot(s: Pool, c: Choice, j: nat)
    requires Sized(s) && InShrink(s.main) && MainEnabled(s, c) && j < |s.workers| && MainOk(s) && SlotOk(s, j)
    ensures SlotOk(ShrinkStep(s, c), j)
  {
    if s.main.ShrinkJoin? && s.main.ids != [] {
      var ids := s.main.ids;
      assert forall k :: k in ids <==> k == ids[0] || k in ids[1..];
    }
  }

  lemma ScanKeepsMainOk(s: Pool, c: Choice)
    requires Sized(s) && (s.main.ShrinkScan? || s.main.ShrinkMark?) && MainEnabled(s, c) && MainOk(s)
    requires s.main.ShrinkScan? && s.main.next < s.cfg.maxNum ==> SlotOk(s, s.main.next)
    ensures MainOk(ShrinkStep(s, c))
  {
  }

  lemma JoinKeepsMainOk(s: Pool, c: Choice)
    requires Sized(s) && (s.main.ShrinkNotify? || s.main.ShrinkJoin?) && MainEnabled(s, c) && MainOk(s)
    ensures MainOk(ShrinkStep(s, c))
  {
  }

  lemma ShrinkKeepsBooks(s: Pool, c: Choice)
    requires Books(s) && InShrink(s.main) && MainEnabled(s, c)
    ensures Books(ShrinkStep(s, c))
  {
    var t := ShrinkStep(s, c);
    forall j | 0 <= j < |t.workers| ensures SlotOk(t, j) { ShrinkKeepsSlot(s, c, j); }
    if s.main.ShrinkScan? || s.main.ShrinkMark? { ScanKeepsMainOk(s, c); } else { JoinKeepsMainOk(s, c); }
    if s.main.ShrinkNotify? {
      WakeAllCounted(s.workers);
    } else if s.main.ShrinkJoin? && s.main.ids != [] {
      assert SlotOk(s, s.main.ids[0]);
      SlotCounters(s, s.main.ids[0], NoThread, false);
    }
  }

  lemma StopTasksKeepsBooks(s: Pool)
    requires Books(s) && InStopTasks(s.main)
    ensures Books(StopTasksStep(s))
  {
    var t := StopTasksStep(s);
    forall j | 0 <= j < |t.workers| ensures SlotOk(t, j) { assert SlotOk(s, j); }
  }

  lemma StopKeepsSlot(s: Pool, c: Choice, j: nat)
    requires Sized(s) && InStop(s.main) && MainEnabled(s, c) && j < |s.workers| && MainOk(s) && SlotOk(s, j)
    ensures SlotOk(StopStep(s, c), j)
  {
  }

  lemma StopKeepsMainOk(s: Pool, c: Choice)
    requires Sized(s) && InStop(s.main) && MainEnabled(s, c) && MainOk(s)
    ensures MainOk(StopStep(s, c))
  {
  }

  lemma StopKeepsBooks(s: Pool, c: Choice)
    requires Books(s) && InStop(s.main) && MainEnabled(s, c)
    ensures Books(StopStep(s, c))
  {
    var t := StopStep(s, c);
    forall j | 0 <= j < |t.workers| ensures SlotOk(t, j) { StopKeepsSlot(s, c, j); }
    StopKeepsMainOk(s, c);
    if s.main.StopNotify? {
      WakeAllCounted(s.workers);
    } else if s.main.StopJoin? && s.main.next < s.cfg.maxNum && s.inited[s.main.next] {
      SlotCounters(s, s.main.next, NoThread, false);
    }
  }

  lemma SpuriousKeepsBooks(s: Pool, i: nat)
    requires Books(s) && i < |s.workers| && s.workers[i].Blocked?
    ensures Books(Put(s, i, Woken))
  {
    CountUpdate(s.workers, i, Woken, Counted);
    forall j | 0 <= j < |s.workers| ensures SlotOk(Put(s, i, Woken), j) { assert SlotOk(s, j); }
  }

  lemma CallKeepsBooks(s: Pool, c: Call)
    requires Books(s) && s.main.AtRest?
    ensures Books(CallStep(s, c))
  {
    var t := CallStep(s, c);
    forall j | 0 <= j < |s.workers| ensures SlotOk(t, j) { assert SlotOk(s, j); }
  }

  lemma MainKeepsBooks(s: Pool, c: Choice)
    requires Books(s) && MainEnabled(s, c)
    ensures Books(MainStep(s, c))
  {
    if InPush(s.main) { PushKeepsBooks(s, c); }
    else if InShrink(s.main) { ShrinkKeepsBooks(s, c); }
    else if InStopTasks(s.main) { StopTasksKeepsBooks(s); }
    else { StopKeepsBooks(s, c); }
  }

  lemma StepKeepsBooks(s: Pool, a: Action)
    requires Books(s) && Enabled(s, a)
    ensures Books(Apply(s, a))
  {
    match a {
      case Work(i) => WorkerKeepsBooks(s, i);
      case Spurious(i) => SpuriousKeepsBooks(s, i);
      case Invoke(c) => CallKeepsBooks(s, c);
      case MainMove(c) => MainKeepsBooks(s, c);
    }
  }

  lemma StepKeepsConfig(s: Pool, a: Action)
    requires Enabled(s, a)
    ensures Apply(s, a).cfg == s.cfg
  {
  }

  lemma {:induction false} RunKeepsBooks(c: Config, run: seq<Pool>, acts: seq<Action>, k: nat)
    requires IsRun(c, run, acts) && k < |run|
    ensures Books(run[k]) && run[k].cfg == c
  {
    if k == 0 {
      InitBooks(c);
    } else {
      RunKeepsBooks(c, run, acts, k - 1);
      StepKeepsBooks(run[k - 1], acts[k - 1]);
      StepKeepsConfig(run[k - 1], acts[k - 1]);
    }
  }

  /** In every reachable state: the idle count is the number of threads between the two updates of
      it, an idle flag stands for a thread that has not ended, the thread count is the number of
      initialised slots and within its bounds, and a shrink joins distinct, existing threads without
      going below the minimum. */
  lemma Bookkeeping(c: Config, run: seq<Pool>, acts: seq<Action>, k: nat)
    requires IsRun(c, run, acts) && k < |run|
    ensures var s := run[k];
      && Sized(s) && s.cfg == c
      && s.idleNum == Count(s.workers, Counted)
      && (forall i :: 0 <= i < |s.idle| && s.idle[i] ==> !s.workers[i].NoThread? && !s.workers[i].Exited?)
      && s.initedNum == Count(s.inited, IsSet) <= c.maxNum
      && (!s.isDone ==> c.minNum <= s.initedNum - |Marked(s.main)|)
      && Distinct(Marked(s.main))
      && (forall i :: i in Marked(s.main) ==> i < c.maxNum && s.inited[i] && s.abort[i] && !s.workers[i].NoThread?)
      && (s.main.AtRest? ==> forall i :: 0 <= i < c.maxNum && s.inited[i] ==> !s.abort[i])
  {
    var s := run[k];
    RunKeepsBooks(c, run, acts, k);
    CountBounds(s.inited, IsSet);
    forall i | 0 <= i < c.maxNum
      ensures (s.idle[i] ==> !s.workers[i].NoThread? && !s.workers[i].Exited?)
      ensures (s.inited[i] <==> !s.workers[i].NoThread?) && (s.abort[i] && s.inited[i] <==> i in Marked(s.main))
    {
      assert SlotOk(s, i);
    }
  }

  lemma SomethingMoves(s: Pool)
    requires Books(s) && !s.main.AtRest? && !s.main.Stopped?
    ensures Sized(s)
    ensures (exists i :: WorkerEnabled(s, i)) || (exists ch :: MainEnabled(s, ch))
  {
    var blocked: nat := 0;
    if SomeBlocked(s) {
      blocked :| blocked < |s.workers| && s.workers[blocked].Blocked?;
    }
    var ch := Choice(false, blocked);
    if s.mutex.Some? {
      assert SlotOk(s, s.mutex.value);
      assert WorkerEnabled(s, s.mutex.value);
    } else if s.main.ShrinkJoin? && s.main.ids != [] && !s.workers[s.main.ids[0]].Exited? {
      assert SlotOk(s, s.main.ids[0]);
      assert WorkerEnabled(s, s.main.ids[0]);
    } else if s.main.StopJoin? && s.main.next < |s.workers| && s.inited[s.main.next]
        && !s.workers[s.main.next].Exited? {
      assert SlotOk(s, s.main.next);
      assert WorkerEnabled(s, s.main.next);
    } else {
      assert MainEnabled(s, ch);
    }
  }

  /** No call of the main thread can hang: inside one, some thread can always move. In particular a
      thread that a shrink or the destructor waits for is never left asleep. */
  lemma CallsNeverDeadlock(c: Config, run: seq<Pool>, acts: seq<Action>, k: nat)
    requires IsRun(c, run, acts) && k < |run|
    requires !run[k].main.AtRest? && !run[k].main.Stopped?
    ensures Sized(run[k])
    ensures (exists i :: WorkerEnabled(run[k], i)) || (exists ch :: MainEnabled(run[k], ch))
  {
    RunKeepsBooks(c, run, acts, k);
    SomethingMoves(run[k]);
  }
}
