/** What a call has done when it returns, whatever the workers do in the meantime. */
module ThreadPoolCalls {
  import opened Wrappers
  import opened ThreadPool
  import opened ThreadPoolBooks
  import opened ThreadPoolPaths

  /** The call made at `lo` has returned: `hi` is the first state at rest after it. */
  ghost predicate Returned(c: Config, run: seq<Pool>, acts: seq<Action>, lo: nat, hi: nat) {
    && IsRun(c, run, acts)
    && lo < hi < |run| && acts[lo].Invoke? && run[hi].main.AtRest?
    && forall k :: lo < k < hi ==> !run[k].main.AtRest?
  }

  /** The main thread moves at `k`, for the first time since `lo`. */
  predicate NextMove(acts: seq<Action>, lo: nat, k: nat) {
    lo < k < |acts| && acts[k].MainMove? && forall j :: lo < j < k ==> !acts[j].MainMove?
  }

  function Min(a: int, b: int): int {
    if a < b then a else b
  }

  lemma QuietStep(s: Pool, a: Action)
    requires Enabled(s, a) && (a.Work? || a.Spurious?)
    ensures SameButWork(s, Apply(s, a))
  {
    if a.Work? { WorkerLeavesRest(s, a.slot); }
  }

  lemma MoveAt(c: Config, run: seq<Pool>, acts: seq<Action>, k: nat)
    requires IsRun(c, run, acts) && k < |acts| && acts[k].MainMove?
    ensures Sized(run[k]) && MainEnabled(run[k], acts[k].choice) && run[k + 1] == MainStep(run[k], acts[k].choice)
  {
    assert Enabled(run[k], acts[k]);
  }

  /** Until the main thread moves, only the workers do. */
  lemma {:induction false} MainWaits(c: Config, run: seq<Pool>, acts: seq<Action>, lo: nat, k: nat)
    requires IsRun(c, run, acts) && lo < k < |run|
    requires forall j :: lo < j < k ==> !run[j].main.AtRest? && !acts[j].MainMove?
    ensures SameButWork(run[lo + 1], run[k])
    decreases k
  {
    if lo + 1 < k {
      MainWaits(c, run, acts, lo, k - 1);
      assert Enabled(run[k - 1], acts[k - 1]);
      QuietStep(run[k - 1], acts[k - 1]);
    }
  }

  lemma {:induction false} FirstOf(acts: seq<Action>, lo: nat, j: nat)
    requires lo < j < |acts| && acts[j].MainMove?
    ensures exists k: nat :: NextMove(acts, lo, k) && k <= j
    decreases j
  {
    if i: nat :| lo < i < j && acts[i].MainMove? {
      FirstOf(acts, lo, i);
    } else {
      assert NextMove(acts, lo, j);
    }
  }

  lemma {:induction false} MovesBefore(c: Config, run: seq<Pool>, acts: seq<Action>, lo: nat, hi: nat)
    requires IsRun(c, run, acts) && lo < hi < |run| && run[hi].main != run[lo + 1].main
    requires forall k :: lo < k < hi ==> !run[k].main.AtRest?
    ensures exists k: nat :: NextMove(acts, lo, k) && k < hi
    decreases hi
  {
    if forall j :: lo < j < hi ==> !acts[j].MainMove? {
      MainWaits(c, run, acts, lo, hi);
    } else if run[hi - 1].main != run[lo + 1].main {
      MovesBefore(c, run, acts, lo, hi - 1);
    } else {
      var j: nat :| lo < j < hi && acts[j].MainMove?;
      FirstOf(acts, lo, j);
    }
  }

  /** No call returns before the main thread has moved. */
  lemma CallsMove(c: Config, run: seq<Pool>, acts: seq<Action>, lo: nat, hi: nat)
    requires Returned(c, run, acts, lo, hi)
    ensures exists k: nat :: NextMove(acts, lo, k) && k < hi
  {
    assert run[lo + 1] == Apply(run[lo], acts[lo]);
    MovesBefore(c, run, acts, lo, hi);
  }

  /** What every step inside a call keeps holds when the call returns. */
  lemma {:induction false} KeptInCall(c: Config, run: seq<Pool>, acts: seq<Action>, from: nat, k: nat,
                                      inv: Pool -> bool)
    requires IsRun(c, run, acts) && from <= k < |run| && inv(run[from])
    requires forall j :: from <= j < k ==> !run[j].main.AtRest?
    requires forall s, a :: Books(s) && Enabled(s, a) && s.cfg == c && !s.main.AtRest? && inv(s) ==> inv(Apply(s, a))
    ensures inv(run[k])
    decreases k
  {
    if from < k {
      KeptInCall(c, run, acts, from, k - 1, inv);
      RunKeepsBooks(c, run, acts, k - 1);
      assert Enabled(run[k - 1], acts[k - 1]);
    }
  }

  // ---------------------------------------------------------------- a push and the number of threads

  /** The threads are those of `was`, and the push goes on to its task. */
  predicate Unchanged(s: Pool, was: Pool) {
    (s.main.Enqueue? || s.main.Notify? || s.main.AtRest?) && s.inited == was.inited && s.initedNum == was.initedNum
  }

  lemma UnchangedStep(s: Pool, a: Action, was: Pool)
    requires Enabled(s, a) && !s.main.AtRest? && Unchanged(s, was)
    ensures Unchanged(Apply(s, a), was)
  {
    if a.Work? || a.Spurious? { QuietStep(s, a); }
  }

  lemma StaysUnchanged(c: Config, run: seq<Pool>, acts: seq<Action>, from: nat, hi: nat, was: Pool)
    requires IsRun(c, run, acts) && from <= hi < |run| && Unchanged(run[from], was)
    requires forall j :: from <= j < hi ==> !run[j].main.AtRest?
    ensures run[hi].inited == was.inited && run[hi].initedNum == was.initedNum
  {
    forall s, a | Enabled(s, a) && !s.main.AtRest? && Unchanged(s, was) ensures Unchanged(Apply(s, a), was) {
      UnchangedStep(s, a, was);
    }
    KeptInCall(c, run, acts, from, hi, s => Unchanged(s, was));
  }

  lemma {:induction false} AllCount(b: seq<bool>)
    ensures (forall i :: 0 <= i < |b| ==> b[i]) ==> Count(b, IsSet) == |b|
  {
    if b != [] {
      assert forall i :: 0 <= i < |b[1..]| ==> b[1..][i] == b[i + 1];
      AllCount(b[1..]);
    }
  }

  /** Each thread of `was` is still there, and new ones have filled the lowest slots below `next`. */
  predicate FilledBelow(s: Pool, was: Pool, next: nat)
    requires Sized(s) && Sized(was) && s.cfg == was.cfg
  {
    forall i :: 0 <= i < s.cfg.maxNum ==> if i < next then s.inited[i] else s.inited[i] == was.inited[i]
  }

  ghost predicate FilledUp(s: Pool, was: Pool) {
    && Sized(s) && Sized(was) && s.cfg == was.cfg
    && s.initedNum == Min(s.cfg.maxNum, was.initedNum + s.cfg.stretchStep)
    && exists next: nat :: FilledBelow(s, was, next)
  }

  /** How far the push has grown the pool of `was`. */
  ghost predicate Grows(s: Pool, was: Pool) {
    match s.main
    case Stretch(next, started, _) =>
      && Sized(s) && Sized(was) && s.cfg == was.cfg && started < s.cfg.stretchStep
      && s.initedNum == was.initedNum + started && FilledBelow(s, was, next)
    case Enqueue(_) => FilledUp(s, was)
    case Notify => FilledUp(s, was)
    case AtRest => FilledUp(s, was)
    case _ => false
  }

  lemma NoMoreThanSlots(s: Pool)
    requires Books(s)
    ensures s.initedNum <= s.cfg.maxNum
    ensures (forall i :: 0 <= i < s.cfg.maxNum ==> s.inited[i]) ==> s.initedNum == s.cfg.maxNum
  {
    CountBounds(s.inited, IsSet);
    AllCount(s.inited);
  }

  lemma StretchGrows(s: Pool, c: Choice, was: Pool)
    requires Books(s) && s.main.Stretch? && Grows(s, was)
    ensures Grows(PushStep(s, c), was)
  {
    var t, next := PushStep(s, c), s.main.next;
    PushKeepsBooks(s, c);
    NoMoreThanSlots(t);
    assert FilledBelow(t, was, if next < s.cfg.maxNum then next + 1 else next);
  }

  lemma SameSlotsGrow(s: Pool, t: Pool, was: Pool)
    requires Grows(s, was) && Sized(t) && t.cfg == s.cfg && t.inited == s.inited && t.initedNum == s.initedNum
    requires t.main == s.main || ((t.main.Notify? || t.main.AtRest?) && !s.main.Stretch?)
    ensures Grows(t, was)
  {
    if !s.main.Stretch? {
      var next: nat :| FilledBelow(s, was, next);
      assert FilledBelow(t, was, next);
    }
  }

  lemma GrowsStep(s: Pool, a: Action, was: Pool)
    requires Books(s) && Enabled(s, a) && !s.main.AtRest? && Grows(s, was)
    ensures Grows(Apply(s, a), was)
  {
    StepKeepsBooks(s, a);
    if a.Work? || a.Spurious? {
      QuietStep(s, a);
      SameSlotsGrow(s, Apply(s, a), was);
    } else if s.main.Stretch? {
      StretchGrows(s, a.choice, was);
    } else {
      SameSlotsGrow(s, Apply(s, a), was);
    }
  }

  lemma StaysGrowing(c: Config, run: seq<Pool>, acts: seq<Action>, from: nat, hi: nat, was: Pool)
    requires IsRun(c, run, acts) && from <= hi < |run| && Grows(run[from], was)
    requires forall j :: from <= j < hi ==> !run[j].main.AtRest?
    ensures Grows(run[hi], was)
  {
    forall s, a | Books(s) && Enabled(s, a) && !s.main.AtRest? && Grows(s, was) ensures Grows(Apply(s, a), was) {
      GrowsStep(s, a, was);
    }
    KeptInCall(c, run, acts, from, hi, s => Grows(s, was));
  }

  /** Where a push goes from its first step. */
  predicate Turns(s: Pool, t: Pool) {
    && t == s.(main := t.main) && !t.main.AtRest?
    && (s.idleNum > s.cfg.minNum ==> t.main.CheckQueue?)
    && (s.idleNum <= s.cfg.minNum && s.idleNum != 0 ==> t.main.Enqueue?)
    && (s.idleNum <= s.cfg.minNum && s.idleNum == 0 ==> t.main.Stretch? && t.main.next == t.main.started == 0)
  }

  lemma ReadTurns(s: Pool, c: Choice)
    requires Sized(s) && s.main.ReadIdle?
    ensures MainStep(s, c) == PushStep(s, c) && Turns(s, PushStep(s, c))
  {
  }

  lemma PushBegins(c: Config, run: seq<Pool>, acts: seq<Action>, lo: nat, hi: nat)
    requires Returned(c, run, acts, lo, hi) && acts[lo].call.Push? && !c.fixedSize
    ensures run[lo + 1].main.ReadIdle? && run[lo + 1] == run[lo].(main := run[lo + 1].main)
  {
    RunKeepsBooks(c, run, acts, lo);
    assert run[lo + 1] == Apply(run[lo], acts[lo]);
  }

  lemma PushReads(c: Config, run: seq<Pool>, acts: seq<Action>, lo: nat, read: nat, hi: nat)
    requires Returned(c, run, acts, lo, hi) && acts[lo].call.Push? && !c.fixedSize
    requires NextMove(acts, lo, read) && read < hi
    ensures var s, t := run[read], run[read + 1];
      && s.inited == run[lo].inited && s.initedNum == run[lo].initedNum
      && Sized(s) && s.cfg == c && Turns(s, t) && read + 1 < hi
  {
    PushBegins(c, run, acts, lo, hi);
    MainWaits(c, run, acts, lo, read);
    RunKeepsBooks(c, run, acts, read);
    MoveAt(c, run, acts, read);
    ReadTurns(run[read], acts[read].choice);
  }

  /** A push starts threads if and only if it reads that none is idle: then, as far as the maximum allows, as
      many as the stretch step says, in the lowest free slots. If some are idle, but no more than the minimum,
      the threads stay as they were. */
  lemma PushStretches(c: Config, run: seq<Pool>, acts: seq<Action>, lo: nat, read: nat, hi: nat)
    requires Returned(c, run, acts, lo, hi) && acts[lo].call.Push? && !c.fixedSize
    requires NextMove(acts, lo, read) && read < hi
    ensures run[read].idleNum == 0 ==>
      && run[hi].initedNum == Min(c.maxNum, run[lo].initedNum + c.stretchStep)
      && |run[lo].inited| == |run[hi].inited| == c.maxNum
      && (forall i :: 0 <= i < c.maxNum && run[lo].inited[i] ==> run[hi].inited[i])
      && (forall i, j :: 0 <= i < j < c.maxNum && run[hi].inited[j] && !run[lo].inited[j] ==> run[hi].inited[i])
    ensures 0 < run[read].idleNum <= c.minNum ==>
      run[hi].initedNum == run[lo].initedNum && run[hi].inited == run[lo].inited
  {
    PushReads(c, run, acts, lo, read, hi);
    RunKeepsBooks(c, run, acts, lo);
    RunKeepsBooks(c, run, acts, hi);
    if run[read].idleNum == 0 {
      assert FilledBelow(run[read + 1], run[lo], 0);
      StaysGrowing(c, run, acts, read + 1, hi, run[lo]);
      var next: nat :| FilledBelow(run[hi], run[lo], next);
    } else if 0 < run[read].idleNum <= c.minNum {
      StaysUnchanged(c, run, acts, read + 1, hi, run[lo]);
    }
  }

  /** A pool of fixed size keeps its threads. */
  lemma FixedPoolsStay(c: Config, run: seq<Pool>, acts: seq<Action>, lo: nat, hi: nat)
    requires Returned(c, run, acts, lo, hi) && acts[lo].call.Push? && c.fixedSize
    ensures run[hi].initedNum == run[lo].initedNum && run[hi].inited == run[lo].inited
  {
    RunKeepsBooks(c, run, acts, lo);
    assert run[lo + 1] == Apply(run[lo], acts[lo]);
    StaysUnchanged(c, run, acts, lo + 1, hi, run[lo]);
  }

  /** Nothing that changes the number of threads is going on. */
  predicate KeepsMinimum(s: Pool) {
    s.initedNum == s.cfg.minNum
    && (s.main.AtRest? || s.main.Enqueue? || s.main.Notify? || InStopTasks(s.main))
  }

  lemma KeepsMinimumStep(s: Pool, a: Action)
    requires Enabled(s, a) && KeepsMinimum(s) && s.cfg.fixedSize
    requires a.Invoke? ==> !a.call.TryShrink? && !a.call.Stop?
    ensures KeepsMinimum(Apply(s, a))
  {
    if a.Work? || a.Spurious? { QuietStep(s, a); }
  }

  /** A pool of fixed size has its minimum of threads from the beginning on, until it is asked to shrink or to stop. */
  lemma {:induction false} FixedPoolsHaveMinimum(c: Config, run: seq<Pool>, acts: seq<Action>, k: nat)
    requires IsRun(c, run, acts) && k < |run| && c.fixedSize
    requires forall j :: 0 <= j < k && acts[j].Invoke? ==> !acts[j].call.TryShrink? && !acts[j].call.Stop?
    ensures KeepsMinimum(run[k])
    ensures |run[k].inited| == c.maxNum && Count(run[k].inited, IsSet) == c.minNum
  {
    RunKeepsBooks(c, run, acts, k);
    if k > 0 {
      FixedPoolsHaveMinimum(c, run, acts, k - 1);
      RunKeepsBooks(c, run, acts, k - 1);
      assert Enabled(run[k - 1], acts[k - 1]);
      KeepsMinimumStep(run[k - 1], acts[k - 1]);
    }
  }

  // ---------------------------------------------------------------- a shrink

  ghost predicate SeenIdle(run: seq<Pool>, lo: nat, hi: nat, i: nat) {
    exists j :: lo <= j <= hi && j < |run| && i < |run[j].idle| && run[j].idle[i]
  }

  ghost predicate SeenBusy(run: seq<Pool>, lo: nat, hi: nat, i: nat) {
    exists j :: lo <= j <= hi && j < |run| && i < |run[j].idle| && !run[j].idle[i]
  }

  /** Of the threads of `lo`, the shrink has ended some that it saw idle: as many as the step and the minimum
      allow, or else it saw each of the others busy. */
  ghost predicate Shrunk(c: Config, run: seq<Pool>, lo: nat, hi: nat)
    requires lo <= hi < |run|
  {
    var s, t := run[lo], run[hi];
    var ended, most := s.initedNum - t.initedNum, Min(s.initedNum - c.minNum, c.shrinkStep);
    && |s.inited| == |t.inited| == c.maxNum
    && 0 <= ended <= most
    && (forall i :: 0 <= i < c.maxNum && t.inited[i] ==> s.inited[i])
    && (forall i :: 0 <= i < c.maxNum && s.inited[i] && !t.inited[i] ==> SeenIdle(run, lo, hi, i))
    && (ended == most || forall i :: 0 <= i < c.maxNum && t.inited[i] ==> SeenBusy(run, lo, hi, i))
  }

  /** The slots whose idle flag the main thread could have seen raised, and lowered. */
  ghost function IdleSeen(run: seq<Pool>, lo: nat, hi: nat, n: nat): set<nat> {
    set i: nat | i < n && SeenIdle(run, lo, hi, i)
  }

  ghost function BusySeen(run: seq<Pool>, lo: nat, hi: nat, n: nat): set<nat> {
    set i: nat | i < n && SeenBusy(run, lo, hi, i)
  }

  predicate Scanning(m: Main) {
    m.ShrinkScan? || m.ShrinkMark?
  }

  predicate ScanIsOver(m: Main) {
    m.ShrinkNotify? || m.ShrinkJoin? || m.Enqueue? || m.Notify? || m.AtRest?
  }

  /** The slots are those of `was`, except for threads that were seen idle. */
  predicate EndsIdle(s: Pool, was: Pool, idle: set<nat>)
    requires Sized(s) && Sized(was) && s.cfg == was.cfg
  {
    && (forall i :: 0 <= i < s.cfg.maxNum && s.inited[i] ==> was.inited[i])
    && (forall i :: 0 <= i < s.cfg.maxNum && was.inited[i] && !s.inited[i] ==> i in idle)
    && (forall i :: i in Marked(s.main) ==> i in idle)
  }

  /** Where the shrink of the threads of `was` stands. */
  predicate Shrinks(s: Pool, was: Pool, idle: set<nat>, busy: set<nat>)
    requires Sized(s) && Sized(was) && s.cfg == was.cfg
  {
    var m, most := Marked(s.main), Min(was.initedNum - s.cfg.minNum, s.cfg.shrinkStep);
    var taken := was.initedNum - s.initedNum + |m|;
    && s.initedNum <= was.initedNum && taken <= most && EndsIdle(s, was, idle)
    && (Scanning(s.main) ==>
          && s.initedNum == was.initedNum
          && (s.main.ShrinkMark? ==> s.main.next in idle && taken < most)
          && forall i :: 0 <= i < s.main.next && i < s.cfg.maxNum && i !in m ==> i in busy)
    && (Scanning(s.main) || ScanIsOver(s.main))
    && (ScanIsOver(s.main) ==>
          taken == most || forall i :: 0 <= i < s.cfg.maxNum && s.inited[i] && i !in m ==> i in busy)
  }

  lemma ScanShrinks(s: Pool, c: Choice, was: Pool, idle: set<nat>, busy: set<nat>)
    requires Sized(s) && Sized(was) && s.cfg == was.cfg && Scanning(s.main) && MainEnabled(s, c)
    requires Shrinks(s, was, idle, busy)
    requires forall i: nat :: i < s.cfg.maxNum ==> if s.idle[i] then i in idle else i in busy
    ensures Shrinks(ShrinkStep(s, c), was, idle, busy)
  {
  }

  lemma JoinShrinks(s: Pool, c: Choice, was: Pool, idle: set<nat>, busy: set<nat>)
    requires Books(s) && Sized(was) && s.cfg == was.cfg && s.main.ShrinkJoin? && MainEnabled(s, c)
    requires Shrinks(s, was, idle, busy)
    ensures Shrinks(ShrinkStep(s, c), was, idle, busy)
  {
    var ids := s.main.ids;
    if ids != [] {
      assert SlotOk(s, ids[0]) && ids[0] in ids;
      assert forall i :: i in ids <==> i == ids[0] || i in ids[1..];
      assert ids[0] !in ids[1..];
    }
  }

  lemma ShrinksStep(s: Pool, a: Action, was: Pool, idle: set<nat>, busy: set<nat>)
    requires Books(s) && Enabled(s, a) && Sized(was) && s.cfg == was.cfg && !s.main.AtRest?
    requires Shrinks(s, was, idle, busy)
    requires forall i: nat :: i < s.cfg.maxNum ==> if s.idle[i] then i in idle else i in busy
    ensures Sized(Apply(s, a)) && Apply(s, a).cfg == s.cfg && Shrinks(Apply(s, a), was, idle, busy)
  {
    StepKeepsBooks(s, a);
    StepKeepsConfig(s, a);
    if a.Work? || a.Spurious? {
      QuietStep(s, a);
    } else if Scanning(s.main) {
      ScanShrinks(s, a.choice, was, idle, busy);
    } else if s.main.ShrinkJoin? {
      JoinShrinks(s, a.choice, was, idle, busy);
    }
  }

  lemma MoreSeen(s: Pool, was: Pool, idle: set<nat>, busy: set<nat>, idle': set<nat>, busy': set<nat>)
    requires Sized(s) && Sized(was) && s.cfg == was.cfg && Shrinks(s, was, idle, busy)
    requires idle <= idle' && busy <= busy'
    ensures Shrinks(s, was, idle', busy')
  {
  }

  lemma SeenNow(run: seq<Pool>, lo: nat, k: nat, n: nat)
    requires lo <= k < |run| && |run[k].idle| == n
    ensures forall i: nat :: i < n ==>
      if run[k].idle[i] then i in IdleSeen(run, lo, k, n) else i in BusySeen(run, lo, k, n)
    ensures k > lo ==>
      IdleSeen(run, lo, k - 1, n) <= IdleSeen(run, lo, k, n) && BusySeen(run, lo, k - 1, n) <= BusySeen(run, lo, k, n)
  {
  }

  lemma {:induction false} StaysShrinking(c: Config, run: seq<Pool>, acts: seq<Action>, lo: nat, from: nat, k: nat)
    requires IsRun(c, run, acts) && lo <= from <= k < |run|
    requires forall j :: from <= j < k ==> !run[j].main.AtRest?
    requires Books(run[lo]) && run[lo].cfg == run[from].cfg == c && Sized(run[from])
    requires Shrinks(run[from], run[lo], IdleSeen(run, lo, from, c.maxNum), BusySeen(run, lo, from, c.maxNum))
    ensures Sized(run[k]) && run[k].cfg == c
    ensures Shrinks(run[k], run[lo], IdleSeen(run, lo, k, c.maxNum), BusySeen(run, lo, k, c.maxNum))
    decreases k
  {
    if from < k {
      var n := c.maxNum;
      StaysShrinking(c, run, acts, lo, from, k - 1);
      RunKeepsBooks(c, run, acts, k - 1);
      RunKeepsBooks(c, run, acts, k);
      assert run[k] == Apply(run[k - 1], acts[k - 1]);
      SeenNow(run, lo, k - 1, n);
      SeenNow(run, lo, k, n);
      ShrinksStep(run[k - 1], acts[k - 1], run[lo], IdleSeen(run, lo, k - 1, n), BusySeen(run, lo, k - 1, n));
      MoreSeen(run[k], run[lo], IdleSeen(run, lo, k - 1, n), BusySeen(run, lo, k - 1, n),
               IdleSeen(run, lo, k, n), BusySeen(run, lo, k, n));
    }
  }

  lemma ShrinkReturned(c: Config, run: seq<Pool>, acts: seq<Action>, lo: nat, from: nat, hi: nat)
    requires Returned(c, run, acts, lo, hi) && lo < from < hi
    requires run[from].main.ShrinkScan? && run[from].main.next == 0 && run[from].main.ids == []
    requires run[from].inited == run[lo].inited && run[from].initedNum == run[lo].initedNum
    ensures Shrunk(c, run, lo, hi)
  {
    RunKeepsBooks(c, run, acts, lo);
    RunKeepsBooks(c, run, acts, from);
    StaysShrinking(c, run, acts, lo, from, hi);
  }

  /** `tryShrinkPool` ends idle threads down to the minimum, no more than its step says. */
  lemma ShrinkEndsIdleThreads(c: Config, run: seq<Pool>, acts: seq<Action>, lo: nat, hi: nat)
    requires Returned(c, run, acts, lo, hi) && acts[lo].call == TryShrink
    ensures Shrunk(c, run, lo, hi)
  {
    assert run[lo + 1] == Apply(run[lo], acts[lo]);
    RunKeepsBooks(c, run, acts, lo);
    ShrinkReturned(c, run, acts, lo, lo + 1, hi);
  }

  /** Where a push goes from its second step. */
  predicate TurnsAgain(s: Pool, t: Pool, intervalOver: bool) {
    && t == s.(main := t.main) && !t.main.AtRest?
    && if s.queue == [] && intervalOver then t.main.ShrinkScan? && t.main.next == 0 && t.main.ids == []
       else t.main.Enqueue?
  }

  lemma LookTurns(s: Pool, c: Choice)
    requires Sized(s) && s.main.CheckQueue?
    ensures MainStep(s, c) == PushStep(s, c) && TurnsAgain(s, PushStep(s, c), c.intervalOver)
  {
  }

  lemma StillLooking(c: Config, run: seq<Pool>, acts: seq<Action>, lo: nat, read: nat, look: nat, hi: nat)
    requires Returned(c, run, acts, lo, hi) && acts[lo].call.Push? && !c.fixedSize
    requires NextMove(acts, lo, read) && NextMove(acts, read, look) && look < hi && run[read].idleNum > c.minNum
    ensures var s := run[look];
      s.inited == run[lo].inited && s.initedNum == run[lo].initedNum && s.main.CheckQueue?
  {
    PushReads(c, run, acts, lo, read, hi);
    MainWaits(c, run, acts, read, look);
  }

  lemma PushLooks(c: Config, run: seq<Pool>, acts: seq<Action>, lo: nat, read: nat, look: nat, hi: nat)
    requires Returned(c, run, acts, lo, hi) && acts[lo].call.Push? && !c.fixedSize
    requires NextMove(acts, lo, read) && NextMove(acts, read, look) && look < hi && run[read].idleNum > c.minNum
    ensures var s := run[look];
      && s.inited == run[lo].inited && s.initedNum == run[lo].initedNum
      && TurnsAgain(s, run[look + 1], acts[look].choice.intervalOver) && look + 1 < hi
  {
    StillLooking(c, run, acts, lo, read, look, hi);
    MoveAt(c, run, acts, look);
    LookTurns(run[look], acts[look].choice);
  }

  /** A push that reads more idle threads than the minimum looks at the queue next: if it finds it empty and the
      interval is over, it shrinks the pool, and otherwise the threads stay as they were. */
  lemma PushShrinks(c: Config, run: seq<Pool>, acts: seq<Action>, lo: nat, read: nat, look: nat, hi: nat)
    requires Returned(c, run, acts, lo, hi) && acts[lo].call.Push? && !c.fixedSize
    requires NextMove(acts, lo, read) && NextMove(acts, read, look) && look < hi && run[read].idleNum > c.minNum
    ensures if run[look].queue == [] && acts[look].choice.intervalOver then Shrunk(c, run, lo, hi)
            else run[hi].initedNum == run[lo].initedNum && run[hi].inited == run[lo].inited
  {
    PushLooks(c, run, acts, lo, read, look, hi);
    if run[look].queue == [] && acts[look].choice.intervalOver {
      ShrinkReturned(c, run, acts, lo, look + 1, hi);
    } else {
      StaysUnchanged(c, run, acts, look + 1, hi, run[lo]);
    }
  }

  // ---------------------------------------------------------------- the tasks

  /** Where the main thread can stand inside the call. */
  predicate Within(m: Main, call: Call) {
    match call
    case Push(kind) =>
      match m {
        case ReadIdle(k) => k == kind
        case CheckQueue(k) => k == kind
        case Stretch(_, _, k) => k == kind
        case Enqueue(k) => k == kind
        case Notify => true
        case _ => InShrink(m) && m.then_ == ThenPush(kind)
      }
    case TryShrink => InShrink(m) && m.then_ == Return
    case StopAllTasks => m.Deleting?
    case StopTasksByType(_) => m.Sorting? || m.Repush?
    case Stop => InStop(m)
  }

  /** What the call does to the lists of pushed and deleted tasks, and when it has returned, to the queue. */
  predicate Handles(s: Pool, was: Pool, call: Call) {
    && (Within(s.main, call) || s.main.AtRest?)
    && was.deleted <= s.deleted
    && (call.Push? || call.TryShrink? ==> s.deleted == was.deleted)
    && s.pushed == was.pushed + (if call.Push? && (s.main.Notify? || s.main.AtRest?)
                                 then [Task(|was.pushed|, call.kind)] else [])
    && (call.StopAllTasks? && s.main.AtRest? ==> s.queue == [])
  }

  lemma PushHandles(s: Pool, c: Choice, was: Pool, call: Call)
    requires Sized(s) && MainEnabled(s, c) && InPush(s.main) && Handles(s, was, call)
    ensures Handles(PushStep(s, c), was, call)
  {
  }

  lemma StopHandles(s: Pool, c: Choice, was: Pool, call: Call)
    requires Sized(s) && MainEnabled(s, c) && !InPush(s.main) && !s.main.AtRest? && Handles(s, was, call)
    ensures Handles(MainStep(s, c), was, call)
  {
  }

  lemma HandlesStep(s: Pool, a: Action, was: Pool, call: Call)
    requires Enabled(s, a) && !s.main.AtRest? && Handles(s, was, call)
    ensures Handles(Apply(s, a), was, call)
  {
    if a.Work? || a.Spurious? {
      QuietStep(s, a);
    } else if InPush(s.main) {
      PushHandles(s, a.choice, was, call);
    } else {
      StopHandles(s, a.choice, was, call);
    }
  }

  lemma HandledSoFar(c: Config, run: seq<Pool>, acts: seq<Action>, lo: nat, hi: nat, k: nat)
    requires Returned(c, run, acts, lo, hi) && lo < k <= hi
    ensures Handles(run[k], run[lo], acts[lo].call)
  {
    var call, was := acts[lo].call, run[lo];
    assert run[lo + 1] == Apply(was, acts[lo]);
    forall s, a | Enabled(s, a) && !s.main.AtRest? && Handles(s, was, call) ensures Handles(Apply(s, a), was, call) {
      HandlesStep(s, a, was, call);
    }
    KeptInCall(c, run, acts, lo + 1, k, s => Handles(s, was, call));
  }

  /** A push adds its task and no other call adds one; only the stops delete tasks, and after `stopAllTasks`
      the queue is empty. */
  lemma CallsHandleTasks(c: Config, run: seq<Pool>, acts: seq<Action>, lo: nat, hi: nat)
    requires Returned(c, run, acts, lo, hi)
    ensures run[hi].pushed
         == run[lo].pushed + if acts[lo].call.Push? then [Task(|run[lo].pushed|, acts[lo].call.kind)] else []
    ensures run[lo].deleted <= run[hi].deleted
    ensures acts[lo].call.Push? || acts[lo].call.TryShrink? ==> run[hi].deleted == run[lo].deleted
    ensures acts[lo].call.StopAllTasks? ==> run[hi].queue == []
  {
    HandledSoFar(c, run, acts, lo, hi, hi);
  }

  /** One sleeping thread is woken, if there is one, and no other. */
  ghost predicate OneWoken(ws: seq<Worker>, ws': seq<Worker>) {
    if exists w :: 0 <= w < |ws| && ws[w].Blocked?
    then exists w :: 0 <= w < |ws| && ws[w].Blocked? && ws' == ws[w := Woken]
    else ws' == ws
  }

  lemma NotifyWakesOne(s: Pool, c: Choice)
    requires Sized(s) && MainEnabled(s, c) && s.main.Notify?
    ensures OneWoken(s.workers, PushStep(s, c).workers)
  {
  }

  /** The move with which a push returns wakes one thread, if any is asleep by then. */
  lemma PushWakesOne(c: Config, run: seq<Pool>, acts: seq<Action>, lo: nat, hi: nat)
    requires Returned(c, run, acts, lo, hi) && acts[lo].call.Push?
    ensures OneWoken(run[hi - 1].workers, run[hi].workers)
  {
    var s, a := run[hi - 1], acts[hi - 1];
    assert run[hi] == Apply(s, a) && Enabled(s, a);
    assert lo + 1 < hi;
    HandledSoFar(c, run, acts, lo, hi, hi - 1);
    if a.Work? || a.Spurious? { QuietStep(s, a); }
    NotifyWakesOne(s, a.choice);
  }

  // ---------------------------------------------------------------- threads that end

  /** The thread in slot `i` ends after task `t`, which it holds. */
  predicate Ending(w: Worker, t: Task) {
    w == Holding(t) || w.AbortCheck? || w.Exited? || w.NoThread?
  }

  lemma EndingWorks(s: Pool, j: nat, i: nat, t: Task)
    requires Sized(s) && WorkerEnabled(s, j) && i < |s.workers| && s.abort[i] && Ending(s.workers[i], t)
    ensures Ending(WorkerStep(s, j).workers[i], t)
  {
    if j != i { WorkerFrame(s, j); }
  }

  lemma EndingPushed(s: Pool, c: Choice, i: nat, t: Task)
    requires Sized(s) && MainEnabled(s, c) && i < |s.workers| && PushStep(s, c).abort[i] && Ending(s.workers[i], t)
    ensures Ending(PushStep(s, c).workers[i], t)
  {
  }

  lemma EndingShrunk(s: Pool, c: Choice, i: nat, t: Task)
    requires Sized(s) && MainEnabled(s, c) && i < |s.workers| && Ending(s.workers[i], t)
    ensures Ending(ShrinkStep(s, c).workers[i], t) && Ending(StopStep(s, c).workers[i], t)
  {
  }

  lemma EndingStep(s: Pool, a: Action, i: nat, t: Task)
    requires Enabled(s, a) && i < |s.workers| && i < |Apply(s, a).abort|
    requires s.abort[i] && Apply(s, a).abort[i] && Ending(s.workers[i], t)
    ensures i < |Apply(s, a).workers| && Ending(Apply(s, a).workers[i], t)
  {
    match a {
      case Work(j) => EndingWorks(s, j, i, t);
      case Spurious(j) => assert !s.workers[i].Blocked?;
      case Invoke(_) =>
      case MainMove(c) =>
        if InPush(s.main) { EndingPushed(s, c, i, t); } else { EndingShrunk(s, c, i, t); }
    }
  }

  /** A thread that has been told to end while it was busy with a task takes no other one. */
  lemma {:induction false} AbortedThreadsEnd(c: Config, run: seq<Pool>, acts: seq<Action>, lo: nat, hi: nat,
                                             i: nat, t: Task)
    requires IsRun(c, run, acts) && lo <= hi < |run|
    requires forall k :: lo <= k <= hi ==> i < |run[k].abort| && run[k].abort[i]
    requires i < |run[lo].workers| && run[lo].workers[i] == Holding(t)
    ensures i < |run[hi].workers|
    ensures var w := run[hi].workers[i]; w == Holding(t) || w.AbortCheck? || w.Exited? || w.NoThread?
    decreases hi
  {
    if lo < hi {
      AbortedThreadsEnd(c, run, acts, lo, hi - 1, i, t);
      var s, a := run[hi - 1], acts[hi - 1];
      assert run[hi] == Apply(s, a);
      assert i < |s.abort| && s.abort[i];
      EndingStep(s, a, i, t);
    }
  }

  /** When `stop` is over there are no threads and no tasks left. */
  lemma {:induction false} StopLeavesNothing(c: Config, run: seq<Pool>, acts: seq<Action>, k: nat)
    requires IsRun(c, run, acts) && k < |run| && run[k].main.Stopped?
    ensures run[k].queue == [] && run[k].initedNum == 0
    ensures forall i :: 0 <= i < |run[k].workers| ==> run[k].workers[i].NoThread?
  {
    RunKeepsBooks(c, run, acts, k);
    var s := run[k];
    forall i | 0 <= i < |s.workers| ensures s.workers[i].NoThread? && !s.inited[i] { assert SlotOk(s, i); }
    CountBounds(s.inited, IsSet);
    var t, a := run[k - 1], acts[k - 1];
    assert s == Apply(t, a) && Enabled(t, a);
    if a.Work? || a.Spurious? {
      QuietStep(t, a);
      StopLeavesNothing(c, run, acts, k - 1);
    }
  }
}
