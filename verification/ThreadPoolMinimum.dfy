/** Pools whose minimum of threads is zero: a push can end the last threads and then enqueue. */
module ThreadPoolMinimum {
  import opened Wrappers
  import opened ThreadPool
  import opened ThreadPoolBooks
  import opened ThreadPoolWakeup
  import opened ThreadPoolPaths
  import opened ThreadPoolStranding

  const INTERVAL_OVER := MainMove(Choice(true, 0))

  lemma AsleepFacts(s: Pool)
    requires Books(s) && AllAsleep(s)
    ensures s.mutex == None
    ensures forall i :: 0 <= i < |s.workers| ==>
      (s.idle[i] <==> s.workers[i].Blocked?) && (s.inited[i] <==> s.idle[i])
  {
    forall i | 0 <= i < |s.workers|
      ensures (s.idle[i] <==> s.workers[i].Blocked?) && (s.inited[i] <==> s.idle[i]) && s.mutex != Some(i)
    {
      assert SlotOk(s, i);
    }
  }

  /** The number of idle threads is the number of threads when all sleep. */
  lemma {:induction false} AllCounted(ws: seq<Worker>, inited: seq<bool>)
    requires |ws| == |inited| && forall i :: 0 <= i < |ws| ==> (Counted(ws[i]) <==> inited[i])
    ensures Count(ws, Counted) == Count(inited, IsSet)
  {
    if ws != [] {
      AllCounted(ws[1..], inited[1..]);
    }
  }

  lemma IdleIsInited(s: Pool)
    requires Books(s) && AllAsleep(s)
    ensures s.idleNum == s.initedNum
  {
    AsleepFacts(s);
    AllCounted(s.workers, s.inited);
  }

  // ---------------------------------------------------------------- a shrink while everybody sleeps

  /** Of the slots before `next`, the scan has marked the idle ones. */
  predicate MarkedBefore(s: Pool, ids: seq<nat>, next: nat) {
    forall i :: 0 <= i < next && i < |s.idle| && s.idle[i] ==> i in ids
  }

  /** The shrink has touched nothing but its own list and the abort flags. */
  predicate SameScan(s: Pool, t: Pool) {
    && t.queue == s.queue && t.workers == s.workers && t.cfg == s.cfg && t.initedNum == s.initedNum && t.idle == s.idle
    && InShrink(s.main) && InShrink(t.main) && t.main.then_ == s.main.then_
  }

  /** The pool after one slot of the scan. */
  function Scanned(s: Pool): Pool
    requires Sized(s) && s.main.ShrinkScan? && s.main.next < s.cfg.maxNum
  {
    var i, ids, k := s.main.next, s.main.ids, s.main.then_;
    if s.idle[i] then s.(abort := s.abort[i := true], main := ShrinkScan(i + 1, ids + [i], k))
    else s.(main := ShrinkScan(i + 1, ids, k))
  }

  lemma MoveReaches(s: Pool, t: Pool)
    requires Books(s) && Enabled(s, HERE_NOW) && t == Apply(s, HERE_NOW)
    ensures Reaches(s, t, Inside) && Books(t)
  {
    StepKeepsBooks(s, HERE_NOW);
    ReachesSelf(t, Inside);
    ReachesBy(s, HERE_NOW, t, Inside);
  }

  lemma ScannedReached(s: Pool)
    requires Books(s) && s.main.ShrinkScan? && s.main.next < s.cfg.maxNum && |s.main.ids| < Quota(s)
    ensures Reaches(s, Scanned(s), Inside) && Books(Scanned(s))
  {
    if s.idle[s.main.next] {
      var u := s.(main := ShrinkMark(s.main.next, s.main.ids, s.main.then_));
      MoveReaches(s, u);
      MoveReaches(u, Scanned(s));
      ReachesThen(s, u, Scanned(s), Inside);
    } else {
      MoveReaches(s, Scanned(s));
    }
  }

  lemma ScannedMarks(s: Pool)
    requires Sized(s) && s.main.ShrinkScan? && s.main.next < s.cfg.maxNum && MarkedBefore(s, s.main.ids, s.main.next)
    ensures MarkedBefore(Scanned(s), Scanned(s).main.ids, Scanned(s).main.next) && SameScan(s, Scanned(s))
  {
  }

  /** The scan marks idle threads, up to the quota. */
  lemma {:induction false} ScanPath(s: Pool) returns (t: Pool)
    requires Books(s) && s.main.ShrinkScan? && AllAsleep(s) && MarkedBefore(s, s.main.ids, s.main.next)
    ensures Reaches(s, t, Inside) && Books(t) && SameScan(s, t) && t.main.ShrinkNotify?
    ensures |t.main.ids| <= Quota(s)
    ensures |t.main.ids| >= Quota(s) || MarkedBefore(t, t.main.ids, t.cfg.maxNum)
    decreases s.cfg.maxNum - s.main.next
  {
    if s.main.next < s.cfg.maxNum && |s.main.ids| < Quota(s) {
      ScannedReached(s);
      ScannedMarks(s);
      t := ScanPath(Scanned(s));
      ReachesThen(s, Scanned(s), t, Inside);
    } else {
      t := Apply(s, HERE_NOW);
      MoveReaches(s, t);
    }
  }

  /** Threads that have ended are joined one after the other. */
  lemma {:induction false} JoinPath(s: Pool) returns (t: Pool)
    requires Books(s) && s.main.ShrinkJoin? && !s.isDone
    requires forall i :: 0 <= i < |s.workers| ==>
      s.workers[i].NoThread? || s.workers[i].Blocked? || s.workers[i].Exited?
    ensures Reaches(s, t, Inside) && Books(t) && t.main == Continue(s.main.then_) && AllAsleep(t)
    ensures t.queue == s.queue && t.cfg == s.cfg && t.initedNum == s.initedNum - |s.main.ids| && !t.isDone
    ensures forall i :: 0 <= i < |t.inited| ==> t.inited[i] == (s.inited[i] && i !in s.main.ids)
    decreases |s.main.ids|
  {
    var ids := s.main.ids;
    if ids != [] {
      assert ids[0] in ids && SlotOk(s, ids[0]);
    } else {
      forall i | 0 <= i < |s.workers| ensures s.workers[i].Blocked? || s.workers[i].NoThread? {
        assert SlotOk(s, i);
      }
    }
    var u := Apply(s, HERE_NOW);
    StepKeepsBooks(s, HERE_NOW);
    if ids == [] {
      t := u;
      ReachesSelf(u, Inside);
    } else {
      t := JoinPath(u);
      assert forall i :: i in ids <==> i == ids[0] || i in ids[1..];
    }
    ReachesBy(s, HERE_NOW, t, Inside);
  }

  /** How many threads the shrink can end. */
  function Ended(s: Pool): int {
    if s.initedNum < s.cfg.shrinkStep then s.initedNum else s.cfg.shrinkStep
  }

  lemma {:induction false} PathStaysOpen(s: Pool, t: Pool, acts: seq<Action>)
    requires IsPath(s, t, acts, Inside)
    ensures t.isDone == s.isDone
    decreases |acts|
  {
    if acts != [] {
      PathStaysOpen(Apply(s, acts[0]), t, acts[1..]);
    }
  }

  lemma PathKeeps(s: Pool, t: Pool)
    requires Books(s) && Reaches(s, t, Inside) && s.isDone == false
    ensures t.isDone == false
  {
    var acts :| IsPath(s, t, acts, Inside);
    PathStaysOpen(s, t, acts);
  }

  /** A shrink of a pool without a minimum, while everybody sleeps and nothing is queued. */
  lemma ShrinkPath(s: Pool) returns (t: Pool)
    requires Books(s) && s.cfg.minNum == 0 && AllAsleep(s) && s.queue == [] && !s.isDone
    requires s.main.ShrinkScan? && s.main.next == 0 && s.main.ids == []
    ensures Reaches(s, t, Inside) && Books(t) && t.main == Continue(s.main.then_) && AllAsleep(t) && !t.isDone
    ensures t.queue == [] && t.cfg == s.cfg && t.initedNum == s.initedNum - Ended(s)
  {
    var s1 := ScanPath(s);
    PathKeeps(s, s1);
    AsleepFacts(s1);
    var s2 := Apply(s1, HERE_NOW);
    StepKeepsBooks(s1, HERE_NOW);
    var s3 := WorkersSettle(s2);
    SettledStands(s3);
    t := JoinPath(s3);
    if |s1.main.ids| < Quota(s) {
      forall i | 0 <= i < |t.inited| ensures !t.inited[i] {
        assert s3.inited[i] == s1.inited[i];
      }
      CountBounds(t.inited, IsSet);
    }
    ReachesThen(s2, s3, t, Inside);
    ReachesBy(s1, HERE_NOW, t, Inside);
    ReachesThen(s, s1, t, Inside);
  }

  // ---------------------------------------------------------------- a push that nobody serves

  /** A push that finds no thread left. */
  lemma PushToNobody(s: Pool) returns (t: Pool)
    requires Books(s) && s.main.Enqueue? && AllAsleep(s) && s.initedNum == 0
    ensures Reaches(s, t, Inside) && Stranded(t)
  {
    CountBounds(s.inited, IsSet);
    AsleepFacts(s);
    assert forall i :: 0 <= i < |s.workers| ==> !s.inited[i];
    var s1 := Apply(s, HERE_NOW);
    t := Apply(s1, HERE_NOW);
    ReachesSelf(t, Inside);
    ReachesBy(s1, HERE_NOW, t, Inside);
    ReachesBy(s, HERE_NOW, t, Inside);
  }

  /** A pool without minimum in which everybody sleeps. */
  predicate Dormant(s: Pool) {
    && Books(s) && s.main.AtRest? && AllAsleep(s) && s.queue == []
    && s.cfg.minNum == 0 && !s.cfg.fixedSize && s.initedNum > 0
  }

  /** The next push ends the last threads, if a single shrink can, and then enqueues. */
  lemma LastPush(s: Pool) returns (t: Pool)
    requires Dormant(s) && s.initedNum <= s.cfg.shrinkStep
    ensures Reaches(s, t, Plain) && Stranded(t)
  {
    var call := Invoke(Push(Default));
    IdleIsInited(s);
    var s1 := Apply(s, call);
    StepKeepsBooks(s, call);
    var s2 := Apply(s1, HERE_NOW);
    StepKeepsBooks(s1, HERE_NOW);
    var s3 := Apply(s2, INTERVAL_OVER);
    StepKeepsBooks(s2, INTERVAL_OVER);
    var s4 := ShrinkPath(s3);
    t := PushToNobody(s4);
    ReachesThen(s3, s4, t, Inside);
    ReachesBy(s2, INTERVAL_OVER, t, Inside);
    ReachesBy(s1, HERE_NOW, t, Inside);
    ReachesWeaken(s1, t, Inside, Plain);
    ReachesBy(s, call, t, Plain);
  }

  /** More threads than that are first shrunk away. */
  lemma {:induction false} DormantStrands(s: Pool) returns (t: Pool)
    requires Dormant(s)
    ensures Reaches(s, t, Plain) && Stranded(t)
    decreases s.initedNum
  {
    if s.initedNum <= s.cfg.shrinkStep {
      t := LastPush(s);
    } else {
      var call := Invoke(TryShrink);
      var s1 := Apply(s, call);
      StepKeepsBooks(s, call);
      var s2 := ShrinkPath(s1);
      t := DormantStrands(s2);
      ReachesWeaken(s1, s2, Inside, Plain);
      ReachesThen(s1, s2, t, Plain);
      ReachesBy(s, call, t, Plain);
    }
  }

  // ---------------------------------------------------------------- the first push

  /** Nobody has taken the mutex yet. */
  predicate Fresh(s: Pool) {
    forall i :: 0 <= i < |s.workers| ==> s.workers[i].NoThread? || s.workers[i].FirstPop?
  }

  lemma FreshMutex(s: Pool)
    requires Books(s) && Fresh(s)
    ensures s.mutex == None
  {
    forall i | 0 <= i < |s.workers| ensures s.mutex != Some(i) {
      assert SlotOk(s, i);
    }
  }

  lemma {:induction false} StretchPath(s: Pool) returns (t: Pool)
    requires Books(s) && s.main.Stretch? && Fresh(s)
    ensures Reaches(s, t, Inside) && Books(t) && t.main.Enqueue? && Fresh(t) && t.queue == s.queue && t.cfg == s.cfg
    ensures t.initedNum >= s.initedNum
    ensures s.main.next < s.cfg.maxNum && !s.inited[s.main.next] ==> t.initedNum > s.initedNum
    decreases s.cfg.maxNum - s.main.next
  {
    var u := Apply(s, HERE_NOW);
    StepKeepsBooks(s, HERE_NOW);
    if u.main.Enqueue? {
      t := u;
      ReachesSelf(u, Inside);
    } else {
      t := StretchPath(u);
    }
    ReachesBy(s, HERE_NOW, t, Inside);
  }

  /** The rest of the first push, and what its threads make of it. */
  lemma FirstTaskServed(s: Pool) returns (t: Pool)
    requires Books(s) && s.main.Enqueue? && Fresh(s) && s.cfg.minNum == 0 && !s.cfg.fixedSize && s.initedNum > 0
    ensures Reaches(s, t, Plain) && Stranded(t)
  {
    FreshMutex(s);
    var s1 := Apply(s, HERE_NOW);
    StepKeepsBooks(s, HERE_NOW);
    var s2 := Apply(s1, HERE_NOW);
    StepKeepsBooks(s1, HERE_NOW);
    var s3 := WorkersSettle(s2);
    SettledStands(s3);
    if s3.queue != [] {
      t := s3;
      ReachesSelf(s3, Plain);
    } else {
      t := DormantStrands(s3);
    }
    ReachesWeaken(s2, s3, Inside, Plain);
    ReachesThen(s2, s3, t, Plain);
    ReachesBy(s1, HERE_NOW, t, Plain);
    ReachesBy(s, HERE_NOW, t, Plain);
  }

  lemma NoMinimumStrands(c: Config) returns (t: Pool)
    requires ConfigOk(c) && c.minNum == 0
    ensures Reaches(Init(c), t, Plain) && Stranded(t)
  {
    var s, call := Init(c), Invoke(Push(Default));
    InitBooks(c);
    var s1 := Apply(s, call);
    StepKeepsBooks(s, call);
    if c.fixedSize {
      t := PushToNobody(s1);
      ReachesWeaken(s1, t, Inside, Plain);
    } else {
      var s2 := Apply(s1, HERE_NOW);
      StepKeepsBooks(s1, HERE_NOW);
      var s3 := StretchPath(s2);
      if s3.initedNum == 0 {
        t := PushToNobody(s3);
        ReachesWeaken(s3, t, Inside, Plain);
      } else {
        t := FirstTaskServed(s3);
      }
      ReachesWeaken(s2, s3, Inside, Plain);
      ReachesThen(s2, s3, t, Plain);
      ReachesBy(s1, HERE_NOW, t, Plain);
    }
    ReachesBy(s, call, t, Plain);
  }

  // ---------------------------------------------------------------- the other direction

  lemma {:induction false} PlainPutsNothingBack(c: Config, run: seq<Pool>, acts: seq<Action>, k: nat)
    requires IsRun(c, run, acts) && k < |run| && forall j :: 0 <= j < |acts| ==> Plain(acts[j])
    ensures !run[k].main.Sorting? && !run[k].main.Repush?
  {
    if k > 0 {
      PlainPutsNothingBack(c, run, acts, k - 1);
      assert Plain(acts[k - 1]) && Enabled(run[k - 1], acts[k - 1]);
    }
  }

  /** Without calls of `stopTasksByType`, a pool can strand a task if and only if its minimum is zero. */
  lemma StrandsExactlyWithoutMinimum(c: Config)
    requires ConfigOk(c)
    ensures (exists t :: Reaches(Init(c), t, Plain) && Stranded(t)) <==> c.minNum == 0
  {
    if c.minNum == 0 {
      var t := NoMinimumStrands(c);
    } else {
      forall t | Reaches(Init(c), t, Plain) ensures !Stranded(t) {
        var acts :| IsPath(Init(c), t, acts, Plain);
        var run := States(Init(c), acts);
        PathIsRun(Init(c), t, acts, Plain);
        forall k | 0 <= k < |run| ensures Kept(run[k].main) == [] {
          PlainPutsNothingBack(c, run, acts, k);
        }
        if Stranded(t) {
          NoLostWakeup(c, run, acts, |acts|);
        }
      }
    }
  }
}
