/** When a task can be left queued with nobody awake to take it: exactly after a `stopTasksByType` that has
    put tasks back, and in pools whose minimum is zero. */
module ThreadPoolStranding {
  import opened Wrappers
  import opened ThreadPool
  import opened ThreadPoolBooks
  import opened ThreadPoolWakeup
  import opened ThreadPoolPaths

  /** A queued task, no call under way, and only threads that sleep. */
  predicate Stranded(s: Pool) {
    s.main.AtRest? && s.queue != [] && AllAsleep(s)
  }

  const HERE_NOW := MainMove(Choice(false, 0))

  // ---------------------------------------------------------------- stopTasksByType

  /** The first loop of `stopTasksByType`, without any worker in between. */
  lemma {:induction false} SortedOut(s: Pool) returns (t: Pool)
    requires Books(s) && s.main.Sorting?
    requires s.main.kept != [] || exists i :: 0 <= i < |s.queue| && s.queue[i].kind != s.main.stopped
    ensures Reaches(s, t, Inside) && Books(t) && t.main.Sorting? && t.queue == [] && t.main.kept != []
    decreases |s.queue|
  {
    if s.queue == [] {
      t := s;
      ReachesSelf(s, Inside);
    } else {
      var u := Apply(s, HERE_NOW);
      StepKeepsBooks(s, HERE_NOW);
      if s.main.kept == [] && s.queue[0].kind == s.main.stopped {
        var i :| 0 <= i < |s.queue| && s.queue[i].kind != s.main.stopped;
        assert u.queue[i - 1] == s.queue[i];
      }
      t := SortedOut(u);
      ReachesBy(s, HERE_NOW, t, Inside);
    }
  }

  /** The second loop, while all workers sleep. */
  lemma {:induction false} PutBack(s: Pool) returns (t: Pool)
    requires Books(s) && s.main.Repush? && AllAsleep(s) && (s.queue != [] || s.main.kept != [])
    ensures Reaches(s, t, Inside) && Stranded(t)
    decreases |s.main.kept|
  {
    var u := Apply(s, HERE_NOW);
    StepKeepsBooks(s, HERE_NOW);
    if s.main.kept == [] {
      t := u;
      ReachesSelf(u, Inside);
    } else {
      t := PutBack(u);
    }
    ReachesBy(s, HERE_NOW, t, Inside);
  }

  lemma PutBackStrands(s: Pool, kind: TaskType) returns (t: Pool)
    requires Books(s) && s.main.AtRest? && exists i :: 0 <= i < |s.queue| && s.queue[i].kind != kind
    ensures Reaches(CallStep(s, StopTasksByType(kind)), t, Inside) && Stranded(t)
  {
    var s1 := CallStep(s, StopTasksByType(kind));
    CallKeepsBooks(s, StopTasksByType(kind));
    var s2 := SortedOut(s1);
    var s3 := WorkersSettle(s2);
    SettledStands(s3);
    var s4 := Apply(s3, HERE_NOW);
    StepKeepsBooks(s3, HERE_NOW);
    t := PutBack(s4);
    ReachesBy(s3, HERE_NOW, t, Inside);
    ReachesThen(s2, s3, t, Inside);
    ReachesThen(s1, s2, t, Inside);
  }

  /** All that is queued is of the type that is being stopped, so nothing will be put back. */
  predicate NothingElse(s: Pool, kind: TaskType) {
    || (s.main.Sorting? && s.main.stopped == kind && s.main.kept == []
        && forall i :: 0 <= i < |s.queue| ==> s.queue[i].kind == kind)
    || (s.queue == [] && ((s.main.Repush? && s.main.kept == []) || s.main.AtRest?))
  }

  lemma {:induction false} NothingElsePath(s: Pool, t: Pool, acts: seq<Action>, kind: TaskType)
    requires NothingElse(s, kind) && IsPath(s, t, acts, Inside)
    ensures NothingElse(t, kind)
    decreases |acts|
  {
    if acts != [] {
      NothingElsePath(Apply(s, acts[0]), t, acts[1..], kind);
    }
  }

  /** From any state outside a call, a call of `stopTasksByType` can end with a task that nobody is awake to
      take if and only if a task of another type is queued when it is called. */
  lemma StopTasksByTypeStrandsExactlyIf(s: Pool, kind: TaskType)
    requires Books(s) && s.main.AtRest?
    ensures (exists t :: Reaches(CallStep(s, StopTasksByType(kind)), t, Inside) && Stranded(t))
       <==> exists i :: 0 <= i < |s.queue| && s.queue[i].kind != kind
  {
    var s1 := CallStep(s, StopTasksByType(kind));
    if exists i :: 0 <= i < |s.queue| && s.queue[i].kind != kind {
      var t := PutBackStrands(s, kind);
    } else {
      forall t | Reaches(s1, t, Inside) ensures !Stranded(t) {
        var acts :| IsPath(s1, t, acts, Inside);
        NothingElsePath(s1, t, acts, kind);
      }
    }
  }

  /** So it is in every state of every run of every pool. */
  lemma StopTasksByTypeInARun(c: Config, run: seq<Pool>, acts: seq<Action>, k: nat, kind: TaskType)
    requires IsRun(c, run, acts) && k < |run| && run[k].main.AtRest?
    ensures (exists t :: Reaches(CallStep(run[k], StopTasksByType(kind)), t, Inside) && Stranded(t))
       <==> exists i :: 0 <= i < |run[k].queue| && run[k].queue[i].kind != kind
  {
    RunKeepsBooks(c, run, acts, k);
    StopTasksByTypeStrandsExactlyIf(run[k], kind);
  }
}
