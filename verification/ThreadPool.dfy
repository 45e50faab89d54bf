/** The thread pool of cocos/base/ThreadPool.cpp as a protocol.

    One main ("cocos") thread and one worker per slot take turns; a step is what a thread does
    between two points at which another thread could notice. `_mutex` is explicit, and the task
    queue's own lock makes each push and each pop one step. Only the mutex-protected notifications
    of the main thread are taken as a single step: they need `_mutex` free and keep nobody out. */
module ThreadPool {
  import opened Wrappers

  datatype TaskType = Default | Network | Io | Audio | User

  /** A task is its place in the order of pushes, and its type. */
  datatype Task = Task(id: nat, kind: TaskType)

  /** Where a slot's thread stands in the body of `setThread`. */
  datatype Worker =
    | NoThread
    | FirstPop
    | Holding(task: Task)          // popped; the callback has not run yet
    | AbortCheck
    | Polling
    | Locking                      // found the queue empty, wants `_mutex`
    | CountIdle                    // from here to Blocked or the release: `_mutex` is held
    | RaiseFlag
    | PredPop                      // the wait predicate pops ...
    | PredTest                     // ... and then looks at `_isDone` and the abort flag
    | AboutToBlock
    | Blocked
    | Woken                        // notified, wants `_mutex` back
    | LowerFlag(got: Option<Task>)
    | UncountIdle(got: Option<Task>)
    | Exited

  datatype Then = Return | ThenPush(kind: TaskType)

  /** Where the main thread stands. */
  datatype Main =
    | AtRest
    | ReadIdle(kind: TaskType)
    | CheckQueue(kind: TaskType)
    | ShrinkScan(next: nat, ids: seq<nat>, then_: Then)
    | ShrinkMark(next: nat, ids: seq<nat>, then_: Then)   // has read a raised idle flag at `next`
    | ShrinkNotify(ids: seq<nat>, then_: Then)
    | ShrinkJoin(ids: seq<nat>, then_: Then)
    | Stretch(next: nat, started: nat, kind: TaskType)
    | Enqueue(kind: TaskType)
    | Notify                                              // enqueued, not yet notified
    | Deleting                                            // stopAllTasks
    | Sorting(stopped: TaskType, kept: seq<Task>, from: nat)  // stopTasksByType, first loop
    | Repush(stopped: TaskType, kept: seq<Task>, from: nat)   // stopTasksByType, second loop
    | StopNotify
    | StopJoin(next: nat, joined: bool)
    | StopDelete(joined: bool)
    | Stopped

  datatype Config = Config(minNum: nat, maxNum: nat, fixedSize: bool, shrinkStep: nat, stretchStep: nat)

  datatype Pool = Pool(
    cfg: Config,
    workers: seq<Worker>,
    abort: seq<bool>,
    idle: seq<bool>,
    inited: seq<bool>,
    idleNum: int,
    initedNum: int,
    isDone: bool,
    mutex: Option<nat>,       // the slot of the worker that holds it
    queue: seq<Task>,
    main: Main,
    pushed: seq<Task>,        // every task ever pushed, in order
    ran: seq<Task>,
    deleted: seq<Task>)

  /** The caller may ask for any minimum and maximum; `init` raises the maximum to the minimum. */
  predicate ConfigOk(c: Config) {
    c.minNum <= c.maxNum && c.shrinkStep > 0 && c.stretchStep > 0
  }

  function Init(c: Config): Pool
    requires ConfigOk(c)
  {
    Pool(c,
         seq(c.maxNum, i => if i < c.minNum then FirstPop else NoThread),
         seq(c.maxNum, i => i >= c.minNum),
         seq(c.maxNum, i => false),
         seq(c.maxNum, i => i < c.minNum),
         0, c.minNum, false, None, [], AtRest, [], [], [])
  }

  // ---------------------------------------------------------------- steps

  predicate Sized(s: Pool) {
    |s.workers| == |s.abort| == |s.idle| == |s.inited| == s.cfg.maxNum
  }

  predicate WorkerEnabled(s: Pool, i: nat) {
    i < |s.workers| &&
    match s.workers[i]
    case NoThread | Blocked | Exited => false
    case Locking | Woken => s.mutex == None
    case _ => true
  }

  function Put(s: Pool, i: nat, w: Worker): Pool
    requires i < |s.workers|
  {
    s.(workers := s.workers[i := w])
  }

  /** One step of the worker in slot `i`. */
  function WorkerStep(s: Pool, i: nat): Pool
    requires Sized(s) && WorkerEnabled(s, i)
  {
    match s.workers[i]
    case FirstPop | Polling =>
      if s.queue == [] then Put(s, i, Locking)
      else Put(s, i, Holding(s.queue[0])).(queue := s.queue[1..])
    case Holding(t) => Put(s, i, AbortCheck).(ran := s.ran + [t])
    case AbortCheck => Put(s, i, if s.abort[i] then Exited else Polling)
    case Locking => Put(s, i, CountIdle).(mutex := Some(i))
    case CountIdle => Put(s, i, RaiseFlag).(idleNum := s.idleNum + 1)
    case RaiseFlag => Put(s, i, PredPop).(idle := s.idle[i := true])
    case PredPop =>
      if s.queue == [] then Put(s, i, PredTest)
      else Put(s, i, LowerFlag(Some(s.queue[0]))).(queue := s.queue[1..])
    case PredTest => Put(s, i, if s.isDone || s.abort[i] then LowerFlag(None) else AboutToBlock)
    case AboutToBlock => Put(s, i, Blocked).(mutex := None)
    case Woken => Put(s, i, PredPop).(mutex := Some(i))
    case LowerFlag(got) => Put(s, i, UncountIdle(got)).(idle := s.idle[i := false])
    case UncountIdle(got) =>
      Put(s, i, if got.Some? then Holding(got.value) else Exited)
        .(idleNum := s.idleNum - 1, mutex := None)
    case _ => s
  }

  function WakeAll(ws: seq<Worker>): (r: seq<Worker>)
    ensures |r| == |ws|
    ensures forall i :: 0 <= i < |ws| ==> r[i] == if ws[i].Blocked? then Woken else ws[i]
  {
    seq(|ws|, i requires 0 <= i < |ws| => if ws[i].Blocked? then Woken else ws[i])
  }

  predicate SomeBlocked(s: Pool) {
    exists i :: 0 <= i < |s.workers| && s.workers[i].Blocked?
  }

  function Continue(t: Then): Main {
    match t case Return => AtRest case ThenPush(kind) => Enqueue(kind)
  }

  /** How many threads the running shrink may join. */
  function Quota(s: Pool): int {
    if s.initedNum - s.cfg.minNum < s.cfg.shrinkStep then s.initedNum - s.cfg.minNum else s.cfg.shrinkStep
  }

  /** What the clock and the condition variable decide: whether the shrink interval is over, and
      whom `notify_one` wakes. */
  datatype Choice = Choice(intervalOver: bool, wake: nat)

  predicate MainEnabled(s: Pool, c: Choice)
    requires Sized(s)
  {
    match s.main
    case AtRest | Stopped => false
    case ShrinkNotify(_, _) | StopNotify => s.mutex == None
    case Notify =>
      s.mutex == None && (SomeBlocked(s) ==> c.wake < |s.workers| && s.workers[c.wake].Blocked?)
    case ShrinkJoin(ids, _) => ids != [] ==> ids[0] < |s.workers| && s.workers[ids[0]].Exited?
    case StopJoin(i, _) => i < |s.workers| && s.inited[i] ==> s.workers[i].Exited?
    case _ => true
  }

  /** `pushTask` up to the enqueue, with `stretchPool`, and the two steps around the notification. */
  function PushStep(s: Pool, c: Choice): Pool
    requires Sized(s) && MainEnabled(s, c)
  {
    match s.main
    case ReadIdle(kind) =>
      s.(main := if s.idleNum > s.cfg.minNum then CheckQueue(kind)
                 else if s.idleNum == 0 then Stretch(0, 0, kind) else Enqueue(kind))
    case CheckQueue(kind) =>
      s.(main := if s.queue == [] && c.intervalOver then ShrinkScan(0, [], ThenPush(kind)) else Enqueue(kind))
    case Stretch(i, n, kind) =>
      if i >= s.cfg.maxNum then s.(main := Enqueue(kind))
      else if s.inited[i] then s.(main := Stretch(i + 1, n, kind))
      else Put(s, i, FirstPop).(abort := s.abort[i := false], inited := s.inited[i := true],
                                initedNum := s.initedNum + 1,
                                main := if n + 1 >= s.cfg.stretchStep then Enqueue(kind)
                                        else Stretch(i + 1, n + 1, kind))
    case Enqueue(kind) =>
      var t := Task(|s.pushed|, kind);
      s.(queue := s.queue + [t], pushed := s.pushed + [t], main := Notify)
    case Notify =>
      (if SomeBlocked(s) then Put(s, c.wake, Woken) else s).(main := AtRest)
    case _ => s
  }

  /** `tryShrinkPool`. */
  function ShrinkStep(s: Pool, c: Choice): Pool
    requires Sized(s) && MainEnabled(s, c)
  {
    match s.main
    case ShrinkScan(i, ids, k) =>
      s.(main := if i >= s.cfg.maxNum || |ids| >= Quota(s) then ShrinkNotify(ids, k)
                 else if s.idle[i] then ShrinkMark(i, ids, k) else ShrinkScan(i + 1, ids, k))
    case ShrinkMark(i, ids, k) =>
      if i < s.cfg.maxNum then s.(abort := s.abort[i := true], main := ShrinkScan(i + 1, ids + [i], k)) else s
    case ShrinkNotify(ids, k) => s.(workers := WakeAll(s.workers), main := ShrinkJoin(ids, k))
    case ShrinkJoin(ids, k) =>
      if ids == [] then s.(main := Continue(k))
      else Put(s, ids[0], NoThread).(inited := s.inited[ids[0] := false], initedNum := s.initedNum - 1,
                                     main := ShrinkJoin(ids[1..], k))
    case _ => s
  }

  /** `stopAllTasks` and the two loops of `stopTasksByType`. */
  function StopTasksStep(s: Pool): Pool {
    match s.main
    case Deleting =>
      if s.queue == [] then s.(main := AtRest)
      else s.(queue := s.queue[1..], deleted := s.deleted + [s.queue[0]])
    case Sorting(kind, kept, from) =>
      if s.queue == [] then s.(main := Repush(kind, kept, from))
      else if s.queue[0].kind == kind then s.(queue := s.queue[1..], deleted := s.deleted + [s.queue[0]])
      else s.(queue := s.queue[1..], main := Sorting(kind, kept + [s.queue[0]], from))
    case Repush(kind, kept, from) =>
      if kept == [] then s.(main := AtRest)
      else s.(queue := s.queue + [kept[0]], main := Repush(kind, kept[1..], from))
    case _ => s
  }

  /** `stop`, which the destructor calls, with `joinThread`. */
  function StopStep(s: Pool, c: Choice): Pool
    requires Sized(s) && MainEnabled(s, c)
  {
    match s.main
    case StopNotify => s.(workers := WakeAll(s.workers), main := StopJoin(0, false))
    case StopJoin(i, joined) =>
      if i >= s.cfg.maxNum then s.(main := StopDelete(joined))
      else if s.inited[i] then Put(s, i, NoThread).(inited := s.inited[i := false], initedNum := s.initedNum - 1,
                                                    main := StopJoin(i + 1, true))
      else s.(main := StopJoin(i + 1, joined))
    case StopDelete(joined) =>
      if s.queue == [] then s.(main := Stopped)
      else s.(queue := s.queue[1..], deleted := s.deleted + [s.queue[0]])
    case _ => s
  }

  predicate InPush(m: Main) { m.ReadIdle? || m.CheckQueue? || m.Stretch? || m.Enqueue? || m.Notify? }

  predicate InShrink(m: Main) { m.ShrinkScan? || m.ShrinkMark? || m.ShrinkNotify? || m.ShrinkJoin? }

  predicate InStopTasks(m: Main) { m.Deleting? || m.Sorting? || m.Repush? }

  predicate InStop(m: Main) { m.StopNotify? || m.StopJoin? || m.StopDelete? || m.Stopped? }

  /** One step of the main thread inside a call. */
  function MainStep(s: Pool, c: Choice): Pool
    requires Sized(s) && MainEnabled(s, c)
  {
    if InPush(s.main) then PushStep(s, c)
    else if InShrink(s.main) then ShrinkStep(s, c)
    else if InStopTasks(s.main) then StopTasksStep(s)
    else StopStep(s, c)
  }

  datatype Call = Push(kind: TaskType) | TryShrink | StopAllTasks | StopTasksByType(kind: TaskType) | Stop

  function CallStep(s: Pool, c: Call): Pool {
    match c
    case Push(kind) => s.(main := if s.cfg.fixedSize then Enqueue(kind) else ReadIdle(kind))
    case TryShrink => s.(main := ShrinkScan(0, [], Return))
    case StopAllTasks => s.(main := Deleting)
    case StopTasksByType(kind) => s.(main := Sorting(kind, [], |s.deleted|))
    case Stop => s.(isDone := true, main := StopNotify)
  }

  datatype Action = Work(slot: nat) | Spurious(slot: nat) | MainMove(choice: Choice) | Invoke(call: Call)

  predicate Enabled(s: Pool, a: Action) {
    Sized(s) &&
    match a
    case Work(i) => WorkerEnabled(s, i)
    case Spurious(i) => i < |s.workers| && s.workers[i].Blocked?
    case MainMove(c) => MainEnabled(s, c)
    case Invoke(_) => s.main.AtRest?
  }

  function Apply(s: Pool, a: Action): Pool
    requires Enabled(s, a)
  {
    match a
    case Work(i) => WorkerStep(s, i)
    case Spurious(i) => Put(s, i, Woken)
    case MainMove(c) => MainStep(s, c)
    case Invoke(c) => CallStep(s, c)
  }

  /** `run` is an interleaving of the pool's threads from its construction on. */
  ghost predicate IsRun(c: Config, run: seq<Pool>, acts: seq<Action>) {
    && ConfigOk(c)
    && |run| == |acts| + 1
    && run[0] == Init(c)
    && forall k {:trigger acts[k]} :: 0 <= k < |acts| ==>
         Enabled(run[k], acts[k]) && run[k + 1] == Apply(run[k], acts[k])
  }
}
