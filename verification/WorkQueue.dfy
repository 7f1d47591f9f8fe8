/**
 * The work queue: producers push without a lock, the start and the end of the runner task are protected by a mutex,
 * and every access to a shared variable is a step of its own, so that a run is an interleaving of the threads.
 */
module WorkQueue {
  import opened Options

  type Entry = nat
  type Thread = nat
  type Runner = nat

  /** What a thread inside Enqueue or set_disable does next. CheckEmpty and CheckAbort hold the mutex. */
  datatype Pc =
    | Count(entry: Entry)
    | Push(entry: Entry)
    | Undo
    | Lock
    | CheckEmpty
    | CheckAbort
    | Compare(value: bool)
    | Write(value: bool)
    | Reread

  /** What a QueueTaskRunner does next. DoneEmpty, DoneAbort and Finish hold the mutex. */
  datatype RunnerPc =
    | Scheduled
    | AbortTest
    | Dequeue(count: nat)
    | Uncount(count: nat)
    | Handle(count: nat)
    | Done
    | DoneEmpty
    | DoneAbort
    | Finish
    | Exited

  datatype Holder = Free | ByThread(thread: Thread) | ByRunner(runner: Runner)

  /** pushed and handled record the entries that went into the queue and those that came out. */
  datatype State = State(
    bounded: bool,
    size: nat,
    maxIterations: nat,
    queue: seq<Entry>,
    count: int,
    running: bool,
    current: Option<Runner>,
    disabled: bool,
    mutex: Holder,
    threads: map<Thread, Pc>,
    runners: map<Runner, RunnerPc>,
    started: nat,
    pushed: seq<Entry>,
    handled: seq<Entry>)

  function Init(bounded: bool, size: nat, maxIterations: nat): State {
    State(bounded, size, maxIterations, [], 0, false, None, false, Free, map[], map[], 0, [], [])
  }

  /** result is what the entry callback or the queue's callback answers. */
  datatype Op =
    | Enqueue(thread: Thread, entry: Entry)
    | SetDisable(thread: Thread, value: bool)
    | Advance(thread: Thread)
    | Run(runner: Runner, result: bool)

  predicate Enabled(s: State, op: Op) {
    match op
    case Enqueue(t, _) => t !in s.threads
    case SetDisable(t, _) => t !in s.threads
    case Advance(t) => t in s.threads && (s.threads[t].Lock? ==> s.mutex.Free?)
    case Run(r, _) => r in s.runners && RunnerEnabled(s, s.runners[r])
  }

  predicate RunnerEnabled(s: State, pc: RunnerPc) {
    !pc.Exited? && (pc.AbortTest? || pc.Done? ==> s.mutex.Free?)
  }

  function Leave(s: State, t: Thread): State {
    s.(threads := s.threads - {t})
  }

  function Goto(s: State, t: Thread, pc: Pc): State {
    s.(threads := s.threads[t := pc])
  }

  function ThreadStep(s: State, t: Thread): State
    requires t in s.threads
  {
    match s.threads[t]
    case Count(e) =>
      Goto(s.(count := s.count + 1), t, if !s.bounded || s.count + 1 < s.size then Push(e) else Undo)
    case Push(e) => Goto(s.(queue := s.queue + [e], pushed := s.pushed + [e]), t, Lock)
    case Undo => Leave(s.(count := s.count - 1), t)
    case Lock => if s.running then Leave(s, t) else Goto(s.(mutex := ByThread(t)), t, CheckEmpty)
    case CheckEmpty => if s.queue == [] then Leave(s.(mutex := Free), t) else Goto(s, t, CheckAbort)
    case CheckAbort => if s.disabled then Leave(s.(mutex := Free), t) else Leave(Start(s.(mutex := Free)), t)
    case Compare(v) => if s.disabled != v then Goto(s, t, Write(v)) else Leave(s, t)
    case Write(v) => Goto(s.(disabled := v), t, Reread)
    case Reread => if s.disabled then Leave(s, t) else Goto(s, t, Lock)
  }

  /** A new runner; the source asserts that there is no current one. */
  function Start(s: State): State {
    s.(running := true, current := Some(s.started),
       runners := s.runners[s.started := Scheduled], started := s.started + 1)
  }

  function Turn(s: State, r: Runner, pc: RunnerPc): State {
    s.(runners := s.runners[r := pc])
  }

  function RunnerStep(s: State, r: Runner, result: bool): State
    requires r in s.runners
  {
    match s.runners[r]
    case Scheduled => Turn(s, r, if result then AbortTest else Scheduled)
    case AbortTest => Turn(s, r, if s.disabled then Done else Dequeue(0))
    case Dequeue(n) =>
      if s.queue == [] then Turn(s, r, Done)
      else Turn(s.(queue := s.queue[1..], handled := s.handled + [s.queue[0]]), r, Uncount(n))
    case Uncount(n) => Turn(s.(count := s.count - 1), r, Handle(n))
    case Handle(n) => Turn(s, r, if !result || n + 1 == s.maxIterations then Done else Dequeue(n + 1))
    case Done => Turn(s.(mutex := ByRunner(r)), r, DoneEmpty)
    case DoneEmpty => Turn(s, r, if s.queue == [] then Finish else DoneAbort)
    case DoneAbort =>
      if s.disabled then Turn(s, r, Finish) else Turn(s.(mutex := Free, running := true), r, Scheduled)
    case Finish => Turn(s.(mutex := Free, current := None, running := false), r, Exited)
    case Exited => s
  }

  function Step(s: State, op: Op): State
    requires Enabled(s, op)
  {
    match op
    case Enqueue(t, e) => Goto(s, t, Count(e))
    case SetDisable(t, v) => Goto(s, t, Compare(v))
    case Advance(t) => ThreadStep(s, t)
    case Run(r, result) => RunnerStep(s, r, result)
  }

  // ---- The mutex and the runner ----

  predicate ThreadHolds(pc: Pc) {
    pc.CheckEmpty? || pc.CheckAbort?
  }

  predicate RunnerHolds(pc: RunnerPc) {
    pc.DoneEmpty? || pc.DoneAbort? || pc.Finish?
  }

  ghost predicate MutexOk(s: State) {
    && (forall t {:trigger s.threads[t]} :: t in s.threads && ThreadHolds(s.threads[t]) ==> s.mutex == ByThread(t))
    && (forall r {:trigger s.runners[r]} :: r in s.runners && RunnerHolds(s.runners[r]) ==> s.mutex == ByRunner(r))
    && (s.mutex.ByThread? ==> s.mutex.thread in s.threads && ThreadHolds(s.threads[s.mutex.thread]) && !s.running)
    && (s.mutex.ByRunner? ==> s.mutex.runner in s.runners && RunnerHolds(s.runners[s.mutex.runner]))
  }

  /** running_ holds iff current_runner_ is set, and that runner is the only one that has not exited. */
  ghost predicate RunnerOk(s: State) {
    && (s.running <==> s.current.Some?)
    && (s.current.Some? ==> s.current.value in s.runners && !s.runners[s.current.value].Exited?)
    && (forall r {:trigger s.runners[r]} :: r in s.runners && !s.runners[r].Exited? ==> s.current == Some(r))
    && (forall r {:trigger r in s.runners} :: r in s.runners ==> r < s.started)
  }

  /** A step of one thread moves at most that thread. */
  ghost predicate OnlyMoves(s: State, r: State, t: Thread) {
    forall x {:trigger x in s.threads} {:trigger x in r.threads} :: x != t ==>
      (x in s.threads <==> x in r.threads) && (x in s.threads ==> r.threads[x] == s.threads[x])
  }

  predicate Locks(pc: Pc) {
    pc.Lock? || ThreadHolds(pc)
  }

  /** A step outside of MayBeStartRunner changes neither the mutex nor the runner, and does not enter it. */
  lemma OutsideStep(s: State, t: Thread)
    requires t in s.threads && !Locks(s.threads[t])
    ensures var r := ThreadStep(s, t);
      && OnlyMoves(s, r, t) && (t in r.threads ==> !ThreadHolds(r.threads[t]))
      && r.mutex == s.mutex && r.running == s.running && r.current == s.current
      && r.runners == s.runners && r.started == s.started
  {
    if s.threads[t].Count? || s.threads[t].Push? || s.threads[t].Undo? {
      EnqueueStep(s, t);
    }
  }

  lemma EnqueueStep(s: State, t: Thread)
    requires t in s.threads && (s.threads[t].Count? || s.threads[t].Push? || s.threads[t].Undo?)
    ensures var r := ThreadStep(s, t);
      && OnlyMoves(s, r, t) && (t in r.threads ==> !ThreadHolds(r.threads[t]))
      && r.mutex == s.mutex && r.running == s.running && r.current == s.current
      && r.runners == s.runners && r.started == s.started
  {
  }

  lemma OutsideMutex(s: State, t: Thread, r: State)
    requires MutexOk(s) && t in s.threads && !ThreadHolds(s.threads[t])
    requires OnlyMoves(s, r, t) && (t in r.threads ==> !ThreadHolds(r.threads[t]))
    requires r.mutex == s.mutex && r.running == s.running && r.runners == s.runners
    ensures MutexOk(r)
  {
    if s.mutex.ByThread? {
      var u := s.mutex.thread;
      assert u != t && u in r.threads;
    }
  }

  lemma ThreadMutex(s: State, t: Thread)
    requires MutexOk(s) && Enabled(s, Advance(t))
    ensures MutexOk(ThreadStep(s, t))
  {
    if Locks(s.threads[t]) {
      LockMutex(s, t);
    } else {
      OutsideStep(s, t);
      OutsideMutex(s, t, ThreadStep(s, t));
    }
  }

  lemma LockMutex(s: State, t: Thread)
    requires MutexOk(s) && Enabled(s, Advance(t)) && Locks(s.threads[t])
    ensures MutexOk(ThreadStep(s, t))
  {
  }

  lemma ThreadRunner(s: State, t: Thread)
    requires MutexOk(s) && RunnerOk(s) && t in s.threads
    ensures RunnerOk(ThreadStep(s, t))
  {
    if Locks(s.threads[t]) {
      assert ThreadHolds(s.threads[t]) ==> !s.running;
    } else {
      OutsideStep(s, t);
    }
  }

  lemma RunnerMutex(s: State, r: Runner, result: bool)
    requires MutexOk(s) && RunnerOk(s) && Enabled(s, Run(r, result))
    ensures MutexOk(RunnerStep(s, r, result))
  {
    if s.runners[r].Done? || RunnerHolds(s.runners[r]) {
      DoneMutex(s, r, result);
    }
  }

  lemma DoneMutex(s: State, r: Runner, result: bool)
    requires MutexOk(s) && RunnerOk(s) && Enabled(s, Run(r, result))
    requires s.runners[r].Done? || RunnerHolds(s.runners[r])
    ensures MutexOk(RunnerStep(s, r, result))
  {
  }

  lemma RunnerRunner(s: State, r: Runner, result: bool)
    requires RunnerOk(s) && Enabled(s, Run(r, result))
    ensures RunnerOk(RunnerStep(s, r, result))
  {
  }

  lemma StepMutex(s: State, op: Op)
    requires MutexOk(s) && RunnerOk(s) && Enabled(s, op)
    ensures MutexOk(Step(s, op)) && RunnerOk(Step(s, op))
  {
    match op
    case Advance(t) => ThreadMutex(s, t); ThreadRunner(s, t);
    case Run(r, result) => RunnerMutex(s, r, result); RunnerRunner(s, r, result);
    case _ =>
  }

  // ---- No lost wake-up ----

  /** About to call MayBeStartRunner, or inside it. */
  predicate Pending(pc: Pc) {
    pc.Lock? || ThreadHolds(pc) || pc.Reread?
  }

  ghost predicate SomePending(s: State) {
    exists t :: t in s.threads && Pending(s.threads[t])
  }

  predicate Leaving(s: State) {
    s.current.Some? && s.current.value in s.runners && s.runners[s.current.value].Finish?
  }

  ghost predicate NoLostWakeup(s: State) {
    Unattended(s) ==> SomePending(s)
  }

  lemma StepWakeup(s: State, op: Op)
    requires MutexOk(s) && RunnerOk(s) && NoLostWakeup(s) && Enabled(s, op)
    ensures NoLostWakeup(Step(s, op))
  {
    match op
    case Advance(t) => ThreadWakeup(s, t);
    case Run(n, result) => RunnerWakeup(s, n, result);
    case _ =>
      var r := Step(s, op);
      if Unattended(r) {
        StillPending(s, r, op.thread);
      }
  }

  /** The queue has entries that no runner will look at. */
  predicate Unattended(s: State) {
    !s.disabled && s.queue != [] && (!s.running || Leaving(s))
  }

  lemma ThreadWakeup(s: State, t: Thread)
    requires MutexOk(s) && RunnerOk(s) && NoLostWakeup(s) && Enabled(s, Advance(t))
    ensures NoLostWakeup(ThreadStep(s, t))
  {
    var r := ThreadStep(s, t);
    if Unattended(r) && !(t in r.threads && Pending(r.threads[t])) {
      ThreadMoves(s, t);
      if Locks(s.threads[t]) {
        LockAttends(s, t);
      } else {
        OutsideAttends(s, t);
      }
      StillPending(s, r, t);
    }
  }

  lemma OutsideAttends(s: State, t: Thread)
    requires t in s.threads && !Locks(s.threads[t]) && Unattended(ThreadStep(s, t))
    requires var r := ThreadStep(s, t); !(t in r.threads && Pending(r.threads[t]))
    ensures Unattended(s) && !Pending(s.threads[t])
  {
    OutsideStep(s, t);
  }

  /** A thread leaves MayBeStartRunner without a start only if the queue is empty or attended. */
  lemma LockAttends(s: State, t: Thread)
    requires MutexOk(s) && RunnerOk(s) && Enabled(s, Advance(t)) && Locks(s.threads[t])
    ensures var r := ThreadStep(s, t); Unattended(r) ==> t in r.threads && Pending(r.threads[t])
  {
  }

  lemma RunnerWakeup(s: State, n: Runner, result: bool)
    requires RunnerOk(s) && NoLostWakeup(s) && Enabled(s, Run(n, result))
    ensures NoLostWakeup(RunnerStep(s, n, result))
  {
    RunnerFrame(s, n, result);
  }

  lemma StillPending(s: State, r: State, t: Thread)
    requires SomePending(s) && (t in s.threads ==> !Pending(s.threads[t]))
    requires forall x {:trigger x in s.threads} :: x in s.threads && x != t ==>
      x in r.threads && r.threads[x] == s.threads[x]
    ensures SomePending(r)
  {
    var x :| x in s.threads && Pending(s.threads[x]);
    assert x in r.threads;
  }

  // ---- Capacity ----

  ghost function At(s: State, p: Pc -> bool): set<Thread> {
    set t | t in s.threads && p(s.threads[t])
  }

  predicate Counted(pc: Pc) {
    pc.Push? || pc.Undo?
  }

  predicate Admitted(pc: Pc) {
    pc.Push?
  }

  ghost function InHand(s: State): nat {
    if s.current.Some? && s.current.value in s.runners && s.runners[s.current.value].Uncount? then 1 else 0
  }

  /** count_ is the number of entries queued, about to be queued or refused, and popped but not yet uncounted. */
  ghost predicate CountOk(s: State) {
    s.count == |s.queue| + |At(s, Counted)| + InHand(s)
  }

  ghost predicate BoundOk(s: State) {
    s.bounded ==> |s.queue| + |At(s, Admitted)| < s.size || (s.queue == [] && At(s, Admitted) == {})
  }

  function Is(s: State, t: Thread, p: Pc -> bool): nat {
    if t in s.threads && p(s.threads[t]) then 1 else 0
  }

  lemma SetChanges(x: set<Thread>, y: set<Thread>, t: Thread)
    requires x - {t} == y - {t}
    ensures |y| == |x| - (if t in x then 1 else 0) + (if t in y then 1 else 0)
  {
    assert |x| == |x - {t}| + if t in x then 1 else 0;
    assert |y| == |y - {t}| + if t in y then 1 else 0;
  }

  lemma AtChanges(s: State, r: State, t: Thread, p: Pc -> bool)
    requires OnlyMoves(s, r, t)
    ensures |At(r, p)| == |At(s, p)| - Is(s, t, p) + Is(r, t, p)
  {
    var x, y := At(s, p), At(r, p);
    forall u | u != t ensures u in x <==> u in y {
    }
    assert x - {t} == y - {t};
    SetChanges(x, y, t);
  }

  lemma ThreadMoves(s: State, t: Thread)
    requires t in s.threads
    ensures OnlyMoves(s, ThreadStep(s, t), t)
  {
    if !Locks(s.threads[t]) {
      OutsideStep(s, t);
    }
  }

  lemma ThreadCount(s: State, t: Thread)
    requires t in s.threads
    ensures var r := ThreadStep(s, t);
      r.count - |r.queue| - Is(r, t, Counted) == s.count - |s.queue| - Is(s, t, Counted)
  {
    if !s.threads[t].Count? && !s.threads[t].Push? && !s.threads[t].Undo? {
      Uncounted(s, t);
    }
  }

  lemma Uncounted(s: State, t: Thread)
    requires t in s.threads && !s.threads[t].Count? && !s.threads[t].Push? && !s.threads[t].Undo?
    ensures var r := ThreadStep(s, t); r.count == s.count && r.queue == s.queue && Is(r, t, Counted) == 0
  {
    var pc := s.threads[t];
    if pc.Compare? || pc.Write? || pc.Reread? {
      UncountedSwitch(s, t);
    }
  }

  lemma UncountedSwitch(s: State, t: Thread)
    requires t in s.threads && (s.threads[t].Compare? || s.threads[t].Write? || s.threads[t].Reread?)
    ensures var r := ThreadStep(s, t); r.count == s.count && r.queue == s.queue && Is(r, t, Counted) == 0
  {
  }

  lemma ThreadInHand(s: State, t: Thread)
    requires t in s.threads && RunnerOk(s) && MutexOk(s)
    ensures InHand(ThreadStep(s, t)) == InHand(s)
  {
    assert ThreadHolds(s.threads[t]) ==> !s.running;
  }

  /** A step of the runner leaves threads and configuration alone. */
  lemma RunnerFrame(s: State, r: Runner, result: bool)
    requires r in s.runners
    ensures var s1 := RunnerStep(s, r, result);
      s1.threads == s.threads && |s1.queue| <= |s.queue| && s1.bounded == s.bounded && s1.size == s.size
  {
    var pc := s.runners[r];
    if pc.Done? || pc.DoneEmpty? || pc.DoneAbort? || pc.Finish? {
      DoneFrame(s, r, result);
    }
  }

  lemma DoneFrame(s: State, r: Runner, result: bool)
    requires r in s.runners
    requires s.runners[r].Done? || s.runners[r].DoneEmpty? || s.runners[r].DoneAbort? || s.runners[r].Finish?
    ensures var s1 := RunnerStep(s, r, result);
      s1.threads == s.threads && s1.queue == s.queue && s1.bounded == s.bounded && s1.size == s.size
  {
  }

  lemma RunnerAt(s: State, r: Runner, result: bool, p: Pc -> bool)
    requires r in s.runners
    ensures var s1 := RunnerStep(s, r, result);
      At(s1, p) == At(s, p) && |s1.queue| <= |s.queue| && s1.bounded == s.bounded && s1.size == s.size
  {
    RunnerFrame(s, r, result);
  }

  lemma RunnerCount(s: State, r: Runner, result: bool)
    requires RunnerOk(s) && Enabled(s, Run(r, result))
    ensures var s1 := RunnerStep(s, r, result); s1.count - |s1.queue| - InHand(s1) == s.count - |s.queue| - InHand(s)
  {
    assert s.current == Some(r);
  }

  lemma AdvanceCount(s: State, t: Thread)
    requires MutexOk(s) && RunnerOk(s) && CountOk(s) && t in s.threads
    ensures CountOk(ThreadStep(s, t))
  {
    ThreadMoves(s, t);
    ThreadCount(s, t);
    AtChanges(s, ThreadStep(s, t), t, Counted);
    ThreadInHand(s, t);
  }

  lemma StepCount(s: State, op: Op)
    requires MutexOk(s) && RunnerOk(s) && CountOk(s) && Enabled(s, op)
    ensures CountOk(Step(s, op))
  {
    match op
    case Advance(t) => AdvanceCount(s, t);
    case Run(n, result) =>
      RunnerCount(s, n, result);
      RunnerAt(s, n, result, Counted);
    case _ => AtChanges(s, Step(s, op), op.thread, Counted);
  }

  lemma ThreadBound(s: State, t: Thread)
    requires t in s.threads && s.bounded
    ensures var r := ThreadStep(s, t);
      || |r.queue| + Is(r, t, Admitted) <= |s.queue| + Is(s, t, Admitted)
      || (s.threads[t].Count? && r.count < s.size && r.queue == s.queue
          && r.count == s.count + 1 && Is(r, t, Admitted) == 1)
  {
    if !s.threads[t].Count? && !s.threads[t].Push? && !s.threads[t].Undo? {
      Uncounted(s, t);
    }
  }

  lemma StepBound(s: State, op: Op)
    requires CountOk(s) && BoundOk(s) && Enabled(s, op)
    ensures BoundOk(Step(s, op))
  {
    match op
    case Advance(t) => AdvanceBound(s, t);
    case Run(n, result) => RunnerAt(s, n, result, Admitted);
    case _ => AtChanges(s, Step(s, op), op.thread, Admitted);
  }

  lemma AdvanceBound(s: State, t: Thread)
    requires CountOk(s) && BoundOk(s) && t in s.threads
    ensures BoundOk(ThreadStep(s, t))
  {
    if s.bounded {
      ThreadMoves(s, t);
      ThreadBound(s, t);
      AtChanges(s, ThreadStep(s, t), t, Admitted);
      FewerAdmitted(s);
    }
  }

  lemma FewerAdmitted(s: State)
    ensures |At(s, Admitted)| <= |At(s, Counted)|
  {
    var x, y := At(s, Admitted), At(s, Counted);
    assert y == x + (y - x);
  }

  // ---- Runs ----

  ghost predicate Inv(s: State) {
    && MutexOk(s) && RunnerOk(s) && NoLostWakeup(s) && CountOk(s) && BoundOk(s)
    && s.pushed == s.handled + s.queue
  }

  function Steps(s: State, ops: seq<Op>): Option<State>
    decreases |ops|
  {
    if ops == [] then Some(s)
    else if Enabled(s, ops[0]) then Steps(Step(s, ops[0]), ops[1..])
    else None
  }

  lemma ThreadHistory(s: State, t: Thread)
    requires t in s.threads && s.pushed == s.handled + s.queue
    ensures var r := ThreadStep(s, t); r.pushed == r.handled + r.queue
  {
    if s.threads[t].Push? {
      assert s.handled + s.queue + [s.threads[t].entry] == s.handled + (s.queue + [s.threads[t].entry]);
    }
  }

  lemma RunnerHistory(s: State, n: Runner, result: bool)
    requires n in s.runners && s.pushed == s.handled + s.queue
    ensures var r := RunnerStep(s, n, result); r.pushed == r.handled + r.queue
  {
    if s.runners[n].Dequeue? && s.queue != [] {
      assert s.handled + s.queue == s.handled + [s.queue[0]] + s.queue[1..];
    }
  }

  lemma StepHistory(s: State, op: Op)
    requires Enabled(s, op) && s.pushed == s.handled + s.queue
    ensures Step(s, op).pushed == Step(s, op).handled + Step(s, op).queue
  {
    match op
    case Advance(t) => ThreadHistory(s, t);
    case Run(n, result) => RunnerHistory(s, n, result);
    case _ =>
  }

  lemma StepKeeps(s: State, op: Op)
    requires Inv(s) && Enabled(s, op)
    ensures Inv(Step(s, op))
  {
    StepMutex(s, op);
    StepWakeup(s, op);
    StepCount(s, op);
    StepBound(s, op);
    StepHistory(s, op);
  }

  lemma {:induction false} StepsKeep(s: State, ops: seq<Op>, t: State)
    requires Inv(s) && Steps(s, ops) == Some(t)
    ensures Inv(t)
    decreases |ops|
  {
    if ops != [] {
      StepKeeps(s, ops[0]);
      StepsKeep(Step(s, ops[0]), ops[1..], t);
    }
  }

  lemma InitInv(bounded: bool, size: nat, maxIterations: nat)
    ensures Inv(Init(bounded, size, maxIterations))
  {
    var s := Init(bounded, size, maxIterations);
    assert At(s, Counted) == {} && At(s, Admitted) == {};
  }

  lemma StepConfig(s: State, op: Op)
    requires Enabled(s, op)
    ensures Step(s, op).bounded == s.bounded && Step(s, op).size == s.size
  {
    match op
    case Advance(t) => ThreadConfig(s, t);
    case Run(r, result) => RunnerConfig(s, r, result);
    case _ =>
  }

  lemma ThreadConfig(s: State, t: Thread)
    requires t in s.threads
    ensures ThreadStep(s, t).bounded == s.bounded && ThreadStep(s, t).size == s.size
  {
  }

  lemma RunnerConfig(s: State, r: Runner, result: bool)
    requires r in s.runners
    ensures RunnerStep(s, r, result).bounded == s.bounded && RunnerStep(s, r, result).size == s.size
  {
    RunnerFrame(s, r, result);
  }

  lemma {:induction false} StepsConfig(s: State, ops: seq<Op>, t: State)
    requires Steps(s, ops) == Some(t)
    ensures t.bounded == s.bounded && t.size == s.size
    decreases |ops|
  {
    if ops != [] {
      StepConfig(s, ops[0]);
      StepsConfig(Step(s, ops[0]), ops[1..], t);
    }
  }

  ghost predicate Reachable(t: State, bounded: bool, size: nat, maxIterations: nat) {
    exists ops: seq<Op> :: Steps(Init(bounded, size, maxIterations), ops) == Some(t)
  }

  lemma ReachableInv(t: State, bounded: bool, size: nat, maxIterations: nat)
    requires Reachable(t, bounded, size, maxIterations)
    ensures Inv(t) && t.bounded == bounded && t.size == size
  {
    var s := Init(bounded, size, maxIterations);
    var ops: seq<Op> :| Steps(s, ops) == Some(t);
    InitInv(bounded, size, maxIterations);
    StepsKeep(s, ops, t);
    StepsConfig(s, ops, t);
  }

  /** Under every interleaving running_ holds iff current_runner_ is set, and no other runner is live. */
  lemma SingleRunner(t: State, bounded: bool, size: nat, maxIterations: nat)
    requires Reachable(t, bounded, size, maxIterations)
    ensures t.running <==> t.current.Some?
    ensures forall r {:trigger t.runners[r]} :: r in t.runners ==> (!t.runners[r].Exited? <==> t.current == Some(r))
    ensures forall u {:trigger t.threads[u]} :: u in t.threads && t.threads[u].CheckAbort? ==> t.current == None
  {
    ReachableInv(t, bounded, size, maxIterations);
  }

  /** Entries in an enabled queue have a runner that will look at the queue again, or someone about to start one. */
  lemma WakeupNotLost(t: State, bounded: bool, size: nat, maxIterations: nat)
    requires Reachable(t, bounded, size, maxIterations) && !t.disabled && t.queue != []
    ensures
      || (t.current.Some? && t.current.value in t.runners
          && !t.runners[t.current.value].Finish? && !t.runners[t.current.value].Exited?)
      || SomePending(t)
  {
    ReachableInv(t, bounded, size, maxIterations);
  }

  /** The counter is never below the number of queued entries, and a bounded queue never reaches its size. */
  lemma CapacityHolds(t: State, size: nat, maxIterations: nat)
    requires Reachable(t, true, size, maxIterations)
    ensures t.count >= |t.queue| && (size > 0 ==> |t.queue| < size) && (size == 0 ==> t.queue == [])
  {
    ReachableInv(t, true, size, maxIterations);
  }

  /** Entries come out once, in the order they went in; with no call and no runner left an enabled queue is empty. */
  lemma AllHandled(t: State, bounded: bool, size: nat, maxIterations: nat)
    requires Reachable(t, bounded, size, maxIterations)
    ensures t.pushed == t.handled + t.queue
    ensures t.threads == map[] && !t.running ==> t.count == |t.queue| && (!t.disabled ==> t.handled == t.pushed)
  {
    ReachableInv(t, bounded, size, maxIterations);
    if t.threads == map[] {
      assert At(t, Counted) == {};
    }
  }
}
