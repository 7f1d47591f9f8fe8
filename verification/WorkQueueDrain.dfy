/** Without new calls the work queue comes to rest after a bounded number of steps, and then it is empty. */
module WorkQueueDrain {
  import opened Options
  import opened WorkQueue

  /** No new call, and the callback before a run lets it happen; what the entry callback answers does not matter. */
  predicate Quiet(s: State, op: Op) {
    match op
    case Advance(_) => true
    case Run(r, result) => r in s.runners && s.runners[r].Scheduled? ==> result
    case _ => false
  }

  /** A run of enabled quiet steps to t. */
  ghost predicate QuietRun(s: State, ops: seq<Op>, t: State)
    decreases |ops|
  {
    if ops == [] then s == t
    else Enabled(s, ops[0]) && Quiet(s, ops[0]) && QuietRun(Step(s, ops[0]), ops[1..], t)
  }

  ghost predicate AtRest(s: State) {
    forall op {:trigger Enabled(s, op)} :: Quiet(s, op) ==> !Enabled(s, op)
  }

  // ---- The measure ----

  /** The steps a thread still takes, at most. */
  function StepsLeft(pc: Pc): nat {
    match pc
    case Compare(_) => 6
    case Write(_) => 5
    case Reread => 4
    case Count(_) => 5
    case Push(_) => 4
    case Undo => 1
    case Lock => 3
    case CheckEmpty => 2
    case CheckAbort => 1
  }

  function HasLeft(n: nat): Pc -> bool {
    (pc: Pc) => StepsLeft(pc) >= n
  }

  /** The sum of what the threads have left, up to n each. */
  ghost function ThreadsLeft(s: State, n: nat): nat {
    if n == 0 then 0 else |At(s, HasLeft(n))| + ThreadsLeft(s, n - 1)
  }

  function Least(a: nat, b: nat): nat {
    if a < b then a else b
  }

  function LeftOf(s: State, t: Thread): nat {
    if t in s.threads then StepsLeft(s.threads[t]) else 0
  }

  lemma {:induction false} ThreadsLeftChanges(s: State, r: State, t: Thread, n: nat)
    requires OnlyMoves(s, r, t)
    ensures ThreadsLeft(r, n) == ThreadsLeft(s, n) - Least(LeftOf(s, t), n) + Least(LeftOf(r, t), n)
  {
    if n > 0 {
      AtChanges(s, r, t, HasLeft(n));
      ThreadsLeftChanges(s, r, t, n - 1);
    }
  }

  lemma {:induction false} SameThreadsLeft(s: State, r: State, n: nat)
    requires r.threads == s.threads
    ensures ThreadsLeft(r, n) == ThreadsLeft(s, n)
  {
    if n > 0 {
      assert At(r, HasLeft(n)) == At(s, HasLeft(n));
      SameThreadsLeft(s, r, n - 1);
    }
  }

  /** How far the runner is from its exit or from the next entry, while nothing else changes. */
  function RunnerLeft(pc: RunnerPc, busy: bool, disabled: bool): nat
    ensures RunnerLeft(pc, busy, disabled) <= 32
  {
    match pc
    case Uncount(_) => 32
    case Handle(_) => 31
    case Done => if busy then 30 else 7
    case DoneEmpty => if busy then 29 else 6
    case DoneAbort => if disabled then 5 else 20
    case Scheduled => 10
    case AbortTest => 9
    case Dequeue(_) => 8
    case Finish => 4
    case Exited => 0
  }

  /** Entries that the runner must take up. */
  predicate Busy(s: State) {
    !s.disabled && s.queue != []
  }

  function CurrentLeft(s: State): nat
    ensures CurrentLeft(s) <= 32
  {
    if s.current.Some? && s.current.value in s.runners
    then RunnerLeft(s.runners[s.current.value], Busy(s), s.disabled)
    else 0
  }

  /** An entry outweighs the way of the runner to it, and a step of a thread outweighs what it can cause. */
  ghost function Measure(s: State): nat {
    128 * ThreadsLeft(s, 6) + 64 * |s.queue| + CurrentLeft(s)
  }

  // ---- Every step makes the measure smaller ----

  lemma ThreadStepsLess(s: State, t: Thread)
    requires t in s.threads
    ensures LeftOf(ThreadStep(s, t), t) < LeftOf(s, t) <= 6
    ensures |ThreadStep(s, t).queue| <= |s.queue| + 1
  {
    if Locks(s.threads[t]) {
    } else if s.threads[t].Count? || s.threads[t].Push? || s.threads[t].Undo? {
      EnqueueStepsLess(s, t);
    }
  }

  lemma EnqueueStepsLess(s: State, t: Thread)
    requires t in s.threads && (s.threads[t].Count? || s.threads[t].Push? || s.threads[t].Undo?)
    ensures LeftOf(ThreadStep(s, t), t) < LeftOf(s, t) <= 6
    ensures |ThreadStep(s, t).queue| <= |s.queue| + 1
  {
  }

  lemma ThreadMeasure(s: State, t: Thread)
    requires t in s.threads
    ensures Measure(ThreadStep(s, t)) < Measure(s)
  {
    ThreadMoves(s, t);
    ThreadStepsLess(s, t);
    ThreadsLeftChanges(s, ThreadStep(s, t), t, 6);
  }

  lemma RunnerStepsLess(s: State, r: Runner, result: bool)
    requires r in s.runners && s.current == Some(r) && RunnerEnabled(s, s.runners[r]) && Quiet(s, Run(r, result))
    ensures var s1 := RunnerStep(s, r, result);
      64 * |s1.queue| + CurrentLeft(s1) < 64 * |s.queue| + CurrentLeft(s)
  {
    var pc := s.runners[r];
    if pc.Done? || pc.DoneEmpty? || pc.DoneAbort? || pc.Finish? {
      DoneStepsLess(s, r, result);
    }
  }

  lemma DoneStepsLess(s: State, r: Runner, result: bool)
    requires r in s.runners && s.current == Some(r)
    requires s.runners[r].Done? || s.runners[r].DoneEmpty? || s.runners[r].DoneAbort? || s.runners[r].Finish?
    ensures var s1 := RunnerStep(s, r, result); s1.queue == s.queue && CurrentLeft(s1) < CurrentLeft(s)
  {
  }

  lemma StepMeasure(s: State, op: Op)
    requires RunnerOk(s) && Enabled(s, op) && Quiet(s, op)
    ensures Measure(Step(s, op)) < Measure(s)
  {
    match op
    case Advance(t) => ThreadMeasure(s, t);
    case Run(r, result) =>
      RunnerStepsLess(s, r, result);
      RunnerFrame(s, r, result);
      SameThreadsLeft(s, RunnerStep(s, r, result), 6);
  }

  // ---- At rest ----

  /** Something can go on: the holder of the mutex, or anyone if it is free. */
  lemma SomeoneGoesOn(s: State) returns (op: Op)
    requires MutexOk(s) && RunnerOk(s) && (s.threads != map[] || s.running)
    ensures Enabled(s, op) && Quiet(s, op)
  {
    match s.mutex
    case ByThread(t) => op := Advance(t);
    case ByRunner(r) => op := Run(r, true);
    case Free =>
      if s.running {
        op := Run(s.current.value, true);
      } else {
        var t :| t in s.threads;
        op := Advance(t);
      }
  }

  lemma RestIsIdle(s: State)
    requires MutexOk(s) && RunnerOk(s) && AtRest(s)
    ensures s.threads == map[] && !s.running
  {
    if s.threads != map[] || s.running {
      var op := SomeoneGoesOn(s);
    }
  }

  lemma {:induction false} QuietRunBounded(s: State, ops: seq<Op>, t: State)
    requires Inv(s) && QuietRun(s, ops, t)
    ensures Inv(t) && |ops| + Measure(t) <= Measure(s)
    decreases |ops|
  {
    if ops != [] {
      StepKeeps(s, ops[0]);
      StepMeasure(s, ops[0]);
      QuietRunBounded(Step(s, ops[0]), ops[1..], t);
    }
  }

  /** No call of set_disable is about to write. */
  ghost predicate NoSwitch(s: State) {
    forall t {:trigger s.threads[t]} :: t in s.threads ==> !s.threads[t].Compare? && !s.threads[t].Write?
  }

  lemma {:induction false} StaysEnabled(s: State, ops: seq<Op>, t: State)
    requires QuietRun(s, ops, t) && NoSwitch(s)
    ensures t.disabled == s.disabled
    decreases |ops|
  {
    if ops != [] {
      StepKeepsSwitch(s, ops[0]);
      StaysEnabled(Step(s, ops[0]), ops[1..], t);
    }
  }

  lemma StepKeepsSwitch(s: State, op: Op)
    requires NoSwitch(s) && Enabled(s, op) && Quiet(s, op)
    ensures NoSwitch(Step(s, op)) && Step(s, op).disabled == s.disabled
  {
    match op
    case Advance(t) => ThreadKeepsSwitch(s, t);
    case Run(r, result) => RunnerKeepsSwitch(s, r, result);
  }

  lemma ThreadKeepsSwitch(s: State, t: Thread)
    requires NoSwitch(s) && t in s.threads
    ensures NoSwitch(ThreadStep(s, t)) && ThreadStep(s, t).disabled == s.disabled
  {
    ThreadMoves(s, t);
  }

  lemma RunnerKeepsSwitch(s: State, r: Runner, result: bool)
    requires NoSwitch(s) && r in s.runners
    ensures NoSwitch(RunnerStep(s, r, result)) && RunnerStep(s, r, result).disabled == s.disabled
  {
    RunnerFrame(s, r, result);
  }

  /**
   * From every reachable state, under every interleaving without new calls: the number of steps is bounded, and when
   * no step is possible no call is in progress, no runner is left, and an enabled queue has had all entries handled.
   */
  lemma QueueDrains(s: State, bounded: bool, size: nat, maxIterations: nat, ops: seq<Op>, t: State)
    requires Reachable(s, bounded, size, maxIterations) && QuietRun(s, ops, t)
    ensures |ops| <= Measure(s)
    ensures AtRest(t) ==> t.threads == map[] && !t.running && t.count == |t.queue|
    ensures AtRest(t) && !t.disabled ==> t.handled == t.pushed
    ensures NoSwitch(s) ==> t.disabled == s.disabled
  {
    ReachableInv(s, bounded, size, maxIterations);
    QuietRunBounded(s, ops, t);
    if NoSwitch(s) {
      StaysEnabled(s, ops, t);
    }
    if AtRest(t) {
      RestIsIdle(t);
      assert At(t, Counted) == {};
    }
  }
}
