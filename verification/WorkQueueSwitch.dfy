/** What switching the work queue off and on does, when runners start, and when their rounds end. */
module WorkQueueSwitch {
  import opened Options
  import opened WorkQueue

  // ---- Rounds ----

  /** Inside the loop that takes entries out. */
  predicate Looping(pc: RunnerPc) {
    pc.Dequeue? || pc.Uncount? || pc.Handle?
  }

  ghost predicate NoRound(s: State) {
    forall r {:trigger s.runners[r]} :: r in s.runners ==> !Looping(s.runners[r])
  }

  /** The step with which a runner, having found the queue enabled, enters the loop. */
  predicate OpensRound(s: State, op: Op) {
    op.Run? && op.runner in s.runners && s.runners[op.runner].AbortTest? && !s.disabled
  }

  ghost predicate OpensNone(s: State, ops: seq<Op>)
    decreases |ops|
  {
    ops == [] || (Enabled(s, ops[0]) && !OpensRound(s, ops[0]) && OpensNone(Step(s, ops[0]), ops[1..]))
  }

  lemma ThreadsDoNotHandle(s: State, t: Thread)
    requires t in s.threads
    ensures ThreadStep(s, t).handled == s.handled
    ensures NoRound(s) ==> NoRound(ThreadStep(s, t))
  {
    if !Locks(s.threads[t]) { OutsideDoesNotHandle(s, t); }
  }

  lemma OutsideDoesNotHandle(s: State, t: Thread)
    requires t in s.threads && !Locks(s.threads[t])
    ensures ThreadStep(s, t).handled == s.handled && ThreadStep(s, t).runners == s.runners
  {
    OutsideStep(s, t);
  }

  lemma RunnerNeedsRound(s: State, r: Runner, result: bool)
    requires NoRound(s) && Enabled(s, Run(r, result)) && !OpensRound(s, Run(r, result))
    ensures RunnerStep(s, r, result).handled == s.handled && NoRound(RunnerStep(s, r, result))
  {
    assert !Looping(s.runners[r]);
    if Ending(s.runners[r]) {
      EndingHandlesNothing(s, r, result);
    } else {
      assert RunnerStep(s, r, result) == Turn(s, r, RunnerStep(s, r, result).runners[r]);
    }
  }

  /** Inside RunnerDone. */
  predicate Ending(pc: RunnerPc) {
    pc.Done? || RunnerHolds(pc)
  }

  lemma EndingHandlesNothing(s: State, r: Runner, result: bool)
    requires r in s.runners && Ending(s.runners[r])
    ensures var s1 := RunnerStep(s, r, result);
      && s1.handled == s.handled && s1.maxIterations == s.maxIterations
      && r in s1.runners && s1.runners == s.runners[r := s1.runners[r]] && !Looping(s1.runners[r])
  {
    var pc := s.runners[r];
    if pc.Done? || pc.DoneEmpty? {
      DoneTurns(s, r, result);
    } else {
      FinishTurns(s, r, result);
    }
  }

  lemma DoneTurns(s: State, r: Runner, result: bool)
    requires r in s.runners && (s.runners[r].Done? || s.runners[r].DoneEmpty?)
    ensures var s1 := RunnerStep(s, r, result);
      r in s1.runners && !Looping(s1.runners[r]) && s1 == Turn(s, r, s1.runners[r]).(mutex := s1.mutex)
  {
  }

  lemma FinishTurns(s: State, r: Runner, result: bool)
    requires r in s.runners && (s.runners[r].DoneAbort? || s.runners[r].Finish?)
    ensures var s1 := RunnerStep(s, r, result);
      && r in s1.runners && !Looping(s1.runners[r])
      && s1 == Turn(s, r, s1.runners[r]).(mutex := s1.mutex, current := s1.current, running := s1.running)
  {
  }

  /** Entries are handled only in a round, and a round begins only with a test that finds the queue enabled. */
  lemma {:induction false} NoRoundNoWork(s: State, ops: seq<Op>, t: State)
    requires NoRound(s) && OpensNone(s, ops) && Steps(s, ops) == Some(t)
    ensures t.handled == s.handled && NoRound(t)
    decreases |ops|
  {
    if ops != [] {
      match ops[0] {
        case Advance(u) => ThreadsDoNotHandle(s, u);
        case Run(r, result) => RunnerNeedsRound(s, r, result);
        case _ =>
      }
      NoRoundNoWork(Step(s, ops[0]), ops[1..], t);
    }
  }

  ghost predicate NoTest(s: State) {
    forall r {:trigger s.runners[r]} :: r in s.runners ==> !s.runners[r].AbortTest?
  }

  /** No step of the run is a start of a scheduled runner that its entry callback allows. */
  ghost predicate EntersNone(s: State, ops: seq<Op>)
    decreases |ops|
  {
    ops == [] || (Enabled(s, ops[0]) && !Enters(s, ops[0]) && EntersNone(Step(s, ops[0]), ops[1..]))
  }

  predicate Enters(s: State, op: Op) {
    op.Run? && op.result && op.runner in s.runners && s.runners[op.runner].Scheduled?
  }

  lemma StepNoTest(s: State, op: Op)
    requires NoTest(s) && Enabled(s, op) && !Enters(s, op)
    ensures NoTest(Step(s, op)) && !OpensRound(s, op)
  {
    match op
    case Advance(t) => ThreadNoTest(s, t);
    case Run(r, result) => RunnerNoTest(s, r, result);
    case _ =>
  }

  lemma ThreadNoTest(s: State, t: Thread)
    requires NoTest(s) && t in s.threads
    ensures NoTest(ThreadStep(s, t))
  {
    if !Locks(s.threads[t]) { OutsideStep(s, t); }
  }

  lemma RunnerNoTest(s: State, r: Runner, result: bool)
    requires NoTest(s) && r in s.runners && !(result && s.runners[r].Scheduled?)
    ensures NoTest(RunnerStep(s, r, result))
  {
    if Ending(s.runners[r]) { EndingTests(s, r, result); }
  }

  lemma EndingTests(s: State, r: Runner, result: bool)
    requires r in s.runners && Ending(s.runners[r])
    ensures var s1 := RunnerStep(s, r, result);
      r in s1.runners && s1.runners == s.runners[r := s1.runners[r]] && !s1.runners[r].AbortTest?
  {
    EndingHandlesNothing(s, r, result);
  }

  /** Nothing is handled while the entry callback puts the runner off. */
  lemma {:induction false} PutOffHandlesNothing(s: State, ops: seq<Op>, t: State)
    requires NoRound(s) && NoTest(s) && EntersNone(s, ops) && Steps(s, ops) == Some(t)
    ensures OpensNone(s, ops) && t.handled == s.handled
    decreases |ops|
  {
    PutOffOpensNone(s, ops);
    NoRoundNoWork(s, ops, t);
  }

  lemma {:induction false} PutOffOpensNone(s: State, ops: seq<Op>)
    requires NoTest(s) && EntersNone(s, ops)
    ensures OpensNone(s, ops)
    decreases |ops|
  {
    if ops != [] {
      StepNoTest(s, ops[0]);
      PutOffOpensNone(Step(s, ops[0]), ops[1..]);
    }
  }

  /** When a callback answers false the round is over: nothing is handled before the queue is tested again. */
  lemma FalseEndsRound(s: State, r: Runner, ops: seq<Op>, t: State)
    requires RunnerOk(s) && r in s.runners && s.runners[r].Handle?
    requires var s1 := RunnerStep(s, r, false); OpensNone(s1, ops) && Steps(s1, ops) == Some(t)
    ensures t.handled == s.handled
  {
    NoRoundNoWork(RunnerStep(s, r, false), ops, t);
  }

  /** A round is within its limit; a limit of 0 is none. */
  ghost predicate RoundOk(s: State) {
    forall r {:trigger s.runners[r]} :: r in s.runners && Looping(s.runners[r]) && s.maxIterations > 0 ==>
      s.runners[r].count < s.maxIterations
  }

  lemma StepRound(s: State, op: Op)
    requires RoundOk(s) && Enabled(s, op)
    ensures RoundOk(Step(s, op)) && Step(s, op).maxIterations == s.maxIterations
  {
    match op
    case Advance(t) => ThreadRound(s, t);
    case Run(r, result) => RunnerRound(s, r, result);
    case _ =>
  }

  lemma ThreadRound(s: State, t: Thread)
    requires RoundOk(s) && t in s.threads
    ensures RoundOk(ThreadStep(s, t)) && ThreadStep(s, t).maxIterations == s.maxIterations
  {
    if !Locks(s.threads[t]) { OutsideStep(s, t); }
  }

  lemma RunnerRound(s: State, r: Runner, result: bool)
    requires RoundOk(s) && r in s.runners
    ensures RoundOk(RunnerStep(s, r, result)) && RunnerStep(s, r, result).maxIterations == s.maxIterations
  {
    if Ending(s.runners[r]) {
      EndingHandlesNothing(s, r, result);
    } else {
      LoopRound(s, r, result);
    }
  }

  lemma LoopRound(s: State, r: Runner, result: bool)
    requires RoundOk(s) && r in s.runners && !Ending(s.runners[r])
    ensures RoundOk(RunnerStep(s, r, result)) && RunnerStep(s, r, result).maxIterations == s.maxIterations
  {
  }

  /** In every run a round takes at most maxIterations entries before the runner yields. */
  lemma {:induction false} RoundsAreLimited(s: State, ops: seq<Op>, t: State)
    requires RoundOk(s) && Steps(s, ops) == Some(t)
    ensures RoundOk(t) && t.maxIterations == s.maxIterations
    decreases |ops|
  {
    if ops != [] {
      StepRound(s, ops[0]);
      RoundsAreLimited(Step(s, ops[0]), ops[1..], t);
    }
  }

  // ---- The switch ----

  /** The step writes the flag. */
  predicate Writes(s: State, op: Op) {
    op.Advance? && op.thread in s.threads && s.threads[op.thread].Write?
  }

  /** The flag changes only where set_disable writes it, and then to the value of the call. */
  lemma StepSwitches(s: State, op: Op)
    requires Enabled(s, op)
    ensures Step(s, op).disabled == if Writes(s, op) then s.threads[op.thread].value else s.disabled
  {
    match op
    case Advance(t) => ThreadSwitches(s, t);
    case Run(r, result) => RunnerSwitches(s, r, result);
    case _ =>
  }

  lemma ThreadSwitches(s: State, t: Thread)
    requires t in s.threads
    ensures ThreadStep(s, t).disabled == if s.threads[t].Write? then s.threads[t].value else s.disabled
  {
  }

  lemma RunnerSwitches(s: State, r: Runner, result: bool)
    requires r in s.runners
    ensures RunnerStep(s, r, result).disabled == s.disabled
  {
  }

  /** At some point of the run the flag has the value. */
  ghost predicate Sometime(s: State, ops: seq<Op>, v: bool)
    decreases |ops|
  {
    s.disabled == v || (ops != [] && Enabled(s, ops[0]) && Sometime(Step(s, ops[0]), ops[1..], v))
  }

  /** The call of set_disable(v) that the thread is in has yet to have its effect. */
  predicate Switching(s: State, t: Thread, v: bool) {
    t in s.threads && (s.threads[t] == Compare(v) || s.threads[t] == Write(v))
  }

  lemma OthersStay(s: State, op: Op, t: Thread)
    requires Enabled(s, op) && t in s.threads && op != Advance(t)
    ensures t in Step(s, op).threads && Step(s, op).threads[t] == s.threads[t]
  {
    match op
    case Advance(u) => ThreadMoves(s, u);
    case Run(r, result) => RunnerFrame(s, r, result);
    case _ =>
  }

  lemma SwitchStep(s: State, t: Thread, v: bool)
    requires Switching(s, t, v)
    ensures s.disabled == v || ThreadStep(s, t).disabled == v || Switching(ThreadStep(s, t), t, v)
  {
  }

  /**
   * set_disable returns at its first step exactly if the flag has the value already, and after writing it goes on
   * to start a runner exactly if it finds the queue enabled.
   */
  lemma SwitchReturns(s: State, t: Thread)
    requires t in s.threads && (s.threads[t].Compare? || s.threads[t].Reread?)
    ensures t in ThreadStep(s, t).threads <==>
      if s.threads[t].Compare? then s.disabled != s.threads[t].value else !s.disabled
  {
  }

  /** set_disable(v) does not return without the flag having been v during the call. */
  lemma {:induction false} SwitchHappens(s: State, ops: seq<Op>, r: State, t: Thread, v: bool)
    requires Steps(s, ops) == Some(r) && Switching(s, t, v) && t !in r.threads
    ensures Sometime(s, ops, v)
    decreases |ops|
  {
    if ops != [] && s.disabled != v {
      var s1 := Step(s, ops[0]);
      if ops[0] == Advance(t) {
        SwitchStep(s, t, v);
      } else {
        OthersStay(s, ops[0], t);
      }
      if Switching(s1, t, v) { SwitchHappens(s1, ops[1..], r, t, v); }
    }
  }

  /** No call in progress is going to enable the queue. */
  ghost predicate NoneEnables(s: State) {
    forall t {:trigger s.threads[t]} :: t in s.threads ==>
      s.threads[t] != Compare(false) && s.threads[t] != Write(false)
  }

  predicate NoEnableCall(ops: seq<Op>) {
    forall i {:trigger ops[i]} :: 0 <= i < |ops| ==> !(ops[i].SetDisable? && !ops[i].value)
  }

  lemma StepNoneEnables(s: State, op: Op)
    requires NoneEnables(s) && Enabled(s, op) && !(op.SetDisable? && !op.value)
    ensures NoneEnables(Step(s, op))
  {
    match op
    case Advance(t) =>
      ThreadMoves(s, t);
      ThreadNoneEnables(s, t);
    case Run(r, result) => RunnerFrame(s, r, result);
    case _ =>
  }

  lemma ThreadNoneEnables(s: State, t: Thread)
    requires t in s.threads && s.threads[t] != Compare(false) && s.threads[t] != Write(false)
    ensures var r := ThreadStep(s, t); t in r.threads ==> r.threads[t] != Compare(false) && r.threads[t] != Write(false)
  {
  }

  lemma DisabledStep(s: State, op: Op)
    requires s.disabled && NoneEnables(s) && Enabled(s, op)
    ensures Step(s, op).disabled && Step(s, op).started == s.started && !OpensRound(s, op)
  {
    StepSwitches(s, op);
    match op
    case Advance(t) => DisabledStartsNone(s, t);
    case Run(r, result) => RunnersStartNone(s, r, result);
    case _ =>
  }

  lemma DisabledStartsNone(s: State, t: Thread)
    requires s.disabled && t in s.threads
    ensures ThreadStep(s, t).started == s.started
  {
    if !Locks(s.threads[t]) { OutsideStep(s, t); }
  }

  lemma RunnersStartNone(s: State, r: Runner, result: bool)
    requires r in s.runners
    ensures RunnerStep(s, r, result).started == s.started
  {
  }

  lemma {:induction false} DisabledOpensNone(s: State, ops: seq<Op>, t: State)
    requires s.disabled && NoneEnables(s) && Steps(s, ops) == Some(t) && NoEnableCall(ops)
    ensures t.disabled && t.started == s.started && OpensNone(s, ops)
    decreases |ops|
  {
    if ops != [] {
      DisabledStep(s, ops[0]);
      StepNoneEnables(s, ops[0]);
      DisabledOpensNone(Step(s, ops[0]), ops[1..], t);
    }
  }

  /**
   * While the queue is disabled, whatever else is called, no runner starts, and once a round in progress is over
   * no entry is handled.
   */
  lemma DisabledHandlesNothing(s: State, ops: seq<Op>, t: State)
    requires s.disabled && NoneEnables(s) && Steps(s, ops) == Some(t) && NoEnableCall(ops)
    ensures t.disabled && t.started == s.started && (NoRound(s) ==> t.handled == s.handled)
  {
    DisabledOpensNone(s, ops, t);
    if NoRound(s) { NoRoundNoWork(s, ops, t); }
  }

  // ---- Starts ----

  /** Who is about to start a runner has seen an entry that nobody can have taken out since. */
  ghost predicate SeenEntry(s: State) {
    forall t {:trigger s.threads[t]} :: t in s.threads && s.threads[t].CheckAbort? ==> s.queue != []
  }

  lemma StepSeen(s: State, op: Op)
    requires MutexOk(s) && RunnerOk(s) && SeenEntry(s) && Enabled(s, op)
    ensures SeenEntry(Step(s, op))
  {
    match op
    case Advance(t) =>
      ThreadMoves(s, t);
      ThreadSeen(s, t);
    case Run(r, result) => RunnerSeen(s, r, result);
    case _ =>
  }

  lemma ThreadSeen(s: State, t: Thread)
    requires t in s.threads
    ensures |s.queue| <= |ThreadStep(s, t).queue|
    ensures var r := ThreadStep(s, t); t in r.threads && r.threads[t].CheckAbort? ==> r.queue != []
  {
    var pc := s.threads[t];
    if pc.Count? || pc.Push? || pc.Undo? {
      EnqueueStep(s, t);
      EnqueueGrows(s, t);
    } else {
      Uncounted(s, t);
      if !Locks(pc) { OutsideStep(s, t); }
    }
  }

  lemma EnqueueGrows(s: State, t: Thread)
    requires t in s.threads && (s.threads[t].Count? || s.threads[t].Push? || s.threads[t].Undo?)
    ensures |s.queue| <= |ThreadStep(s, t).queue|
  {
  }

  lemma RunnerSeen(s: State, r: Runner, result: bool)
    requires MutexOk(s) && RunnerOk(s) && SeenEntry(s) && Enabled(s, Run(r, result))
    ensures SeenEntry(RunnerStep(s, r, result))
  {
    RunnerFrame(s, r, result);
    forall t | t in s.threads ensures !s.threads[t].CheckAbort? {
      assert s.current == Some(r);
    }
  }

  lemma {:induction false} StepsSeen(s: State, ops: seq<Op>, t: State)
    requires Inv(s) && SeenEntry(s) && Steps(s, ops) == Some(t)
    ensures SeenEntry(t)
    decreases |ops|
  {
    if ops != [] {
      StepSeen(s, ops[0]);
      StepKeeps(s, ops[0]);
      StepsSeen(Step(s, ops[0]), ops[1..], t);
    }
  }

  /** In every run a runner is started only on an enabled queue that has entries and no runner. */
  lemma StartIsNeeded(ops: seq<Op>, s: State, bounded: bool, size: nat, maxIterations: nat, op: Op)
    requires Steps(Init(bounded, size, maxIterations), ops) == Some(s) && Enabled(s, op)
    requires Step(s, op).started != s.started
    ensures !s.disabled && s.queue != [] && s.current == None
    ensures Step(s, op).current == Some(s.started) && Step(s, op).started == s.started + 1
  {
    var i := Init(bounded, size, maxIterations);
    InitInv(bounded, size, maxIterations);
    StepsSeen(i, ops, s);
    StepsKeep(i, ops, s);
    match op
    case Advance(t) => OnlyCheckStarts(s, t);
    case Run(r, result) => RunnersStartNone(s, r, result);
    case _ =>
  }

  lemma OnlyCheckStarts(s: State, t: Thread)
    requires t in s.threads && ThreadStep(s, t).started != s.started
    ensures s.threads[t].CheckAbort? && !s.disabled
    ensures ThreadStep(s, t).current == Some(s.started) && ThreadStep(s, t).started == s.started + 1
  {
    if !Locks(s.threads[t]) { OutsideStep(s, t); }
  }
}
