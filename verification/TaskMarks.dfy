/** Over whole runs: a cancelled task is not recycled, and a stopped scheduler holds back what it is given. */
module TaskMarks {
  import opened TaskPolicy
  import opened TaskState
  import opened TaskInvariant
  import opened TaskSteps
  import opened TaskOperations
  import opened TaskRuns
  import opened TaskConservation
  import opened TaskFrames

  // ---- Where a task that is enqueued goes ----

  /** The four outcomes of EnqueueUnLocked, in the order of its tests. */
  ghost predicate Placed(p: Policy, s: State, t: Task, r: State) {
    var e := EntryOf(t);
    if WaitQ(s, e) != [] then Waits(s, t, r) && r.home == s.home
    else if !s.on then Waits(s, t, r) && r.home == s.home[e := EntryOwner(STOP)]
    else if Runnable(p, s, e) then StartsAlone(s, t, r) && r.home == s.home
    else
      && Waits(s, t, r) && e in r.home && r.home == s.home[e := r.home[e]]
      && OwnerRuns(s, r.home[e]) && RuleFor(p, r.home[e], e)
      && (r.home[e].EntryOwner? ==> forall g :: g in GroupRules(p, e.group) ==> GroupRun(s, g) == 0)
  }

  /**
   * A task queues behind its entry; on an idle entry it waits for Start if the scheduler is stopped, for a
   * running group that it excludes, for a running entry that it excludes, and otherwise starts at once.
   */
  lemma EnqueuePlaces(p: Policy, s: State, group: int, instance: int)
    requires Inv(p, s) && group >= 0 && instance >= -1
    ensures var r := Enqueue(p, s, group, instance);
      Placed(p, s, Task(group, instance, s.seqno + 1), r) && r.cancelled == s.cancelled
  {
    var s0, t := s.(seqno := s.seqno + 1), Task(group, instance, s.seqno + 1);
    NumberKeeps(p, s, s0, t);
    EnqueueIsPlace(p, s, s0, t);
    PlacePlaces(p, s0, t);
    SameRunnable(p, s, s0, EntryOf(t));
  }

  lemma PlacePlaces(p: Policy, s: State, t: Task)
    requires Inv(p, s) && Fresh(s, t)
    ensures Placed(p, s, t, Place(p, s, t)) && Place(p, s, t).cancelled == s.cancelled
  {
  }

  lemma EnqueueKept(p: Policy, s: State, group: int, instance: int)
    requires Inv(p, s) && group >= 0 && instance >= -1
    ensures Kept(s, Enqueue(p, s, group, instance))
  {
    EnqueuePlaces(p, s, group, instance);
  }

  // ---- Marks ----

  lemma ExitKept(p: Policy, s: State, t: Task, recycle: bool)
    requires Inv(p, s) && t in s.running
    ensures var r := Exit(p, s, t, recycle);
      s.running - {t} <= r.running && r.cancelled == s.cancelled - {t}
  {
    ExitedKept(p, s, t);
    ExitWakesInOrder(p, s, t);
    if recycle && t !in s.cancelled {
      EnqueueKept(p, TaskExited(p, s, t), t.group, t.instance);
    }
  }

  lemma StartKept(p: Policy, s: State)
    requires Inv(p, s)
    ensures Kept(s, Start(p, s))
  {
    StartWakesInOrder(p, s);
    RunDeferQKept(p, s.(on := true), EntryOwner(STOP));
  }

  /** A running task runs until it exits; a mark stays until then, and only Cancel of the task sets it. */
  lemma StepKeepsMarks(p: Policy, s: State, op: Op, u: Task)
    requires Inv(p, s) && Enabled(s, op) && u in s.running
    ensures var r := Step(p, s, op);
      if op.ExitOp? && op.task == u then u !in r.cancelled
      else u in r.running && (u in r.cancelled <==> u in s.cancelled || op == CancelOp(u))
  {
    match op
    case EnqueueOp(group, instance) => EnqueueKept(p, s, group, instance);
    case CancelOp(t) => CancelKept(p, s, t);
    case ExitOp(t, recycle) => ExitKept(p, s, t, recycle);
    case StopOp => StopKept(p, s);
    case StartOp => StartKept(p, s);
  }

  lemma StopKept(p: Policy, s: State)
    requires Inv(p, s)
    ensures Kept(s, Stop(p, s))
  {
  }

  lemma CancelKept(p: Policy, s: State, t: Task)
    requires Inv(p, s)
    ensures var r := Cancel(p, s, t).0;
      r.running == s.running && r.cancelled == if t in s.running then s.cancelled + {t} else s.cancelled
  {
  }

  /** Numbers are not used twice: a task that is gone stays gone. */
  predicate Gone(s: State, u: Task) {
    u.seqno <= s.seqno && !Live(s, u)
  }

  lemma StepKeepsGone(p: Policy, s: State, op: Op, u: Task)
    requires Inv(p, s) && Enabled(s, op) && Gone(s, u)
    ensures Gone(Step(p, s, op), u)
  {
    Conservation(p, s, op, u);
    NumbersGrow(p, s, op);
  }

  lemma NumbersGrow(p: Policy, s: State, op: Op)
    requires Inv(p, s) && Enabled(s, op)
    ensures s.seqno <= Step(p, s, op).seqno
  {
    match op
    case EnqueueOp(group, instance) =>
    case CancelOp(t) =>
    case ExitOp(t, recycle) => ExitLive(p, s, t, recycle);
    case StopOp =>
    case StartOp => StartWakesInOrder(p, s);
  }

  lemma RunningIsNumbered(p: Policy, s: State, u: Task)
    requires Inv(p, s) && u in s.running
    ensures u.seqno <= s.seqno && Live(s, u)
  {
  }

  lemma MarkedStep(p: Policy, s: State, op: Op, u: Task)
    requires Inv(p, s) && Enabled(s, op) && (u in s.cancelled || Gone(s, u))
    ensures u in Step(p, s, op).cancelled || Gone(Step(p, s, op), u)
  {
    if Gone(s, u) {
      StepKeepsGone(p, s, op, u);
    } else {
      StepKeepsMarks(p, s, op, u);
      if op.ExitOp? && op.task == u {
        RunningIsNumbered(p, s, u);
        Conservation(p, s, op, u);
        NumbersGrow(p, s, op);
      }
    }
  }

  lemma {:induction false} MarkedRun(p: Policy, ops: seq<Op>, u: Task, after: seq<Op>)
    requires WellFormed(p) && u in Run(p, ops).cancelled
    ensures var r := Run(p, ops + after); u in r.cancelled || Gone(r, u)
    decreases |after|
  {
    if after == [] {
      assert ops + after == ops;
    } else {
      var rest, op := after[..|after| - 1], after[|after| - 1];
      MarkedRun(p, ops, u, rest);
      LastOne(ops, after);
      RunOneMore(p, ops + rest, op);
      var s := Run(p, ops + rest);
      if Enabled(s, op) { MarkedStep(p, s, op, u); }
    }
  }

  /**
   * A task that was cancelled while it ran has no successor, whatever happens between the cancellation and its
   * exit and whether or not it asks to be recycled: its exit removes it and adds no task.
   */
  lemma CancelledNeverRecycled(p: Policy, before: seq<Op>, u: Task, after: seq<Op>, recycle: bool)
    requires WellFormed(p) && u in Run(p, before).running
    requires u in Run(p, before + [CancelOp(u)] + after).running
    ensures var s := Run(p, before + [CancelOp(u)] + after);
      OneLessLive(s, u, Step(p, s, ExitOp(u, recycle)))
  {
    CancelMarks(p, before, u);
    MarkedRun(p, before + [CancelOp(u)], u, after);
    MarkedExitStep(p, Run(p, before + [CancelOp(u)] + after), u, recycle);
  }

  lemma CancelMarks(p: Policy, ops: seq<Op>, u: Task)
    requires WellFormed(p) && u in Run(p, ops).running
    ensures u in Run(p, ops + [CancelOp(u)]).cancelled
  {
    RunOneMore(p, ops, CancelOp(u));
  }

  lemma MarkedExitStep(p: Policy, s: State, u: Task, recycle: bool)
    requires Inv(p, s) && u in s.running && (u in s.cancelled || Gone(s, u))
    ensures OneLessLive(s, u, Step(p, s, ExitOp(u, recycle)))
  {
    MarkedExit(p, s, u, recycle);
    StepIsExit(p, s, u, recycle, Exit(p, s, u, recycle));
  }

  lemma StepIsExit(p: Policy, s: State, u: Task, recycle: bool, r: State)
    requires Inv(p, s) && u in s.running && r == Exit(p, s, u, recycle)
    ensures Step(p, s, ExitOp(u, recycle)) == r
  {
  }

  lemma MarkedExit(p: Policy, s: State, u: Task, recycle: bool)
    requires Inv(p, s) && u in s.running && (u in s.cancelled || Gone(s, u))
    ensures OneLessLive(s, u, Exit(p, s, u, recycle))
  {
    RunningIsNumbered(p, s, u);
    ExitLive(p, s, u, recycle);
  }

  /** A mark is always due to a Cancel of that task. */
  lemma {:induction false} MarksAreCancels(p: Policy, ops: seq<Op>, u: Task)
    requires WellFormed(p) && u in Run(p, ops).cancelled
    ensures CancelOp(u) in ops
  {
    if ops != [] {
      var before, op := ops[..|ops| - 1], ops[|ops| - 1];
      var s := Run(p, before);
      if Enabled(s, op) && op != CancelOp(u) {
        MarkWasThere(p, s, op, u);
      }
      if u in s.cancelled { MarksAreCancels(p, before, u); }
    }
  }

  lemma MarkWasThere(p: Policy, s: State, op: Op, u: Task)
    requires Inv(p, s) && Enabled(s, op) && op != CancelOp(u) && u in Step(p, s, op).cancelled
    ensures u in s.cancelled
  {
    match op
    case EnqueueOp(group, instance) => EnqueueKept(p, s, group, instance);
    case CancelOp(t) =>
    case ExitOp(t, recycle) => ExitKept(p, s, t, recycle);
    case StopOp =>
    case StartOp => StartKept(p, s);
  }

  // ---- The stopped scheduler ----

  /** The task waits for Start. */
  ghost predicate HeldBack(s: State, t: Task) {
    var e := EntryOf(t);
    !s.on && t in WaitQ(s, e) && e in s.home && s.home[e] == EntryOwner(STOP)
  }

  ghost predicate HomeKept(s: State, r: State, f: EntryId) {
    f in s.home && f in r.home && r.home[f] == s.home[f]
  }

  /** Only an entry whose last waiting task is cancelled leaves its defer queue. */
  lemma CancelHome(p: Policy, s: State, t: Task, f: EntryId)
    requires Inv(p, s) && f in s.home
    requires f == EntryOf(t) && t in WaitQ(s, f) ==> WaitQ(Erase(s, t), f) != []
    ensures HomeKept(s, Cancel(p, s, t).0, f)
  {
    if t in WaitQ(s, EntryOf(t)) && t !in s.running {
      if WaitQ(Erase(s, t), EntryOf(t)) == [] {
        CancelLast(p, s, t, f);
      } else if t == WaitQ(s, EntryOf(t))[0] {
        CancelFirst(p, s, t, f);
      } else {
        CancelLater(p, s, t, f);
      }
    }
  }

  lemma CancelLast(p: Policy, s: State, t: Task, f: EntryId)
    requires Inv(p, s) && t in WaitQ(s, EntryOf(t)) && WaitQ(Erase(s, t), EntryOf(t)) == []
    requires f in s.home && f != EntryOf(t)
    ensures HomeKept(s, CancelWaiting(p, s, t), f)
  {
    UnqueueKeeps(p, s, t);
  }

  lemma CancelFirst(p: Policy, s: State, t: Task, f: EntryId)
    requires Inv(p, s) && t in WaitQ(s, EntryOf(t)) && WaitQ(Erase(s, t), EntryOf(t)) != []
    requires f in s.home && t == WaitQ(s, EntryOf(t))[0]
    ensures HomeKept(s, CancelWaiting(p, s, t), f)
  {
    var s1, e := Erase(s, t), EntryOf(t);
    EraseKeeps(p, s, t);
    RequeueKeeps(p, s1, e);
    RequeueHome(s1, s1.home[e], e, f);
  }

  lemma CancelLater(p: Policy, s: State, t: Task, f: EntryId)
    requires Inv(p, s) && t in WaitQ(s, EntryOf(t)) && WaitQ(Erase(s, t), EntryOf(t)) != []
    requires f in s.home && t != WaitQ(s, EntryOf(t))[0]
    ensures HomeKept(s, CancelWaiting(p, s, t), f)
  {
  }

  lemma RequeueHome(s: State, o: Owner, e: EntryId, f: EntryId)
    requires e in s.home && s.home[e] == o && e in DeferQ(s, o) && f in s.home
    requires var s1 := DeleteFromDeferQ(s, o, e); forall h :: h in DeferQ(s1, o) ==> Key(s1, h) != Key(s1, e)
    ensures HomeKept(s, AddToDeferQ(DeleteFromDeferQ(s, o, e), o, e), f)
  {
  }

  lemma CancelHolds(p: Policy, s: State, t: Task, u: Task)
    requires Inv(p, s) && HeldBack(s, t) && u != t
    ensures HeldBack(Cancel(p, s, u).0, t)
  {
    var r, e := Cancel(p, s, u).0, EntryOf(t);
    CancelLive(p, s, u);
    assert Live(s, t);
    assert QueueOk(WaitQ(s, e), e, s.running, s.seqno);
    assert Live(r, t);
    CancelHome(p, s, u, e);
  }

  lemma EnqueueHolds(p: Policy, s: State, t: Task, group: int, instance: int)
    requires Inv(p, s) && HeldBack(s, t) && group >= 0 && instance >= -1
    ensures HeldBack(Enqueue(p, s, group, instance), t)
  {
    EnqueuePlaces(p, s, group, instance);
    PlacedHolds(p, s, t, Task(group, instance, s.seqno + 1), Enqueue(p, s, group, instance));
  }

  lemma PlacedHolds(p: Policy, s: State, t: Task, u: Task, r: State)
    requires HeldBack(s, t) && Placed(p, s, u, r) && r.on == s.on
    ensures HeldBack(r, t)
  {
    var e := EntryOf(t);
    assert WaitQ(r, e) == if e == EntryOf(u) then WaitQ(s, e) + [u] else WaitQ(s, e);
  }

  lemma ExitedHolds(p: Policy, s: State, t: Task, u: Task)
    requires Inv(p, s) && HeldBack(s, t) && u in s.running
    ensures Inv(p, TaskExited(p, s, u)) && HeldBack(TaskExited(p, s, u), t)
  {
    ExitWakesInOrder(p, s, u);
    assert EntryOf(u) != STOP;
    ExitedSpares(p, s, u, EntryOf(t));
  }

  lemma StepHolds(p: Policy, s: State, op: Op, t: Task)
    requires Inv(p, s) && Enabled(s, op) && HeldBack(s, t) && op != StartOp && op != CancelOp(t)
    ensures HeldBack(Step(p, s, op), t)
  {
    match op
    case EnqueueOp(group, instance) => EnqueueHolds(p, s, t, group, instance);
    case CancelOp(u) => CancelHolds(p, s, t, u);
    case ExitOp(u, recycle) =>
      ExitedHolds(p, s, t, u);
      if recycle && u !in s.cancelled {
        EnqueueHolds(p, TaskExited(p, s, u), t, u.group, u.instance);
      }
    case StopOp =>
  }

  /**
   * A task enqueued on an idle entry of a stopped scheduler waits, whatever exits, until Start is called or the
   * task is cancelled.
   */
  lemma StoppedHoldsBack(p: Policy, before: seq<Op>, group: int, instance: int, after: seq<Op>, t: Task)
    requires WellFormed(p) && group >= 0 && instance >= -1
    requires !Run(p, before).on && WaitQ(Run(p, before), EntryId(group, instance)) == []
    requires t == Task(group, instance, Run(p, before).seqno + 1)
    requires StartOp !in after && CancelOp(t) !in after
    ensures HeldBack(Run(p, before + [EnqueueOp(group, instance)] + after), t)
  {
    RunOneMore(p, before, EnqueueOp(group, instance));
    EnqueueHoldsBack(p, Run(p, before), t);
    HeldBackRun(p, before + [EnqueueOp(group, instance)], after, t);
  }

  lemma EnqueueHoldsBack(p: Policy, s: State, t: Task)
    requires Inv(p, s) && t.group >= 0 && t.instance >= -1 && t.seqno == s.seqno + 1
    requires !s.on && WaitQ(s, EntryOf(t)) == []
    ensures HeldBack(Enqueue(p, s, t.group, t.instance), t)
  {
    EnqueuePlaces(p, s, t.group, t.instance);
    assert t == Task(t.group, t.instance, s.seqno + 1);
  }

  lemma {:induction false} HeldBackRun(p: Policy, ops: seq<Op>, after: seq<Op>, t: Task)
    requires WellFormed(p) && HeldBack(Run(p, ops), t) && StartOp !in after && CancelOp(t) !in after
    ensures HeldBack(Run(p, ops + after), t)
    decreases |after|
  {
    if after == [] {
      assert ops + after == ops;
    } else {
      var rest, op := after[..|after| - 1], after[|after| - 1];
      assert op in after && forall o :: o in rest ==> o in after;
      HeldBackRun(p, ops, rest, t);
      LastOne(ops, after);
      RunOneMore(p, ops + rest, op);
      var s := Run(p, ops + rest);
      if Enabled(s, op) { StepHolds(p, s, op, t); }
    }
  }
}
