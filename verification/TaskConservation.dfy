/** Over whole runs: no task is lost or duplicated, starts follow enqueue order, and exits drain the scheduler. */
module TaskConservation {
  import opened Options
  import opened TaskPolicy
  import opened TaskState
  import opened TaskInvariant
  import opened TaskSteps
  import opened TaskWalks
  import opened TaskOperations
  import opened TaskRuns

  // ---- Conservation ----

  /** One task more is live. */
  ghost predicate OneMoreLive(s: State, t: Task, r: State) {
    forall u {:trigger Live(r, u)} :: Live(r, u) <==> Live(s, u) || u == t
  }

  lemma ShapeLive(s: State, t: Task, r: State)
    requires Waits(s, t, r) || StartsAlone(s, t, r)
    ensures OneMoreLive(s, t, r)
  {
    assert forall f {:trigger WaitQ(r, f)} :: f != EntryOf(t) ==> WaitQ(r, f) == WaitQ(s, f);
  }

  lemma EnqueueLive(p: Policy, s: State, t: Task, r: State)
    requires Inv(p, s) && t.group >= 0 && t.instance >= -1 && t.seqno == s.seqno + 1
    requires r == Enqueue(p, s, t.group, t.instance)
    ensures OneMoreLive(s, t, r)
  {
    assert t == Task(t.group, t.instance, s.seqno + 1);
    ShapeLive(s, t, r);
  }

  lemma EraseLive(s: State, t: Task)
    requires TasksOk(s) && t in WaitQ(s, EntryOf(t))
    ensures forall u {:trigger Live(Erase(s, t), u)} :: Live(Erase(s, t), u) <==> Live(s, u) && u != t
  {
    var r, e := Erase(s, t), EntryOf(t);
    var w := WaitQ(s, e);
    var i := IndexOf(w, t);
    var v := w[..i] + w[i + 1..];
    assert QueueOk(w, e, s.running, s.seqno);
    assert t !in s.running;
    assert forall j {:trigger v[j]} :: 0 <= j < |v| ==> v[j] != t;
    assert w == w[..i] + [t] + w[i + 1..];
    assert forall u {:trigger u in v} :: u in v <==> u in w && u != t;
    assert forall f {:trigger WaitQ(r, f)} :: WaitQ(r, f) == if f == e then v else WaitQ(s, f);
  }

  lemma CancelLive(p: Policy, s: State, t: Task)
    requires Inv(p, s)
    ensures var r := Cancel(p, s, t).0;
      forall u {:trigger Live(r, u)} :: Live(r, u) <==> Live(s, u) && (t in WaitQ(s, EntryOf(t)) ==> u != t)
  {
    var r := Cancel(p, s, t).0;
    if t in WaitQ(s, EntryOf(t)) {
      EraseLive(s, t);
      assert forall u {:trigger Live(r, u)} :: Live(r, u) == Live(Erase(s, t), u);
    } else {
      assert forall u {:trigger Live(r, u)} :: Live(r, u) == Live(s, u);
    }
  }

  lemma RetireLive(s: State, t: Task, r: State)
    requires TasksOk(s) && t in s.running && r.waitq == s.waitq && r.running == s.running - {t}
    ensures OneLessLive(s, t, r)
  {
    assert QueueOk(WaitQ(s, EntryOf(t)), EntryOf(t), s.running, s.seqno);
    assert forall f {:trigger WaitQ(r, f)} :: WaitQ(r, f) == WaitQ(s, f);
    assert t !in WaitQ(r, EntryOf(t));
  }

  lemma SameThenOneLess(s: State, t: Task, s1: State, r: State)
    requires OneLessLive(s, t, s1) && SameLive(s1, r)
    ensures OneLessLive(s, t, r)
  {
    forall u ensures Live(r, u) <==> Live(s, u) && u != t {
      assert Live(r, u) <==> Live(s1, u);
    }
  }

  lemma ExitedLive(p: Policy, s: State, t: Task)
    requires Inv(p, s) && t in s.running
    ensures var r := TaskExited(p, s, t);
      && Inv(p, r) && r.on == s.on && r.seqno == s.seqno
      && OneLessLive(s, t, r)
  {
    ExitWakesInOrder(p, s, t);
    var s1, r := Retire(s, t), TaskExited(p, s, t);
    RetireLive(s, t, s1);
    SameThenOneLess(s, t, s1, r);
  }

  lemma ExitLive(p: Policy, s: State, t: Task, recycle: bool)
    requires Inv(p, s) && t in s.running
    ensures var r, again := Exit(p, s, t, recycle), recycle && t !in s.cancelled;
      && (if again then Recycled(s, t, r) else OneLessLive(s, t, r))
      && r.on == s.on
      && r.seqno == s.seqno + if again then 1 else 0
  {
    ExitedLive(p, s, t);
    var s1 := TaskExited(p, s, t);
    if recycle && t !in s.cancelled {
      var r, t1 := Enqueue(p, s1, t.group, t.instance), Task(t.group, t.instance, s.seqno + 1);
      EnqueueLive(p, s1, t1, r);
      ExitThenEnqueue(s, t, s1, t1, r);
    }
  }

  /** One task less is live. */
  ghost predicate OneLessLive(s: State, t: Task, r: State) {
    forall u {:trigger Live(r, u)} :: Live(r, u) <==> Live(s, u) && u != t
  }

  /** The task is gone, and one with a new number has come. */
  ghost predicate Recycled(s: State, t: Task, r: State) {
    forall u {:trigger Live(r, u)} :: Live(r, u) <==>
      (Live(s, u) && u != t) || u == Task(t.group, t.instance, s.seqno + 1)
  }

  lemma ExitThenEnqueue(s: State, t: Task, s1: State, t1: Task, r: State)
    requires OneLessLive(s, t, s1) && OneMoreLive(s1, t1, r) && t1 == Task(t.group, t.instance, s.seqno + 1)
    ensures Recycled(s, t, r)
  {
    forall u ensures Live(r, u) <==> (Live(s, u) && u != t) || u == t1 {
      assert Live(s1, u) <==> Live(s, u) && u != t;
    }
  }

  /** A running task that was cancelled does not come back, even if it asks to be recycled. */
  lemma CancelStopsRecycling(p: Policy, s: State, t: Task, recycle: bool)
    requires Inv(p, s) && t in s.running
    ensures var c := Cancel(p, s, t).0;
      && t in c.running
      && var r := Exit(p, c, t, recycle);
      forall u {:trigger Live(r, u)} :: Live(r, u) <==> Live(s, u) && u != t
  {
    var c := Cancel(p, s, t).0;
    CancelLive(p, s, t);
    RunningNotWaiting(s, t);
    ExitLive(p, c, t, recycle);
  }

  /** The tasks that are live after an operation: one more, one less, or the same. */
  predicate LiveAfter(s: State, op: Op, u: Task) {
    match op
    case EnqueueOp(group, instance) => Live(s, u) || u == Task(group, instance, s.seqno + 1)
    case CancelOp(t) => Live(s, u) && (t in WaitQ(s, EntryOf(t)) ==> u != t)
    case ExitOp(t, recycle) => (Live(s, u) && u != t) ||
      (recycle && t !in s.cancelled && u == Task(t.group, t.instance, s.seqno + 1))
    case StopOp => Live(s, u)
    case StartOp => Live(s, u)
  }

  /**
   * No operation loses or duplicates a task: enqueuing adds one, exiting and cancelling remove one, and
   * everything else only moves tasks between the wait queues and the running tasks.
   */
  lemma Conservation(p: Policy, s: State, op: Op, u: Task)
    requires Inv(p, s) && Enabled(s, op)
    ensures Live(Step(p, s, op), u) <==> LiveAfter(s, op, u)
  {
    match op
    case EnqueueOp(group, instance) =>
      EnqueueLive(p, s, Task(group, instance, s.seqno + 1), Enqueue(p, s, group, instance));
    case CancelOp(t) => CancelLive(p, s, t);
    case ExitOp(t, recycle) => ExitLive(p, s, t, recycle);
    case StopOp =>
    case StartOp =>
      StartWakesInOrder(p, s);
      var s1 := s.(on := true);
      assert Live(s1, u) == Live(s, u);
      assert Live(Start(p, s), u) <==> Live(s1, u);
  }

  // ---- Enqueue order ----

  lemma WaitsHistory(s: State, t: Task, r: State)
    requires TasksOk(s) && History(s) && r.seqno == s.seqno + 1 == t.seqno && Waits(s, t, r)
    ensures History(r)
  {
    forall i, f | 0 <= i < |r.started| ensures Before(r.started[i], WaitQ(r, f)) {
      assert Before(s.started[i], WaitQ(s, f));
    }
  }

  lemma StartsAloneHistory(s: State, t: Task, r: State)
    requires TasksOk(s) && History(s) && r.seqno == s.seqno + 1 == t.seqno && StartsAlone(s, t, r)
    ensures History(r)
  {
    var n := |s.started|;
    assert forall i {:trigger r.started[i]} :: 0 <= i < n ==> r.started[i] == s.started[i];
    forall i, f | 0 <= i < |r.started| ensures Before(r.started[i], WaitQ(r, f)) {
      assert WaitQ(r, f) == WaitQ(s, f);
      if i < n {
        assert Before(s.started[i], WaitQ(s, f));
      } else {
        assert QueueOk(WaitQ(s, f), f, s.running, s.seqno);
      }
    }
    forall i, j | 0 <= i < j < |r.started| ensures Before(r.started[i], r.started[j]) {
      if j == n {
        assert forall k {:trigger s.started[i][k]} :: 0 <= k < |s.started[i]| ==> s.started[i][k].seqno <= s.seqno;
      }
    }
  }

  lemma EnqueueHistory(s: State, t: Task, r: State)
    requires TasksOk(s) && History(s) && r.seqno == s.seqno + 1 == t.seqno
    requires Waits(s, t, r) || StartsAlone(s, t, r)
    ensures History(r)
  {
    if Waits(s, t, r) {
      WaitsHistory(s, t, r);
    } else {
      StartsAloneHistory(s, t, r);
    }
  }

  lemma CancelHistory(s: State, t: Task, r: State)
    requires History(s) && r.seqno == s.seqno && r.started == s.started
    requires r.waitq == s.waitq || (t in WaitQ(s, EntryOf(t)) && r.waitq == Erase(s, t).waitq)
    ensures History(r)
  {
    var e := EntryOf(t);
    forall i, f | 0 <= i < |r.started| ensures Before(r.started[i], WaitQ(r, f)) {
      assert Before(s.started[i], WaitQ(s, f));
      if r.waitq != s.waitq && f == e {
        var w := WaitQ(s, e);
        var k := IndexOf(w, t);
        var v := w[..k] + w[k + 1..];
        assert WaitQ(r, e) == v;
        assert forall j {:trigger v[j]} :: 0 <= j < |v| ==> v[j] == if j < k then w[j] else w[j + 1];
      } else {
        assert WaitQ(r, f) == WaitQ(s, f);
      }
    }
  }

  lemma SameHistory(s: State, r: State)
    requires History(s) && r.waitq == s.waitq && r.started == s.started && r.seqno == s.seqno
    ensures History(r)
  {
    forall i, f | 0 <= i < |r.started| ensures Before(r.started[i], WaitQ(r, f)) {
      assert WaitQ(r, f) == WaitQ(s, f) && Before(s.started[i], WaitQ(s, f));
    }
  }

  lemma EnqueueKeepsHistory(p: Policy, s: State, group: int, instance: int)
    requires Inv(p, s) && group >= 0 && instance >= -1 && History(s)
    ensures History(Enqueue(p, s, group, instance))
  {
    var r, t := Enqueue(p, s, group, instance), Task(group, instance, s.seqno + 1);
    assert TasksOk(s);
    EnqueueHistory(s, t, r);
  }

  lemma CancelKeepsHistory(p: Policy, s: State, t: Task)
    requires Inv(p, s) && History(s)
    ensures History(Cancel(p, s, t).0)
  {
    CancelHistory(s, t, Cancel(p, s, t).0);
  }

  lemma ExitedHistory(p: Policy, s: State, t: Task)
    requires Inv(p, s) && t in s.running && History(s)
    ensures Inv(p, TaskExited(p, s, t)) && History(TaskExited(p, s, t))
  {
    ExitWakesInOrder(p, s, t);
    SameHistory(s, Retire(s, t));
  }

  lemma ExitHistory(p: Policy, s: State, t: Task, recycle: bool)
    requires Inv(p, s) && t in s.running && History(s)
    ensures History(Exit(p, s, t, recycle))
  {
    ExitedHistory(p, s, t);
    if recycle && t !in s.cancelled {
      EnqueueKeepsHistory(p, TaskExited(p, s, t), t.group, t.instance);
    }
  }

  lemma StartHistory(p: Policy, s: State)
    requires Inv(p, s) && History(s)
    ensures History(Start(p, s))
  {
    StartWakesInOrder(p, s);
    SameHistory(s, s.(on := true));
  }

  lemma StepHistory(p: Policy, s: State, op: Op)
    requires Inv(p, s) && Enabled(s, op) && History(s)
    ensures History(Step(p, s, op))
  {
    match op
    case EnqueueOp(group, instance) => EnqueueKeepsHistory(p, s, group, instance);
    case CancelOp(t) => CancelKeepsHistory(p, s, t);
    case ExitOp(t, recycle) => ExitHistory(p, s, t, recycle);
    case StopOp => SameHistory(s, Stop(p, s));
    case StartOp => StartHistory(p, s);
  }

  lemma {:induction false} RunHistory(p: Policy, ops: seq<Op>)
    requires WellFormed(p)
    ensures History(Run(p, ops))
  {
    if ops == [] {
    } else {
      RunHistory(p, ops[..|ops| - 1]);
      var s := Run(p, ops[..|ops| - 1]);
      if Enabled(s, ops[|ops| - 1]) { StepHistory(p, s, ops[|ops| - 1]); }
    }
  }

  /** In every run the tasks of one entry start in the order in which they were enqueued. */
  lemma EnqueueOrder(p: Policy, ops: seq<Op>, i: nat, a: nat, j: nat, b: nat)
    requires WellFormed(p)
    requires i < |Run(p, ops).started| && a < |Run(p, ops).started[i]|
    requires j < |Run(p, ops).started| && b < |Run(p, ops).started[j]|
    requires i < j || (i == j && a < b)
    requires EntryOf(Run(p, ops).started[i][a]) == EntryOf(Run(p, ops).started[j][b])
    ensures Run(p, ops).started[i][a].seqno < Run(p, ops).started[j][b].seqno
  {
    RunHistory(p, ops);
    var s := Run(p, ops);
    assert i < j ==> Before(s.started[i], s.started[j]);
    assert i == j ==> Ascending(s.started[i]);
  }

  lemma EnqueueStarts(p: Policy, s: State, group: int, instance: int)
    requires Inv(p, s) && group >= 0 && instance >= -1
    ensures var r := Enqueue(p, s, group, instance);
      r.started == s.started || r.started == s.started + [[Task(group, instance, s.seqno + 1)]]
  {
  }

  /** A task with a new number that starts at once starts in order. */
  lemma OrderGrows(s: State, s1: State, r: State, t: Task)
    requires History(s1) && InOrder(s, s1, 0) && s1.seqno < t.seqno
    requires r.started == s1.started || r.started == s1.started + [[t]]
    ensures InOrder(s, r, 0)
  {
    var n := |s.started|;
    var bs := s1.started[n..];
    assert forall i {:trigger bs[i]} :: 0 <= i < |bs| ==> bs[i] == s1.started[n + i];
    forall i | 0 <= i < |bs| ensures bs[i] != [] && bs[i][0].seqno < t.seqno {
      assert s1.started[n + i][0].seqno <= s1.seqno;
    }
    NewBatchRises(bs, t);
    assert (s1.started + [[t]])[n..] == bs + [[t]];
  }

  lemma NewBatchRises(bs: seq<seq<Task>>, t: Task)
    requires Rising(bs, 0) && t.seqno > 0
    requires forall i {:trigger bs[i]} :: 0 <= i < |bs| ==> bs[i] != [] && bs[i][0].seqno < t.seqno
    ensures Rising(bs + [[t]], 0)
  {
  }

  /**
   * What one task exit starts is in the order of the numbers at the heads of the queues; the recycled task, if it
   * starts at once, is last.
   */
  lemma ReleaseOrder(p: Policy, ops: seq<Op>, t: Task, recycle: bool)
    requires WellFormed(p) && t in Run(p, ops).running
    ensures var s := Run(p, ops);
      InOrder(s, Step(p, s, ExitOp(t, recycle)), 0)
  {
    RunHistory(p, ops);
    ExitInOrder(p, Run(p, ops), t, recycle);
  }

  lemma ExitInOrder(p: Policy, s: State, t: Task, recycle: bool)
    requires Inv(p, s) && t in s.running && History(s)
    ensures InOrder(s, Exit(p, s, t, recycle), 0)
  {
    ExitedInOrder(p, s, t);
    ExitStarts(p, s, t, recycle);
    var s1 := TaskExited(p, s, t);
    OrderGrows(s, s1, Exit(p, s, t, recycle), Task(t.group, t.instance, s1.seqno + 1));
  }

  lemma ExitedInOrder(p: Policy, s: State, t: Task)
    requires Inv(p, s) && t in s.running && History(s)
    ensures InOrder(s, TaskExited(p, s, t), 0) && History(TaskExited(p, s, t))
  {
    ExitWakesInOrder(p, s, t);
    ExitedHistory(p, s, t);
  }

  lemma ExitStarts(p: Policy, s: State, t: Task, recycle: bool)
    requires Inv(p, s) && t in s.running
    ensures var s1, r := TaskExited(p, s, t), Exit(p, s, t, recycle);
      r.started == s1.started || r.started == s1.started + [[Task(t.group, t.instance, s1.seqno + 1)]]
  {
    ExitWakesInOrder(p, s, t);
    if recycle && t !in s.cancelled {
      EnqueueStarts(p, TaskExited(p, s, t), t.group, t.instance);
    }
  }

  // ---- Draining ----

  /** The sequence numbers of the live tasks. */
  ghost function LiveNumbers(s: State): set<nat> {
    set n: nat | n <= s.seqno && HasNumber(s, n)
  }

  ghost predicate HasNumber(s: State, n: nat) {
    exists t :: Live(s, t) && t.seqno == n
  }

  lemma ExitNumbers(p: Policy, s: State, t: Task)
    requires Inv(p, s) && t in s.running
    ensures t.seqno in LiveNumbers(s) && LiveNumbers(Exit(p, s, t, false)) == LiveNumbers(s) - {t.seqno}
  {
    ExitLive(p, s, t, false);
    var r := Exit(p, s, t, false);
    assert Live(s, t);
    forall n: nat ensures n in LiveNumbers(r) <==> n in LiveNumbers(s) - {t.seqno} {
      if n in LiveNumbers(s) && n != t.seqno {
        assert HasNumber(s, n);
        var u :| Live(s, u) && u.seqno == n;
        assert Live(r, u);
      }
      if n in LiveNumbers(r) {
        assert HasNumber(r, n);
        var u :| Live(r, u) && u.seqno == n;
        assert Live(s, u) && u != t;
      }
    }
  }

  /** The state after the given tasks exited in turn, if each was running when its turn came. */
  ghost function ExitAll(p: Policy, s: State, ts: seq<Task>): (r: Option<State>)
    requires Inv(p, s)
    ensures r.Some? ==> Inv(p, r.value)
    decreases |ts|
  {
    if ts == [] then Some(s)
    else if ts[0] in s.running then ExitAll(p, Exit(p, s, ts[0], false), ts[1..])
    else None
  }

  /**
   * The scheduler does not deadlock: however tasks exit, once it is started and no more exit is possible, every
   * task has run, and the number of exits is the number of tasks that were live.
   */
  lemma {:induction false} ExitsDrain(p: Policy, s: State, ts: seq<Task>)
    requires Inv(p, s) && s.on
    requires ExitAll(p, s, ts).Some? && ExitAll(p, s, ts).value.running == {}
    ensures forall t :: !Live(ExitAll(p, s, ts).value, t)
    ensures |ts| == |LiveNumbers(s)|
    decreases |ts|
  {
    if ts == [] {
      IdleIsEmpty(p, s);
      assert LiveNumbers(s) == {};
    } else {
      ExitLive(p, s, ts[0], false);
      ExitNumbers(p, s, ts[0]);
      ExitsDrain(p, Exit(p, s, ts[0], false), ts[1..]);
    }
  }
}
