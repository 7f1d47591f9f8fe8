/** The operations of the task scheduler. Each holds the scheduler's mutex, so each is one atomic step. */
module TaskOperations {
  import opened Options
  import opened TaskPolicy
  import opened TaskState
  import opened TaskInvariant
  import opened TaskSteps
  import opened TaskWalks

  // ---- Enqueue ----

  /** The task waits behind its entry's queue, or it starts as a batch of its own. */
  ghost predicate Waits(s: State, t: Task, r: State) {
    r.waitq == AddToWaitQ(s, t).waitq && r.running == s.running && r.started == s.started
  }

  ghost predicate StartsAlone(s: State, t: Task, r: State) {
    r.waitq == s.waitq && r.running == s.running + {t} && r.started == s.started + [[t]] && WaitQ(s, EntryOf(t)) == []
  }

  /** EnqueueUnLocked for a task of the given group and instance. */
  function Enqueue(p: Policy, s: State, group: int, instance: int): (r: State)
    requires Inv(p, s) && group >= 0 && instance >= -1
    ensures Inv(p, r)
    ensures var t := Task(group, instance, s.seqno + 1); Waits(s, t, r) || (s.on && StartsAlone(s, t, r))
    ensures r.seqno == s.seqno + 1 && r.on == s.on
  {
    var s0, t := s.(seqno := s.seqno + 1), Task(group, instance, s.seqno + 1);
    NumberKeeps(p, s, s0, t);
    assert WaitQ(s0, EntryOf(t)) == WaitQ(s, EntryOf(t));
    Place(p, s0, t)
  }

  lemma EnqueueIsPlace(p: Policy, s: State, s0: State, t: Task)
    requires Inv(p, s) && Inv(p, s0) && Fresh(s0, t)
    requires s0 == s.(seqno := s.seqno + 1) && t == Task(t.group, t.instance, s.seqno + 1)
    ensures Enqueue(p, s, t.group, t.instance) == Place(p, s0, t)
  {
  }

  /** What happens to a task that has its number: it joins a queue, is deferred, or runs. */
  function Place(p: Policy, s: State, t: Task): (r: State)
    requires Inv(p, s) && Fresh(s, t)
    ensures Inv(p, r) && (Waits(s, t, r) || (s.on && StartsAlone(s, t, r)))
    ensures r.seqno == s.seqno && r.on == s.on
  {
    var e := EntryOf(t);
    if WaitQ(s, e) != [] then
      AppendKeeps(p, s, t);
      AddToWaitQ(s, t)
    else if !s.on then Defer(p, s, t, EntryOwner(STOP))
    else
      var b := BlockedBy(p, s, e);
      if b.Some? then Defer(p, s, t, b.value) else StartNow(p, s, t)
  }

  /** The first waiting task of an entry takes the entry into a defer queue. */
  function Defer(p: Policy, s: State, t: Task, o: Owner): (r: State)
    requires Inv(p, s) && Fresh(s, t) && WaitQ(s, EntryOf(t)) == []
    requires (o == EntryOwner(STOP) && !s.on) || (RuleFor(p, o, EntryOf(t)) && OwnerRuns(s, o))
    ensures Inv(p, r) && Waits(s, t, r) && r.seqno == s.seqno && r.on == s.on
  {
    EnqueueDefers(p, s, t, o);
    AddToDeferQ(AddToWaitQ(s, t), o, EntryOf(t))
  }

  function StartNow(p: Policy, s: State, t: Task): (r: State)
    requires Inv(p, s) && Fresh(s, t) && WaitQ(s, EntryOf(t)) == [] && Runnable(p, s, EntryOf(t))
    ensures Inv(p, r) && StartsAlone(s, t, r) && r.seqno == s.seqno && r.on == s.on
  {
    EnqueueRuns(p, s, t);
    RunTask(s, t).(started := s.started + [[t]])
  }

  ghost predicate Fresh(s: State, t: Task) {
    && t.seqno == s.seqno && t.group >= 0 && t.instance >= -1 && t.seqno > 0
    && (forall u {:trigger Live(s, u)} :: Live(s, u) ==> u.seqno < t.seqno)
  }

  lemma NumberKeeps(p: Policy, s: State, r: State, t: Task)
    requires Inv(p, s) && r == s.(seqno := s.seqno + 1)
    requires t.seqno == r.seqno && t.group >= 0 && t.instance >= -1
    ensures Inv(p, r) && Fresh(r, t)
  {
    NumberTasks(s, r);
    SameCounts(p, s, r);
    SameQueues(p, s, r);
    forall u | Live(r, u) ensures u.seqno < t.seqno {
      assert QueueOk(WaitQ(s, EntryOf(u)), EntryOf(u), s.running, s.seqno);
      assert WaitQ(r, EntryOf(u)) == WaitQ(s, EntryOf(u));
    }
  }

  lemma NumberTasks(s: State, r: State)
    requires TasksOk(s) && r == s.(seqno := s.seqno + 1)
    ensures TasksOk(r)
  {
    forall e ensures QueueOk(WaitQ(r, e), e, r.running, r.seqno) {
      assert WaitQ(r, e) == WaitQ(s, e);
      QueueOkLater(WaitQ(s, e), e, s.running, s.seqno, r.seqno);
    }
    assert forall t {:trigger Live(r, t)} :: Live(r, t) ==> Live(s, t);
  }

  lemma QueueOkLater(w: seq<Task>, e: EntryId, running: set<Task>, last: nat, later: nat)
    requires QueueOk(w, e, running, last) && last <= later
    ensures QueueOk(w, e, running, later)
  {
  }

  lemma SameCounts(p: Policy, s: State, r: State)
    requires CountsOk(s) && RunTaskOk(s) && Exclusive(p, s)
    requires r.entryRun == s.entryRun && r.groupRun == s.groupRun && r.runTask == s.runTask && r.running == s.running
    ensures CountsOk(r) && RunTaskOk(r) && Exclusive(p, r)
  {
    assert forall e {:trigger EntryRun(r, e)} :: EntryRun(r, e) == EntryRun(s, e);
    assert forall g {:trigger GroupRun(r, g)} :: GroupRun(r, g) == GroupRun(s, g);
  }

  lemma SameQueues(p: Policy, s: State, r: State)
    requires QueuesOk(p, s) && AllQueued(s) && AllWaking(s)
    requires r.deferq == s.deferq && r.home == s.home && r.waitq == s.waitq
    requires r.entryRun == s.entryRun && r.groupRun == s.groupRun
    ensures QueuesOk(p, r) && AllQueued(r)
    ensures r.on == s.on ==> AllWaking(r)
  {
    assert forall o {:trigger DeferQ(r, o)} :: DeferQ(r, o) == DeferQ(s, o);
    assert forall e {:trigger WaitQ(r, e)} :: WaitQ(r, e) == WaitQ(s, e);
    if r.on == s.on {
      assert forall o {:trigger Waking(r, o)} :: Waking(r, o) == Waking(s, o);
    }
  }

  lemma FreshIsNew(s: State, t: Task)
    requires Fresh(s, t)
    ensures t !in s.running
    ensures forall i :: 0 <= i < |WaitQ(s, EntryOf(t))| && EntryOf(WaitQ(s, EntryOf(t))[i]) == EntryOf(t) ==>
      WaitQ(s, EntryOf(t))[i].seqno < t.seqno
  {
    assert t in s.running ==> Live(s, t);
    var w := WaitQ(s, EntryOf(t));
    forall i | 0 <= i < |w| && EntryOf(w[i]) == EntryOf(t) ensures w[i].seqno < t.seqno {
      assert Live(s, w[i]);
    }
  }

  lemma AppendWaiting(s: State, t: Task)
    requires WaitingOk(s) && Fresh(s, t)
    ensures WaitingOk(AddToWaitQ(s, t))
  {
    var r, e := AddToWaitQ(s, t), EntryOf(t);
    FreshIsNew(s, t);
    assert forall f {:trigger WaitQ(r, f)} :: f != e ==> WaitQ(r, f) == WaitQ(s, f);
    assert WaitQ(r, e) == WaitQ(s, e) + [t];
  }

  lemma AppendTasks(s: State, t: Task)
    requires TasksOk(s) && Fresh(s, t)
    ensures TasksOk(AddToWaitQ(s, t))
  {
    AppendWaiting(s, t);
    var r := AddToWaitQ(s, t);
    assert forall u {:trigger Live(r, u)} :: Live(r, u) ==> Live(s, u) || u == t;
  }

  lemma AppendRuns(p: Policy, s: State, t: Task)
    requires RunsOk(p, s) && QueuesOk(p, s) && Fresh(s, t)
    ensures RunsOk(p, AddToWaitQ(s, t)) && QueuesOk(p, AddToWaitQ(s, t))
  {
    var r := AddToWaitQ(s, t);
    AppendTasks(s, t);
    assert forall e {:trigger EntryRun(r, e)} :: EntryRun(r, e) == EntryRun(s, e);
    assert forall g {:trigger GroupRun(r, g)} :: GroupRun(r, g) == GroupRun(s, g);
    assert forall o {:trigger DeferQ(r, o)} :: DeferQ(r, o) == DeferQ(s, o);
  }

  /** A queue that already waits grows at its end. */
  lemma AppendKeeps(p: Policy, s: State, t: Task)
    requires Inv(p, s) && Fresh(s, t) && WaitQ(s, EntryOf(t)) != []
    ensures Inv(p, AddToWaitQ(s, t))
  {
    AppendRuns(p, s, t);
    var r := AddToWaitQ(s, t);
    assert forall o {:trigger Waking(r, o)} :: Waking(r, o) == Waking(s, o);
  }

  lemma EnqueueDefers(p: Policy, s: State, t: Task, o: Owner)
    requires Inv(p, s) && Fresh(s, t) && WaitQ(s, EntryOf(t)) == []
    requires (o == EntryOwner(STOP) && !s.on) || (RuleFor(p, o, EntryOf(t)) && OwnerRuns(s, o))
    ensures EntryOf(t) !in AddToWaitQ(s, t).home
    ensures forall f :: f in DeferQ(AddToWaitQ(s, t), o) ==>
      Key(AddToWaitQ(s, t), f) != Key(AddToWaitQ(s, t), EntryOf(t))
    ensures Inv(p, AddToDeferQ(AddToWaitQ(s, t), o, EntryOf(t)))
  {
    AppendRuns(p, s, t);
    var s1, e := AddToWaitQ(s, t), EntryOf(t);
    AppendQueued(s, t);
    AddToDeferQKeeps(p, s1, o, e);
    AddWakes(s, s1, o, e, AddToDeferQ(s1, o, e));
  }

  lemma AppendQueued(s: State, t: Task)
    requires AllQueued(s) && WaitQ(s, EntryOf(t)) == []
    ensures AllQueuedBut(AddToWaitQ(s, t), EntryOf(t)) && WaitQ(AddToWaitQ(s, t), EntryOf(t)) == [t]
  {
    var r := AddToWaitQ(s, t);
    assert forall f {:trigger WaitQ(r, f)} :: f != EntryOf(t) ==> WaitQ(r, f) == WaitQ(s, f);
  }

  lemma AddWakes(s: State, s1: State, o: Owner, e: EntryId, r: State)
    requires AllWaking(s) && s1.home == s.home && e !in s.home && Waking(s, o)
    requires r.home == s1.home[e := o] && r.on == s.on && r.groupRun == s.groupRun && r.entryRun == s.entryRun
    ensures AllWaking(r)
  {
    assert forall q {:trigger Waking(r, q)} :: Waking(r, q) == Waking(s, q);
  }

  lemma EnqueueRuns(p: Policy, s: State, t: Task)
    requires Inv(p, s) && Fresh(s, t) && WaitQ(s, EntryOf(t)) == [] && Runnable(p, s, EntryOf(t))
    ensures t.instance != -1 ==> EntryOf(t) !in s.runTask && EntryRun(s, EntryOf(t)) == 0
    ensures Inv(p, RunTask(s, t).(started := s.started + [[t]]))
  {
    RunnableIsFree(p, s, EntryOf(t));
    FreshIsNew(s, t);
    RunTaskKeepsRunTask(s, t);
    RunTaskCounts(s, t);
    RunTaskKeepsExclusion(p, s, t);
    RunTaskTasks(s, t);
    RunTaskQueues(p, s, t);
    RunTaskWakes(s, t);
    EnqueueLogs(p, s, RunTask(s, t), t);
  }

  lemma EnqueueLogs(p: Policy, s: State, s1: State, t: Task)
    requires Inv(p, s1)
    ensures Inv(p, s1.(started := s.started + [[t]]))
  {
    var r := s1.(started := s.started + [[t]]);
    LogKeeps(p, s1, r);
    assert forall o {:trigger Waking(r, o)} :: Waking(r, o) == Waking(s1, o);
  }

  lemma RunTaskQueues(p: Policy, s: State, t: Task)
    requires QueuesOk(p, s)
    requires t.instance != -1 ==> EntryOf(t) !in s.runTask && EntryRun(s, EntryOf(t)) == 0
    ensures QueuesOk(p, RunTask(s, t))
  {
    var r := RunTask(s, t);
    assert forall o {:trigger DeferQ(r, o)} :: DeferQ(r, o) == DeferQ(s, o);
  }

  lemma RunTaskTasks(s: State, t: Task)
    requires TasksOk(s) && Fresh(s, t) && WaitQ(s, EntryOf(t)) == []
    requires t.instance != -1 ==> EntryOf(t) !in s.runTask && EntryRun(s, EntryOf(t)) == 0
    ensures TasksOk(RunTask(s, t))
  {
    var r := RunTask(s, t);
    forall f ensures QueueOk(WaitQ(r, f), f, r.running, r.seqno) {
      assert WaitQ(r, f) == WaitQ(s, f);
      if f != EntryOf(t) { OtherQueue(WaitQ(s, f), f, s.running, s.seqno, t); }
    }
    assert forall u {:trigger Live(r, u)} :: Live(r, u) ==> Live(s, u) || u == t;
  }

  lemma RunTaskWakes(s: State, t: Task)
    requires AllQueued(s) && AllWaking(s)
    requires t.instance != -1 ==> EntryOf(t) !in s.runTask && EntryRun(s, EntryOf(t)) == 0
    ensures AllQueued(RunTask(s, t)) && AllWaking(RunTask(s, t))
  {
    var r := RunTask(s, t);
    assert forall o {:trigger Waking(r, o)} :: Waking(s, o) ==> Waking(r, o);
    assert forall f {:trigger WaitQ(r, f)} :: WaitQ(r, f) == WaitQ(s, f);
  }

  // ---- Cancel ----

  datatype CancelReturnCode = CANCELLED | FAILED | QUEUED

  function IndexOf(w: seq<Task>, t: Task): (i: nat)
    requires t in w
    ensures i < |w| && w[i] == t
  {
    if w[0] == t then 0 else 1 + IndexOf(w[1..], t)
  }

  /** DeleteFromWaitQ of a task anywhere in the queue. */
  function Erase(s: State, t: Task): State
    requires t in WaitQ(s, EntryOf(t))
  {
    var w := WaitQ(s, EntryOf(t));
    var i := IndexOf(w, t);
    s.(waitq := s.waitq[EntryOf(t) := w[..i] + w[i + 1..]])
  }

  /**
   * Cancel. A running task is marked. A waiting task leaves its queue; its entry leaves the defer queue with
   * the last waiting task, and is inserted again when the head of the wait queue changed.
   */
  function Cancel(p: Policy, s: State, t: Task): (r: (State, CancelReturnCode))
    requires Inv(p, s)
    ensures Inv(p, r.0)
    ensures r.1 == QUEUED <==> t in s.running
    ensures r.1 == CANCELLED <==> t in WaitQ(s, EntryOf(t))
    ensures r.0.waitq == if r.1 == CANCELLED then Erase(s, t).waitq else s.waitq
    ensures r.0.cancelled == if r.1 == QUEUED then s.cancelled + {t} else s.cancelled
    ensures r.0.running == s.running && r.0.started == s.started && r.0.seqno == s.seqno && r.0.on == s.on
  {
    if t in s.running then
      MarkKeeps(p, s, s.(cancelled := s.cancelled + {t}));
      RunningNotWaiting(s, t);
      (s.(cancelled := s.cancelled + {t}), QUEUED)
    else if t in WaitQ(s, EntryOf(t)) then (CancelWaiting(p, s, t), CANCELLED)
    else (s, FAILED)
  }

  /** The preconditions of the queue updates are the branches that the source marks assert(0). */
  function CancelWaiting(p: Policy, s: State, t: Task): (r: State)
    requires Inv(p, s) && t in WaitQ(s, EntryOf(t))
    ensures Inv(p, r) && r == Erase(s, t).(deferq := r.deferq, home := r.home)
  {
    var s1, e := Erase(s, t), EntryOf(t);
    if WaitQ(s1, e) == [] then
      UnqueueKeeps(p, s, t);
      DeleteFromDeferQ(s1, s1.home[e], e)
    else
      EraseKeeps(p, s, t);
      if t == WaitQ(s, e)[0] then
        RequeueKeeps(p, s1, e);
        AddToDeferQ(DeleteFromDeferQ(s1, s1.home[e], e), s1.home[e], e)
      else s1
  }

  lemma RunningNotWaiting(s: State, t: Task)
    requires WaitingOk(s) && t in s.running
    ensures t !in WaitQ(s, EntryOf(t))
  {
    assert QueueOk(WaitQ(s, EntryOf(t)), EntryOf(t), s.running, s.seqno);
  }

  lemma MarkKeeps(p: Policy, s: State, r: State)
    requires Inv(p, s) && r == s.(cancelled := r.cancelled) && r.cancelled <= s.running
    ensures Inv(p, r)
  {
    SameTasks(s, r.(cancelled := s.cancelled));
    assert TasksOk(r) by {
      assert forall e {:trigger WaitQ(r, e)} :: WaitQ(r, e) == WaitQ(s, e);
      assert forall t {:trigger Live(r, t)} :: Live(r, t) ==> Live(s, t);
    }
    SameCounts(p, s, r);
    SameQueues(p, s, r);
  }

  lemma EraseQueue(w: seq<Task>, e: EntryId, running: set<Task>, last: nat, i: nat, v: seq<Task>)
    requires QueueOk(w, e, running, last) && i < |w| && v == w[..i] + w[i + 1..]
    ensures QueueOk(v, e, running, last)
  {
    forall j | 0 <= j < |v|
      ensures EntryOf(v[j]) == e && e.group >= 0 && e.instance >= -1 && 0 < v[j].seqno <= last && v[j] !in running
    {
      assert v[j] == w[if j < i then j else j + 1];
    }
    forall j, k | 0 <= j < k < |v| ensures v[j].seqno < v[k].seqno {
      assert v[j] == w[if j < i then j else j + 1] && v[k] == w[if k < i then k else k + 1];
    }
  }

  lemma EraseTasks(s: State, t: Task)
    requires TasksOk(s) && t in WaitQ(s, EntryOf(t))
    ensures TasksOk(Erase(s, t))
  {
    var r, e := Erase(s, t), EntryOf(t);
    var w := WaitQ(s, e);
    EraseQueue(w, e, s.running, s.seqno, IndexOf(w, t), WaitQ(r, e));
    assert forall f {:trigger WaitQ(r, f)} :: f != e ==> WaitQ(r, f) == WaitQ(s, f);
    assert forall u {:trigger Live(r, u)} :: Live(r, u) ==> Live(s, u);
  }

  lemma EraseCore(p: Policy, s: State, t: Task)
    requires Core(p, s) && t in WaitQ(s, EntryOf(t))
    ensures Core(p, Erase(s, t))
  {
    var r := Erase(s, t);
    EraseTasks(s, t);
    assert forall e {:trigger EntryRun(r, e)} :: EntryRun(r, e) == EntryRun(s, e);
    assert forall g {:trigger GroupRun(r, g)} :: GroupRun(r, g) == GroupRun(s, g);
    assert forall o {:trigger DeferQ(r, o)} :: DeferQ(r, o) == DeferQ(s, o);
  }

  lemma CancelLast(p: Policy, s: State, t: Task, s1: State)
    requires Inv(p, s) && t in WaitQ(s, EntryOf(t)) && s1 == Erase(s, t) && WaitQ(s1, EntryOf(t)) == []
    ensures var e := EntryOf(t);
      && e in s1.home && e in DeferQ(s1, s1.home[e])
      && CancelWaiting(p, s, t) == DeleteFromDeferQ(s1, s1.home[e], e)
  {
    UnqueueKeeps(p, s, t);
  }

  lemma CancelFirst(p: Policy, s: State, t: Task, s1: State)
    requires Inv(p, s) && t in WaitQ(s, EntryOf(t)) && s1 == Erase(s, t) && WaitQ(s1, EntryOf(t)) != []
    requires t == WaitQ(s, EntryOf(t))[0]
    ensures var e := EntryOf(t);
      && e in s1.home && e in DeferQ(s1, s1.home[e])
      && var s2 := DeleteFromDeferQ(s1, s1.home[e], e);
      && (forall f :: f in DeferQ(s2, s1.home[e]) ==> Key(s2, f) != Key(s2, e))
      && CancelWaiting(p, s, t) == AddToDeferQ(s2, s1.home[e], e)
  {
    EraseKeeps(p, s, t);
    RequeueKeeps(p, s1, EntryOf(t));
  }

  lemma CancelLater(p: Policy, s: State, t: Task, s1: State)
    requires Inv(p, s) && t in WaitQ(s, EntryOf(t)) && s1 == Erase(s, t) && WaitQ(s1, EntryOf(t)) != []
    requires t != WaitQ(s, EntryOf(t))[0]
    ensures CancelWaiting(p, s, t) == s1
  {
  }

  /** Removing a waiting task keeps everything but, for the last one, the agreement of the two kinds of queue. */
  lemma EraseKeeps(p: Policy, s: State, t: Task)
    requires Inv(p, s) && t in WaitQ(s, EntryOf(t))
    ensures Core(p, Erase(s, t)) && AllWaking(Erase(s, t))
    ensures WaitQ(Erase(s, t), EntryOf(t)) != [] ==> Inv(p, Erase(s, t))
  {
    var r := Erase(s, t);
    EraseCore(p, s, t);
    assert forall o {:trigger Waking(r, o)} :: Waking(r, o) == Waking(s, o);
    assert forall f {:trigger WaitQ(r, f)} :: f != EntryOf(t) ==> WaitQ(r, f) == WaitQ(s, f);
  }

  lemma UnqueueKeeps(p: Policy, s: State, t: Task)
    requires Inv(p, s) && t in WaitQ(s, EntryOf(t)) && WaitQ(Erase(s, t), EntryOf(t)) == []
    ensures var r, e := Erase(s, t), EntryOf(t);
      && e in r.home && e in DeferQ(r, r.home[e])
      && Inv(p, DeleteFromDeferQ(r, r.home[e], e))
  {
    EraseKeeps(p, s, t);
    assert WaitQ(s, EntryOf(t)) != [] && EntryOf(t) in s.home;
    UnqueueOne(p, s, Erase(s, t), EntryOf(t));
  }

  lemma UnqueueOne(p: Policy, s: State, s1: State, e: EntryId)
    requires Core(p, s1) && AllWaking(s1) && AllQueued(s) && WaitQ(s1, e) == [] && e in s1.home
    requires s1 == s.(waitq := s1.waitq) && (forall f {:trigger WaitQ(s1, f)} :: f != e ==> WaitQ(s1, f) == WaitQ(s, f))
    ensures e in DeferQ(s1, s1.home[e]) && Inv(p, DeleteFromDeferQ(s1, s1.home[e], e))
  {
    DeleteQueues(p, s1, s1.home[e], e);
    var r := DeleteFromDeferQ(s1, s1.home[e], e);
    SameRuns(p, s1, r);
    UnqueueRest(s, s1, e, r);
  }

  lemma UnqueueRest(s: State, s1: State, e: EntryId, r: State)
    requires AllQueued(s) && AllWaking(s1) && WaitQ(s1, e) == [] && e in s1.home
    requires s1 == s.(waitq := s1.waitq) && (forall f {:trigger WaitQ(s1, f)} :: f != e ==> WaitQ(s1, f) == WaitQ(s, f))
    requires r == s1.(deferq := r.deferq, home := s1.home - {e})
    ensures AllQueued(r) && AllWaking(r)
  {
    assert forall o {:trigger Waking(r, o)} :: Waking(r, o) == Waking(s1, o);
    forall f ensures f in r.home <==> WaitQ(r, f) != [] {
      assert WaitQ(r, f) == WaitQ(s1, f);
      assert f in s.home <==> WaitQ(s, f) != [];
    }
  }

  lemma DeleteQueues(p: Policy, s: State, o: Owner, e: EntryId)
    requires QueuesOk(p, s) && e in s.home && s.home[e] == o
    ensures e in DeferQ(s, o) && QueuesOk(p, DeleteFromDeferQ(s, o, e))
  {
    var r := DeleteFromDeferQ(s, o, e);
    assert forall q {:trigger DeferQ(r, q)} :: DeferQ(r, q) == if q == o then DeferQ(s, o) - {e} else DeferQ(s, q);
  }

  lemma RequeueKeeps(p: Policy, s: State, e: EntryId)
    requires Inv(p, s) && WaitQ(s, e) != []
    ensures e in s.home && e in DeferQ(s, s.home[e])
    ensures var s1 := DeleteFromDeferQ(s, s.home[e], e);
      && (forall f :: f in DeferQ(s1, s.home[e]) ==> Key(s1, f) != Key(s1, e))
      && Inv(p, AddToDeferQ(s1, s.home[e], e))
  {
    assert e in s.home;
    var o := s.home[e];
    DeleteFromDeferQKeeps(p, s, o, e);
    var s1 := DeleteFromDeferQ(s, o, e);
    AddToDeferQKeeps(p, s1, o, e);
    var r := AddToDeferQ(s1, o, e);
    assert forall q {:trigger Waking(r, q)} :: Waking(r, q) == Waking(s, q);
  }

  // ---- Task exit ----

  lemma RetireCounts(s: State, t: Task)
    requires CountsOk(s) && RunTaskOk(s) && t in s.running
    ensures EntryRun(s, EntryOf(t)) > 0 && GroupRun(s, t.group) > 0
    ensures t.instance != -1 ==>
      EntryRun(s, EntryOf(t)) == 1 && EntryOf(t) in s.runTask && s.runTask[EntryOf(t)] == t
    ensures CountsOk(Retire(s, t))
  {
    var ts, e := s.running - {t}, EntryOf(t);
    assert s.running == ts + {t};
    AddRunning(ts, t, e);
    assert EntryRun(s, e) == |RunningOf(s.running, e)| && GroupRun(s, t.group) == |RunningIn(s.running, t.group)|;
    if t.instance != -1 {
      assert t in RunningOf(s.running, e);
      assert e in s.runTask;
      OnlyOne(RunningOf(s.running, e), t, s.runTask[e]);
    }
    var r := Retire(s, t);
    forall f ensures EntryRun(r, f) == |RunningOf(r.running, f)| {
      assert EntryRun(s, f) == |RunningOf(s.running, f)|;
      AddRunning(ts, t, f);
    }
    forall g ensures GroupRun(r, g) == |RunningIn(r.running, g)| {
      assert GroupRun(s, g) == |RunningIn(s.running, g)|;
      AddRunning(ts, t, EntryId(g, 0));
    }
  }

  lemma OnlyOne(ts: set<Task>, t: Task, u: Task)
    requires t in ts && u in ts && |ts| <= 1
    ensures t == u
  {
    assert |ts - {t}| == 0;
  }

  lemma RetireRuns(p: Policy, s: State, t: Task)
    requires RunsOk(p, s) && t in s.running
    ensures EntryRun(s, EntryOf(t)) > 0 && GroupRun(s, t.group) > 0
    ensures t.instance != -1 ==>
      EntryRun(s, EntryOf(t)) == 1 && EntryOf(t) in s.runTask && s.runTask[EntryOf(t)] == t
    ensures RunsOk(p, Retire(s, t))
  {
    RetireCounts(s, t);
    var r := Retire(s, t);
    assert forall e {:trigger EntryRun(r, e)} :: EntryRun(r, e) <= EntryRun(s, e);
    assert forall g {:trigger GroupRun(r, g)} :: GroupRun(r, g) <= GroupRun(s, g);
    assert forall f {:trigger WaitQ(r, f)} :: WaitQ(r, f) == WaitQ(s, f);
    assert forall u {:trigger Live(r, u)} :: Live(r, u) ==> Live(s, u);
    assert TasksOk(r);
    RetireRunTask(s, t);
  }

  lemma RetireRunTask(s: State, t: Task)
    requires RunTaskOk(s) && t in s.running
    requires EntryRun(s, EntryOf(t)) > 0 && GroupRun(s, t.group) > 0
    requires t.instance != -1 ==>
      EntryRun(s, EntryOf(t)) == 1 && EntryOf(t) in s.runTask && s.runTask[EntryOf(t)] == t
    ensures RunTaskOk(Retire(s, t))
  {
    var r, x := Retire(s, t), EntryOf(t);
    assert forall e {:trigger EntryRun(r, e)} :: EntryRun(r, e) == EntryRun(s, e) - if e == x then 1 else 0;
  }

  /** TaskExited: the counters fall, and queues whose owner became idle are walked. */
  function TaskExited(p: Policy, s: State, t: Task): (r: State)
    requires Inv(p, s) && t in s.running
    ensures Core(p, r) && AllQueued(r)
  {
    RetireKeeps(p, s, t);
    var s1, e := Retire(s, t), EntryOf(t);
    if GroupRun(s1, t.group) == 0 && EntryRun(s1, e) == 0 then RunCombinedDeferQ(p, s1, e)
    else if GroupRun(s1, t.group) == 0 || EntryRun(s1, e) == 0 then
      RunDeferQ(p, s1, if GroupRun(s1, t.group) == 0 then GroupOwner(t.group) else EntryOwner(e))
    else s1
  }

  lemma RetireKeeps(p: Policy, s: State, t: Task)
    requires Inv(p, s) && t in s.running
    ensures EntryRun(s, EntryOf(t)) > 0 && GroupRun(s, t.group) > 0
    ensures t.instance != -1 ==>
      EntryRun(s, EntryOf(t)) == 1 && EntryOf(t) in s.runTask && s.runTask[EntryOf(t)] == t
    ensures var r := Retire(s, t);
      && Core(p, r) && AllQueued(r)
      && forall e {:trigger e in r.home} :: e in r.home ==>
           || Waking(r, r.home[e])
           || (r.home[e] == GroupOwner(t.group) && GroupRun(r, t.group) == 0)
           || (r.home[e] == EntryOwner(EntryOf(t)) && EntryRun(r, EntryOf(t)) == 0)
  {
    RetireRuns(p, s, t);
    RetireWakes(s, t);
    var r := Retire(s, t);
    assert forall o {:trigger DeferQ(r, o)} :: DeferQ(r, o) == DeferQ(s, o);
    assert forall f {:trigger WaitQ(r, f)} :: WaitQ(r, f) == WaitQ(s, f);
  }

  /** Only what waited for the task's group or entry may have nothing left to wait for. */
  lemma RetireWakes(s: State, t: Task)
    requires AllWaking(s) && EntryRun(s, EntryOf(t)) > 0 && GroupRun(s, t.group) > 0
    requires t.instance != -1 ==>
      EntryRun(s, EntryOf(t)) == 1 && EntryOf(t) in s.runTask && s.runTask[EntryOf(t)] == t
    ensures var r := Retire(s, t);
      forall e {:trigger e in r.home} :: e in r.home ==>
        || Waking(r, r.home[e])
        || (r.home[e] == GroupOwner(t.group) && GroupRun(r, t.group) == 0)
        || (r.home[e] == EntryOwner(EntryOf(t)) && EntryRun(r, EntryOf(t)) == 0)
  {
    var r := Retire(s, t);
    forall e | e in r.home ensures
      || Waking(r, r.home[e])
      || (r.home[e] == GroupOwner(t.group) && GroupRun(r, t.group) == 0)
      || (r.home[e] == EntryOwner(EntryOf(t)) && EntryRun(r, EntryOf(t)) == 0)
    {
      assert Waking(s, s.home[e]);
    }
  }

  /** Every key is above 0, so at the start of a walk nothing is late. */
  lemma NothingLate(p: Policy, s: State, o: Owner, it: Option<EntryId>, q: Owner, jt: Option<EntryId>)
    requires Core(p, s) && AllQueued(s)
    ensures NoneLate(p, s, o, it, q, jt, 0)
  {
    forall f | f in s.home ensures 0 < Key(s, f) {
      KeyInRange(p, s, s.home[f], f);
    }
  }

  lemma LeastIsAhead(p: Policy, s: State, o: Owner, f: EntryId)
    requires Core(p, s) && AllQueued(s) && f in s.home && s.home[f] == o
    ensures DistinctKeys(s, DeferQ(s, o)) && Pending(s, o, Least(s, DeferQ(s, o)), f)
  {
    QueueKeysDistinct(p, s, o);
    assert f in DeferQ(s, o);
  }

  /** A task exit wakes everything that waited for the task, in the order of the sequence numbers. */
  lemma ExitWakesInOrder(p: Policy, s: State, t: Task)
    requires Inv(p, s) && t in s.running
    ensures EntryRun(s, EntryOf(t)) > 0 && GroupRun(s, t.group) > 0
    ensures t.instance != -1 ==>
      EntryRun(s, EntryOf(t)) == 1 && EntryOf(t) in s.runTask && s.runTask[EntryOf(t)] == t
    ensures Walked(Retire(s, t), TaskExited(p, s, t), 0)
  {
    RetireKeeps(p, s, t);
    var s1, e := Retire(s, t), EntryOf(t);
    var g, q := GroupOwner(t.group), EntryOwner(e);
    assert e != STOP;
    forall f | f in s1.home ensures
      || Waking(s1, s1.home[f])
      || (s1.home[f] == g && GroupRun(s1, t.group) == 0
          && DistinctKeys(s1, DeferQ(s1, g)) && Pending(s1, g, Least(s1, DeferQ(s1, g)), f))
      || (s1.home[f] == q && EntryRun(s1, e) == 0
          && DistinctKeys(s1, DeferQ(s1, q)) && Pending(s1, q, Least(s1, DeferQ(s1, q)), f))
    {
      if !Waking(s1, s1.home[f]) { LeastIsAhead(p, s1, s1.home[f], f); }
    }
    QueueKeysDistinct(p, s1, g);
    QueueKeysDistinct(p, s1, q);
    var git, qit := Least(s1, DeferQ(s1, g)), Least(s1, DeferQ(s1, q));
    NothingLate(p, s1, g, git, q, qit);
    NothingLate(p, s1, g, git, q, None);
    NothingLate(p, s1, q, qit, g, None);
    if GroupRun(s1, t.group) == 0 && EntryRun(s1, e) == 0 {
      WalkBothWakesInOrder(p, s1, g, git, q, qit, 0);
    } else if GroupRun(s1, t.group) == 0 || EntryRun(s1, e) == 0 {
      var o := if GroupRun(s1, t.group) == 0 then g else q;
      RunDeferQWakesInOrder(p, s1, o, if o == g then git else qit, if o == g then q else g, 0);
    }
  }

  /** OnTaskExit: a task that asked to be recycled and was not cancelled is enqueued again. */
  function Exit(p: Policy, s: State, t: Task, recycle: bool): (r: State)
    requires Inv(p, s) && t in s.running
    ensures Inv(p, r)
  {
    ExitWakesInOrder(p, s, t);
    var s1 := TaskExited(p, s, t);
    assert t.group >= 0 && t.instance >= -1;
    if recycle && t !in s.cancelled then Enqueue(p, s1, t.group, t.instance) else s1
  }

  // ---- Stop and Start ----

  function Stop(p: Policy, s: State): (r: State)
    requires Inv(p, s)
    ensures Inv(p, r) && !r.on
  {
    var r := s.(on := false);
    SwitchKeeps(p, s, r);
    r
  }

  lemma SwitchKeeps(p: Policy, s: State, r: State)
    requires Inv(p, s) && r == s.(on := r.on)
    ensures Core(p, r) && AllQueued(r) && (!r.on ==> AllWaking(r))
    ensures forall e {:trigger e in r.home} :: e in r.home ==> OwnerRuns(r, r.home[e]) || r.home[e] == EntryOwner(STOP)
  {
    SameRuns(p, s, r);
    SameQueues(p, s, r);
    SwitchWakes(s, r);
  }

  lemma SwitchWakes(s: State, r: State)
    requires AllWaking(s) && r == s.(on := r.on)
    ensures forall e {:trigger e in r.home} :: e in r.home ==> OwnerRuns(r, r.home[e]) || r.home[e] == EntryOwner(STOP)
  {
    assert forall o {:trigger OwnerRuns(r, o)} :: OwnerRuns(r, o) == OwnerRuns(s, o);
    forall e | e in r.home ensures OwnerRuns(r, r.home[e]) || r.home[e] == EntryOwner(STOP) {
      assert Waking(s, s.home[e]);
    }
  }

  /** Start walks what was enqueued while the scheduler was stopped. */
  function Start(p: Policy, s: State): (r: State)
    requires Inv(p, s)
    ensures Inv(p, r) && r.on
  {
    var s1 := s.(on := true);
    SwitchKeeps(p, s, s1);
    StartWakesInOrder(p, s);
    RunDeferQ(p, s1, EntryOwner(STOP))
  }

  lemma StartWakesInOrder(p: Policy, s: State)
    requires Inv(p, s)
    ensures var s1 := s.(on := true);
      && Core(p, s1) && AllQueued(s1)
      && var r := RunDeferQ(p, s1, EntryOwner(STOP));
      Walked(s1, r, 0)
  {
    var s1, o := s.(on := true), EntryOwner(STOP);
    SwitchKeeps(p, s, s1);
    QueueKeysDistinct(p, s1, o);
    var first := Least(s1, DeferQ(s1, o));
    forall f | f in s1.home ensures Waking(s1, s1.home[f]) || Pending(s1, o, first, f) {
      if !OwnerRuns(s1, s1.home[f]) { LeastIsAhead(p, s1, o, f); }
    }
    NothingLate(p, s1, o, first, o, None);
    RunDeferQWakesInOrder(p, s1, o, first, o, 0);
  }
}
