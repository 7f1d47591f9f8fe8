/** What every step of the task scheduler keeps, and how the elementary updates keep it. */
module TaskInvariant {
  import opened TaskPolicy
  import opened TaskState

  /** The task is enqueued and has not exited. */
  predicate Live(s: State, t: Task) {
    t in s.running || t in WaitQ(s, EntryOf(t))
  }

  /** A wait queue holds tasks of its entry, in enqueue order, none of them running. */
  ghost predicate QueueOk(w: seq<Task>, e: EntryId, running: set<Task>, last: nat) {
    && (forall i {:trigger w[i]} :: 0 <= i < |w| ==>
          && EntryOf(w[i]) == e && e.group >= 0 && e.instance >= -1
          && 0 < w[i].seqno <= last && w[i] !in running)
    && (forall i, j {:trigger w[i], w[j]} :: 0 <= i < j < |w| ==> w[i].seqno < w[j].seqno)
  }

  ghost predicate WaitingOk(s: State) {
    forall e {:trigger WaitQ(s, e)} :: QueueOk(WaitQ(s, e), e, s.running, s.seqno)
  }

  ghost predicate RunningOk(s: State) {
    && (forall t {:trigger t in s.running} :: t in s.running ==>
          0 < t.seqno <= s.seqno && t.group >= 0 && t.instance >= -1)
    && s.cancelled <= s.running
  }

  /** Sequence numbers name live tasks. */
  ghost predicate NamesUnique(s: State) {
    forall t, u {:trigger Live(s, t), Live(s, u)} ::
      Live(s, t) && Live(s, u) && t.seqno == u.seqno ==> t == u
  }

  ghost predicate TasksOk(s: State) {
    WaitingOk(s) && RunningOk(s) && NamesUnique(s)
  }

  ghost function RunningOf(ts: set<Task>, e: EntryId): set<Task> {
    set t | t in ts && EntryOf(t) == e
  }

  ghost function RunningIn(ts: set<Task>, g: int): set<Task> {
    set t | t in ts && t.group == g
  }

  /** run_count_ of an entry and of a group count the running tasks. */
  ghost predicate CountsOk(s: State) {
    && (forall e {:trigger EntryRun(s, e)} :: EntryRun(s, e) == |RunningOf(s.running, e)|)
    && (forall g {:trigger GroupRun(s, g)} :: GroupRun(s, g) == |RunningIn(s.running, g)|)
  }

  /** A numbered instance runs at most one task, and run_task_ is that task. */
  ghost predicate RunTaskOk(s: State) {
    && (forall e {:trigger e in s.runTask} :: e in s.runTask <==> e.instance != -1 && EntryRun(s, e) > 0)
    && (forall e: EntryId {:trigger EntryRun(s, e)} :: e.instance != -1 ==> EntryRun(s, e) <= 1)
    && (forall e {:trigger e in s.runTask} :: e in s.runTask ==>
          s.runTask[e] in s.running && EntryOf(s.runTask[e]) == e)
  }

  /** No two different groups and no two different entries related by a rule run at once. */
  ghost predicate Exclusive(p: Policy, s: State) {
    && (forall g, h {:trigger h in GroupRules(p, g)} :: h in GroupRules(p, g) && g != h ==>
          GroupRun(s, g) == 0 || GroupRun(s, h) == 0)
    && (forall e, f {:trigger f in EntryRules(p, e)} :: f in EntryRules(p, e) && e != f ==>
          EntryRun(s, e) == 0 || EntryRun(s, f) == 0)
  }

  /** Defer queues and back pointers agree; an entry waits for something it has a rule for, or for Start. */
  ghost predicate QueuesOk(p: Policy, s: State) {
    && (forall e, o {:trigger e in DeferQ(s, o)} :: e in DeferQ(s, o) ==> e in s.home && s.home[e] == o)
    && (forall e {:trigger e in s.home} :: e in s.home ==>
          && e in DeferQ(s, s.home[e])
          && (s.home[e] == EntryOwner(STOP) || RuleFor(p, s.home[e], e)))
  }

  ghost predicate RunsOk(p: Policy, s: State) {
    WellFormed(p) && TasksOk(s) && CountsOk(s) && RunTaskOk(s) && Exclusive(p, s)
  }

  ghost predicate Core(p: Policy, s: State) {
    RunsOk(p, s) && QueuesOk(p, s)
  }

  /** Exactly the entries with waiting tasks are deferred. */
  ghost predicate AllQueued(s: State) {
    forall e {:trigger e in s.home} {:trigger WaitQ(s, e)} :: e in s.home <==> WaitQ(s, e) != []
  }

  /** The same while entry x is being moved. */
  ghost predicate AllQueuedBut(s: State, x: EntryId) {
    && x !in s.home
    && forall e {:trigger e in s.home} {:trigger WaitQ(s, e)} :: e != x ==> (e in s.home <==> WaitQ(s, e) != [])
  }

  /** What keeps an entry deferred will end: its owner runs, or it is the stopped scheduler. */
  predicate Waking(s: State, o: Owner) {
    OwnerRuns(s, o) || (o == EntryOwner(STOP) && !s.on)
  }

  ghost predicate AllWaking(s: State) {
    forall e {:trigger e in s.home} :: e in s.home ==> Waking(s, s.home[e])
  }

  /** The invariant of the scheduler between two operations. */
  ghost predicate Inv(p: Policy, s: State) {
    Core(p, s) && AllQueued(s) && AllWaking(s)
  }

  // ---- Consequences ----

  lemma HeadsDiffer(s: State, e: EntryId, f: EntryId)
    requires TasksOk(s) && WaitQ(s, e) != [] && WaitQ(s, f) != [] && e != f
    ensures Key(s, e) != Key(s, f)
  {
    var t, u := WaitQ(s, e)[0], WaitQ(s, f)[0];
    assert Live(s, t) && Live(s, u);
  }

  lemma KeysDistinct(s: State, q: set<EntryId>)
    requires TasksOk(s)
    requires forall e {:trigger WaitQ(s, e)} :: e in q ==> WaitQ(s, e) != []
    ensures DistinctKeys(s, q)
  {
    forall e, f | e in q && f in q && e != f ensures Key(s, e) != Key(s, f) {
      HeadsDiffer(s, e, f);
    }
  }

  lemma QueueKeysDistinct(p: Policy, s: State, o: Owner)
    requires Core(p, s) && AllQueued(s)
    ensures DistinctKeys(s, DeferQ(s, o))
  {
    KeysDistinct(s, DeferQ(s, o));
  }

  lemma StopIsIdle(s: State)
    requires TasksOk(s) && CountsOk(s)
    ensures EntryRun(s, STOP) == 0 && WaitQ(s, STOP) == []
  {
    assert RunningOf(s.running, STOP) == {};
    if WaitQ(s, STOP) != [] {
      WaitingIsReal(s, STOP);
    }
  }

  lemma WaitingIsReal(s: State, e: EntryId)
    requires TasksOk(s) && WaitQ(s, e) != []
    ensures e.group >= 0 && e.instance >= -1
  {
    assert EntryOf(WaitQ(s, e)[0]) == e;
  }

  // ---- Deferring ----

  lemma SameTasks(s: State, r: State)
    requires TasksOk(s)
    requires r.waitq == s.waitq && r.running == s.running && r.seqno == s.seqno && r.cancelled == s.cancelled
    ensures TasksOk(r)
  {
    assert forall e {:trigger WaitQ(r, e)} :: WaitQ(r, e) == WaitQ(s, e);
    assert forall t {:trigger Live(r, t)} :: Live(r, t) ==> Live(s, t);
  }

  /** Updates of the defer queues do not touch what the other parts of the invariant read. */
  lemma SameRuns(p: Policy, s: State, r: State)
    requires RunsOk(p, s)
    requires r.waitq == s.waitq && r.running == s.running && r.seqno == s.seqno
    requires r.entryRun == s.entryRun && r.groupRun == s.groupRun && r.runTask == s.runTask
    requires r.cancelled == s.cancelled
    ensures RunsOk(p, r)
  {
    SameTasks(s, r);
    assert forall e {:trigger EntryRun(r, e)} :: EntryRun(r, e) == EntryRun(s, e);
    assert forall g {:trigger GroupRun(r, g)} :: GroupRun(r, g) == GroupRun(s, g);
  }

  lemma AddToQueue(p: Policy, s: State, o: Owner, e: EntryId)
    requires QueuesOk(p, s) && e !in s.home
    requires o == EntryOwner(STOP) || RuleFor(p, o, e)
    requires forall f :: f in DeferQ(s, o) ==> Key(s, f) != Key(s, e)
    ensures QueuesOk(p, AddToDeferQ(s, o, e))
  {
    var r := AddToDeferQ(s, o, e);
    assert forall q {:trigger DeferQ(r, q)} :: DeferQ(r, q) == if q == o then DeferQ(s, o) + {e} else DeferQ(s, q);
    forall f, q | f in DeferQ(r, q) ensures f in r.home && r.home[f] == q {
      assert f in DeferQ(s, q) || (f == e && q == o);
    }
  }

  lemma AddToDeferQKeeps(p: Policy, s: State, o: Owner, e: EntryId)
    requires Core(p, s) && AllQueuedBut(s, e) && WaitQ(s, e) != []
    requires o == EntryOwner(STOP) || RuleFor(p, o, e)
    ensures forall f :: f in DeferQ(s, o) ==> Key(s, f) != Key(s, e)
    ensures Core(p, AddToDeferQ(s, o, e)) && AllQueued(AddToDeferQ(s, o, e))
  {
    forall f | f in DeferQ(s, o) ensures Key(s, f) != Key(s, e) {
      HeadsDiffer(s, e, f);
    }
    var r := AddToDeferQ(s, o, e);
    AddToQueue(p, s, o, e);
    SameRuns(p, s, r);
    assert forall f {:trigger WaitQ(r, f)} :: WaitQ(r, f) == WaitQ(s, f);
  }

  lemma DeleteFromDeferQKeeps(p: Policy, s: State, o: Owner, e: EntryId)
    requires Core(p, s) && AllQueued(s) && e in DeferQ(s, o)
    ensures e in s.home && s.home[e] == o
    ensures Core(p, DeleteFromDeferQ(s, o, e)) && AllQueuedBut(DeleteFromDeferQ(s, o, e), e)
    ensures WaitQ(s, e) != []
  {
    var r := DeleteFromDeferQ(s, o, e);
    SameRuns(p, s, r);
    assert forall q {:trigger DeferQ(r, q)} :: DeferQ(r, q) == if q == o then DeferQ(s, o) - {e} else DeferQ(s, q);
    assert forall f {:trigger WaitQ(r, f)} :: WaitQ(r, f) == WaitQ(s, f);
  }

  // ---- Starting a task ----

  /** Nothing else that a rule relates to the entry is running. */
  ghost predicate Free(p: Policy, s: State, e: EntryId) {
    && (forall g {:trigger g in GroupRules(p, e.group)} :: g in GroupRules(p, e.group) && g != e.group ==>
          GroupRun(s, g) == 0)
    && (forall f {:trigger f in EntryRules(p, e)} :: f in EntryRules(p, e) && f != e ==> EntryRun(s, f) == 0)
    && (e.instance != -1 ==> EntryRun(s, e) == 0)
  }

  lemma RunnableIsFree(p: Policy, s: State, e: EntryId)
    requires Runnable(p, s, e)
    ensures Free(p, s, e)
  {
    assert e.instance != -1 ==> e == EntryRules(p, e)[0] && e in EntryRules(p, e);
  }

  lemma AddRunning(ts: set<Task>, t: Task, e: EntryId)
    requires t !in ts
    ensures |RunningOf(ts + {t}, e)| == |RunningOf(ts, e)| + if e == EntryOf(t) then 1 else 0
    ensures |RunningIn(ts + {t}, e.group)| == |RunningIn(ts, e.group)| + if e.group == t.group then 1 else 0
  {
    assert RunningOf(ts + {t}, e) == RunningOf(ts, e) + (if e == EntryOf(t) then {t} else {});
    assert RunningIn(ts + {t}, e.group) == RunningIn(ts, e.group) + (if e.group == t.group then {t} else {});
  }

  /** A task that is not running yet starts: counters follow. */
  lemma RunTaskCounts(s: State, t: Task)
    requires CountsOk(s) && t !in s.running
    requires t.instance != -1 ==> EntryOf(t) !in s.runTask && EntryRun(s, EntryOf(t)) == 0
    ensures CountsOk(RunTask(s, t))
  {
    var r := RunTask(s, t);
    forall e ensures EntryRun(r, e) == |RunningOf(r.running, e)| {
      assert EntryRun(s, e) == |RunningOf(s.running, e)|;
      AddRunning(s.running, t, e);
    }
    forall g ensures GroupRun(r, g) == |RunningIn(r.running, g)| {
      assert GroupRun(s, g) == |RunningIn(s.running, g)|;
      AddRunning(s.running, t, EntryId(g, 0));
    }
  }

  lemma RunTaskKeepsExclusion(p: Policy, s: State, t: Task)
    requires WellFormed(p) && Exclusive(p, s) && Free(p, s, EntryOf(t))
    requires t.instance != -1 ==> EntryOf(t) !in s.runTask
    ensures Exclusive(p, RunTask(s, t))
    ensures t.instance == -1 ==> Free(p, RunTask(s, t), EntryOf(t))
  {
    var r, x := RunTask(s, t), EntryOf(t);
    EntryRulesSymmetric(p);
    assert forall e {:trigger EntryRun(r, e)} :: e != x ==> EntryRun(r, e) == EntryRun(s, e);
    assert forall g {:trigger GroupRun(r, g)} :: g != t.group ==> GroupRun(r, g) == GroupRun(s, g);
    forall g, h {:trigger h in GroupRules(p, g)} | h in GroupRules(p, g) && g != h
      ensures GroupRun(r, g) == 0 || GroupRun(r, h) == 0
    {
      assert g in GroupRules(p, h);
    }
    forall e, f {:trigger f in EntryRules(p, e)} | f in EntryRules(p, e) && e != f
      ensures EntryRun(r, e) == 0 || EntryRun(r, f) == 0
    {
      assert e in EntryRules(p, f);
    }
  }

  lemma RunTaskKeepsRunTask(s: State, t: Task)
    requires RunTaskOk(s)
    requires t.instance != -1 ==> EntryRun(s, EntryOf(t)) == 0
    ensures t.instance != -1 ==> EntryOf(t) !in s.runTask
    ensures RunTaskOk(RunTask(s, t))
  {
    var r, x := RunTask(s, t), EntryOf(t);
    assert forall e {:trigger EntryRun(r, e)} :: EntryRun(r, e) == EntryRun(s, e) + if e == x then 1 else 0;
  }

  /** Moving the head of a wait queue to the running tasks. */
  function StartHead(s: State, e: EntryId): State
    requires WaitQ(s, e) != [] && EntryOf(WaitQ(s, e)[0]) == e
    requires e.instance != -1 ==> e !in s.runTask && EntryRun(s, e) == 0
  {
    RunTask(PopWaitQ(s, e), WaitQ(s, e)[0])
  }

  lemma QueueTail(w: seq<Task>, e: EntryId, running: set<Task>, last: nat)
    requires QueueOk(w, e, running, last) && w != []
    ensures QueueOk(w[1..], e, running + {w[0]}, last)
  {
    assert forall i {:trigger w[1..][i]} :: 0 <= i < |w[1..]| ==> w[1..][i] == w[i + 1];
  }

  lemma OtherQueue(w: seq<Task>, e: EntryId, running: set<Task>, last: nat, t: Task)
    requires QueueOk(w, e, running, last) && EntryOf(t) != e
    ensures QueueOk(w, e, running + {t}, last)
  {
  }

  lemma StartHeadTasks(s: State, e: EntryId)
    requires TasksOk(s) && WaitQ(s, e) != []
    requires e.instance != -1 ==> e !in s.runTask && EntryRun(s, e) == 0
    ensures TasksOk(StartHead(s, e))
  {
    var r := StartHead(s, e);
    var w, t := WaitQ(s, e), WaitQ(s, e)[0];
    forall f ensures QueueOk(WaitQ(r, f), f, r.running, r.seqno) {
      if f == e {
        QueueTail(w, e, s.running, s.seqno);
      } else {
        OtherQueue(WaitQ(s, f), f, s.running, s.seqno, t);
      }
    }
    StartHeadLive(s, e);
  }

  lemma StartHeadLive(s: State, e: EntryId)
    requires WaitQ(s, e) != [] && EntryOf(WaitQ(s, e)[0]) == e && RunningOk(s) && NamesUnique(s)
    requires 0 < WaitQ(s, e)[0].seqno <= s.seqno && e.group >= 0 && e.instance >= -1
    requires e.instance != -1 ==> e !in s.runTask && EntryRun(s, e) == 0
    ensures RunningOk(StartHead(s, e)) && NamesUnique(StartHead(s, e))
  {
    var r := StartHead(s, e);
    var w := WaitQ(s, e);
    forall u ensures Live(r, u) ==> Live(s, u) {
      assert w == [w[0]] + w[1..];
    }
  }

  lemma PopKeepsRuns(p: Policy, s: State, e: EntryId)
    requires RunsOk(p, s) && WaitQ(s, e) != [] && Free(p, s, e)
    ensures CountsOk(PopWaitQ(s, e)) && RunTaskOk(PopWaitQ(s, e)) && Exclusive(p, PopWaitQ(s, e))
    ensures Free(p, PopWaitQ(s, e), e)
  {
    var r := PopWaitQ(s, e);
    assert forall f {:trigger EntryRun(r, f)} :: EntryRun(r, f) == EntryRun(s, f);
    assert forall g {:trigger GroupRun(r, g)} :: GroupRun(r, g) == GroupRun(s, g);
  }

  lemma StartHeadRuns(p: Policy, s: State, e: EntryId)
    requires RunsOk(p, s) && WaitQ(s, e) != [] && Free(p, s, e)
    ensures e.instance != -1 ==> e !in s.runTask
    ensures RunsOk(p, StartHead(s, e))
    ensures e.instance == -1 ==> Free(p, StartHead(s, e), e)
  {
    var t, s1 := WaitQ(s, e)[0], PopWaitQ(s, e);
    assert EntryOf(t) == e && t !in s.running;
    PopKeepsRuns(p, s, e);
    RunTaskKeepsRunTask(s1, t);
    RunTaskCounts(s1, t);
    RunTaskKeepsExclusion(p, s1, t);
    StartHeadTasks(s, e);
  }

  lemma StartHeadKeeps(p: Policy, s: State, e: EntryId)
    requires Core(p, s) && AllQueuedBut(s, e) && WaitQ(s, e) != [] && Free(p, s, e)
    ensures e.instance != -1 ==> e !in s.runTask
    ensures Core(p, StartHead(s, e)) && AllQueuedBut(StartHead(s, e), e)
    ensures e.instance == -1 ==> Free(p, StartHead(s, e), e)
  {
    StartHeadRuns(p, s, e);
    var r := StartHead(s, e);
    assert forall q {:trigger DeferQ(r, q)} :: DeferQ(r, q) == DeferQ(s, q);
    assert forall f {:trigger WaitQ(r, f)} :: f != e ==> WaitQ(r, f) == WaitQ(s, f);
  }
}
