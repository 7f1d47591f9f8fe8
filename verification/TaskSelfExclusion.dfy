/** A group that excludes itself: what the scheduler then does, and exactly when exclusion is complete. */
module TaskSelfExclusion {
  import opened Options
  import opened TaskPolicy
  import opened TaskState
  import opened TaskInvariant
  import opened TaskSteps
  import opened TaskWalks
  import opened TaskOperations
  import opened TaskRuns

  lemma RunAppend(p: Policy, ops: seq<Op>, op: Op)
    requires WellFormed(p) && Enabled(Run(p, ops), op)
    ensures Run(p, ops + [op]) == Step(p, Run(p, ops), op)
  {
    assert (ops + [op])[..|ops|] == ops;
  }

  /** Only entry e has tasks: it runs one and has the others deferred on its own group. */
  ghost predicate Alone(s: State, e: EntryId, w: seq<Task>) {
    && s.on && s.running == {Task(e.group, e.instance, 1)}
    && WaitQ(s, e) == w && s.home == (if w == [] then map[] else map[e := GroupOwner(e.group)])
    && (forall f :: f != e ==> WaitQ(s, f) == [])
  }

  lemma AloneCounts(p: Policy, s: State, e: EntryId, w: seq<Task>)
    requires Inv(p, s) && Alone(s, e, w)
    ensures forall g {:trigger GroupRun(s, g)} :: GroupRun(s, g) > 0 <==> g == e.group
    ensures forall f {:trigger EntryRun(s, f)} :: EntryRun(s, f) > 0 <==> f == e
  {
    var t := Task(e.group, e.instance, 1);
    forall g ensures GroupRun(s, g) > 0 <==> g == e.group {
      assert GroupRun(s, g) == |RunningIn(s.running, g)|;
      assert RunningIn(s.running, g) == if g == e.group then {t} else {};
    }
    forall f ensures EntryRun(s, f) > 0 <==> f == e {
      assert EntryRun(s, f) == |RunningOf(s.running, f)|;
      assert RunningOf(s.running, f) == if f == e then {t} else {};
    }
  }

  lemma FirstRuns(p: Policy, s: State, g: int)
    requires Inv(p, s) && g >= 0 && s.on && s.seqno == 0 && s.running == {} && s.home == map[]
    requires forall f :: WaitQ(s, f) == []
    ensures var r := Enqueue(p, s, g, -1);
      Alone(r, EntryId(g, -1), []) && r.seqno == 1
  {
    EmptyRuns(s);
    var s0, e := s.(seqno := 1), EntryId(g, -1);
    SameRunnable(p, s, s0, e);
    assert Runnable(p, s, e);
    assert BlockedBy(p, s0, e).None?;
    assert WaitQ(s0, e) == WaitQ(s, e);
    var r := Enqueue(p, s, g, -1);
    assert r.waitq == s.waitq;
    assert forall f {:trigger WaitQ(r, f)} :: WaitQ(r, f) == WaitQ(s, f);
  }

  lemma SecondWaits(p: Policy, s: State, g: int)
    requires Inv(p, s) && g >= 0 && g in GroupRules(p, g) && s.seqno == 1
    requires Alone(s, EntryId(g, -1), [])
    ensures var r := Enqueue(p, s, g, -1);
      Alone(r, EntryId(g, -1), [Task(g, -1, 2)]) && r.seqno == 2
  {
    var e := EntryId(g, -1);
    AloneCounts(p, s, e, []);
    var s0, t := s.(seqno := 2), Task(g, -1, 2);
    assert forall f {:trigger EntryRun(s0, f)} :: EntryRun(s0, f) == EntryRun(s, f);
    assert forall h {:trigger GroupRun(s0, h)} :: GroupRun(s0, h) == GroupRun(s, h);
    OwnGroupBlocks(p, s0, e);
    NumberKeeps(p, s, s0, t);
    EnqueueIsPlace(p, s, s0, t);
    assert WaitQ(s0, e) == WaitQ(s, e);
    var r := Defer(p, s0, t, GroupOwner(g));
    assert Enqueue(p, s, g, -1) == r;
    assert r.home == map[e := GroupOwner(g)] && WaitQ(r, e) == [t];
    assert forall f {:trigger WaitQ(r, f)} :: f != e ==> WaitQ(r, f) == WaitQ(s, f);
  }

  lemma OwnGroupBlocks(p: Policy, s: State, e: EntryId)
    requires WellFormed(p) && e.group in GroupRules(p, e.group) && e.instance == -1
    requires forall g {:trigger GroupRun(s, g)} :: GroupRun(s, g) > 0 <==> g == e.group
    requires forall f {:trigger EntryRun(s, f)} :: EntryRun(s, f) > 0 <==> f == e
    ensures BlockedBy(p, s, e) == Some(GroupOwner(e.group))
  {
    EntryRulesSymmetric(p);
    assert GroupRun(s, e.group) > 0;
  }

  lemma ThirdWaits(p: Policy, s: State, g: int)
    requires Inv(p, s) && g >= 0 && s.seqno == 2
    requires Alone(s, EntryId(g, -1), [Task(g, -1, 2)])
    ensures var r := Enqueue(p, s, g, -1);
      Alone(r, EntryId(g, -1), [Task(g, -1, 2), Task(g, -1, 3)]) && r.seqno == 3
  {
    var s0 := s.(seqno := 3);
    assert WaitQ(s0, EntryId(g, -1)) == [Task(g, -1, 2)];
  }

  lemma AloneRetires(p: Policy, s: State, g: int, w: seq<Task>)
    requires Inv(p, s) && g >= 0 && w != [] && Alone(s, EntryId(g, -1), w)
    ensures var t, e := Task(g, -1, 1), EntryId(g, -1);
      && t in s.running && EntryRun(s, e) > 0 && GroupRun(s, g) > 0
      && var r := Retire(s, t);
      && Core(p, r) && AllQueued(r) && r.running == {} && WaitQ(r, e) == w
      && DeferQ(r, GroupOwner(g)) == {e} && DeferQ(r, EntryOwner(e)) == {}
  {
    var t, e := Task(g, -1, 1), EntryId(g, -1);
    RetireKeeps(p, s, t);
    var r := Retire(s, t);
    assert e in r.home && e in DeferQ(r, GroupOwner(g));
  }

  lemma WalkOnlyOne(p: Policy, s: State, e: EntryId)
    requires Core(p, s) && AllQueued(s)
    requires DeferQ(s, GroupOwner(e.group)) == {e} && DeferQ(s, EntryOwner(e)) == {}
    ensures RunCombinedDeferQ(p, s, e) == Visit(p, s, GroupOwner(e.group), e)
  {
    var o := GroupOwner(e.group);
    QueueKeysDistinct(p, s, o);
    assert Least(s, DeferQ(s, o)) == Some(e);
    KeyInRange(p, s, o, e);
    var (r, next) := Advance(p, s, o, e);
    assert next == None;
    assert Walk(p, r, o, next) == r;
    assert RunDeferQ(p, s, o) == r;
  }

  /** When the running task exits, the one policy check lets the whole queue of the wildcard entry run. */
  lemma AllOthersRun(p: Policy, s: State, g: int)
    requires Inv(p, s) && g >= 0
    requires Alone(s, EntryId(g, -1), [Task(g, -1, 2), Task(g, -1, 3)])
    ensures Task(g, -1, 1) in s.running
    ensures var r := Exit(p, s, Task(g, -1, 1), false);
      Task(g, -1, 2) in r.running && Task(g, -1, 3) in r.running
  {
    var e, t := EntryId(g, -1), Task(g, -1, 1);
    var w := [Task(g, -1, 2), Task(g, -1, 3)];
    AloneRetires(p, s, g, w);
    var s1 := Retire(s, t);
    EmptyRuns(s1);
    WalkOnlyOne(p, s1, e);
    var r := Visit(p, s1, GroupOwner(g), e);
    assert TaskExited(p, s, t) == r;
    EmptiesQueue(p, s1, GroupOwner(g), e, w[0]);
    EmptiesQueue(p, s1, GroupOwner(g), e, w[1]);
  }

  lemma EmptiesQueue(p: Policy, s: State, o: Owner, e: EntryId, t: Task)
    requires Core(p, s) && AllQueued(s) && e in DeferQ(s, o) && e.instance == -1 && Runnable(p, s, e)
    requires t in WaitQ(s, e) && EntryOf(t) == e
    ensures t in Visit(p, s, o, e).running
  {
    VisitWildcard(p, s, o, e);
    assert Live(s, t);
    assert Live(Visit(p, s, o, e), t);
  }

  lemma EmptyRuns(s: State)
    requires CountsOk(s) && s.running == {}
    ensures forall f {:trigger EntryRun(s, f)} :: EntryRun(s, f) == 0
    ensures forall h {:trigger GroupRun(s, h)} :: GroupRun(s, h) == 0
  {
    forall f ensures EntryRun(s, f) == 0 {
      assert RunningOf(s.running, f) == {};
      assert EntryRun(s, f) == |RunningOf(s.running, f)|;
    }
    forall h ensures GroupRun(s, h) == 0 {
      assert RunningIn(s.running, h) == {};
      assert GroupRun(s, h) == |RunningIn(s.running, h)|;
    }
  }

  /** Visiting a runnable wildcard entry empties its queue without losing a task. */
  lemma VisitWildcard(p: Policy, s: State, o: Owner, e: EntryId)
    requires Core(p, s) && AllQueued(s) && e in DeferQ(s, o) && e.instance == -1 && Runnable(p, s, e)
    ensures WaitQ(Visit(p, s, o, e), e) == [] && SameLive(s, Visit(p, s, o, e))
  {
    VisitReleases(p, s, o, e);
    var r := Visit(p, s, o, e);
    EntryRulesSymmetric(p);
    assert e in r.home ==> r.home[e] == EntryOwner(e) && RuleFor(p, r.home[e], e);
    StopIsIdle(s);
    assert WaitQ(s, e) != [];
  }

  lemma Extend(p: Policy, ops: seq<Op>, op: Op) returns (more: seq<Op>)
    requires WellFormed(p) && Enabled(Run(p, ops), op)
    ensures Run(p, more) == Step(p, Run(p, ops), op)
  {
    more := ops + [op];
    RunAppend(p, ops, op);
  }

  /** A run in which two tasks of a group that excludes itself run at once: three enqueues and one exit. */
  lemma SelfExclusionFails(p: Policy, g: int) returns (ops: seq<Op>)
    requires WellFormed(p) && g >= 0 && g in GroupRules(p, g)
    ensures Task(g, -1, 2) in Run(p, ops).running && Task(g, -1, 3) in Run(p, ops).running
  {
    var none: seq<Op> := [];
    var op := EnqueueOp(g, -1);
    FirstRuns(p, Run(p, none), g);
    var one := Extend(p, none, op);
    SecondWaits(p, Run(p, one), g);
    var two := Extend(p, one, op);
    ThirdWaits(p, Run(p, two), g);
    var three := Extend(p, two, op);
    AllOthersRun(p, Run(p, three), g);
    ops := Extend(p, three, ExitOp(Task(g, -1, 1), false));
  }

  /** No two running tasks, not even of one group, are related by a group rule. */
  ghost predicate Excludes(p: Policy, ops: seq<Op>)
    requires WellFormed(p)
  {
    forall t, u {:trigger t in Run(p, ops).running, u in Run(p, ops).running} ::
      t in Run(p, ops).running && u in Run(p, ops).running && t != u ==> u.group !in GroupRules(p, t.group)
  }

  /** Group exclusion holds in all runs if and only if no group has a rule that names itself. */
  lemma ExclusionIffNoSelfRule(p: Policy)
    requires WellFormed(p)
    ensures (forall ops :: Excludes(p, ops)) <==> (forall g :: g >= 0 ==> g !in GroupRules(p, g))
  {
    if exists g :: g >= 0 && g in GroupRules(p, g) {
      var g :| g >= 0 && g in GroupRules(p, g);
      var ops := SelfExclusionFails(p, g);
      assert !Excludes(p, ops);
    } else {
      forall ops ensures Excludes(p, ops) {
        forall t, u | t in Run(p, ops).running && u in Run(p, ops).running && t != u
          ensures u.group !in GroupRules(p, t.group)
        {
          MutualExclusion(p, ops, t, u);
          assert t.group >= 0;
        }
      }
    }
  }
}
