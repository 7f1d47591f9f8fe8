/** What the walks leave alone: cancellation marks, running tasks, and entries that wait for something else. */
module TaskFrames {
  import opened Options
  import opened TaskPolicy
  import opened TaskState
  import opened TaskInvariant
  import opened TaskSteps
  import opened TaskWalks
  import opened TaskOperations

  /** No running task stops, and no mark is set or lost. */
  ghost predicate Kept(s: State, r: State) {
    s.running <= r.running && r.cancelled == s.cancelled
  }

  /** The entry waits where it waited, with the same tasks. */
  ghost predicate Untouched(s: State, r: State, f: EntryId) {
    && f in s.home && f in r.home && r.home[f] == s.home[f]
    && WaitQ(r, f) == WaitQ(s, f)
  }

  // ---- Releasing one entry ----

  lemma {:induction false} StartAllKept(p: Policy, s: State, e: EntryId)
    requires Core(p, s) && AllQueuedBut(s, e) && Free(p, s, e) && e.instance == -1
    ensures Kept(s, StartAll(p, s, e))
    decreases |WaitQ(s, e)|
  {
    if WaitQ(s, e) != [] {
      StartHeadKeeps(p, s, e);
      StartAllKept(p, StartHead(s, e), e);
    }
  }

  lemma RunWaitQKept(p: Policy, s: State, e: EntryId)
    requires Core(p, s) && AllQueuedBut(s, e) && Free(p, s, e) && WaitQ(s, e) != []
    ensures Kept(s, RunWaitQ(p, s, e))
  {
    if e.instance == -1 {
      StartAllKept(p, s, e);
    } else {
      StartHeadKeeps(p, s, e);
      assert Kept(s, StartHead(s, e));
    }
  }

  lemma VisitKept(p: Policy, s: State, o: Owner, e: EntryId)
    requires Core(p, s) && AllQueued(s) && e in DeferQ(s, o)
    ensures Kept(s, Visit(p, s, o, e))
  {
    DeleteFromDeferQKeeps(p, s, o, e);
    var s1 := DeleteFromDeferQ(s, o, e);
    if BlockedBy(p, s1, e).None? {
      RunnableIsFree(p, s1, e);
      RunWaitQKept(p, s1, e);
    }
  }

  lemma VisitSpares(p: Policy, s: State, o: Owner, e: EntryId, f: EntryId)
    requires Core(p, s) && AllQueued(s) && e in DeferQ(s, o) && f in s.home && f != e
    ensures Untouched(s, Visit(p, s, o, e), f)
  {
    VisitReleases(p, s, o, e);
    assert f in Visit(p, s, o, e).home;
  }

  // ---- The walks ----

  lemma {:induction false} WalkKept(p: Policy, s: State, o: Owner, it: Option<EntryId>)
    requires Core(p, s) && AllQueued(s) && (it.Some? ==> it.value in DeferQ(s, o))
    ensures Kept(s, Walk(p, s, o, it))
    decreases if it.Some? then s.seqno + 1 - Key(s, it.value) else -1
  {
    if it.Some? {
      KeyInRange(p, s, o, it.value);
      var (s1, next) := Advance(p, s, o, it.value);
      VisitKept(p, s, o, it.value);
      WalkKept(p, s1, o, next);
    }
  }

  lemma {:induction false} WalkSpares(p: Policy, s: State, o: Owner, it: Option<EntryId>, f: EntryId)
    requires Core(p, s) && AllQueued(s) && (it.Some? ==> it.value in DeferQ(s, o))
    requires f in s.home && s.home[f] != o
    ensures Untouched(s, Walk(p, s, o, it), f)
    decreases if it.Some? then s.seqno + 1 - Key(s, it.value) else -1
  {
    if it.Some? {
      KeyInRange(p, s, o, it.value);
      var (s1, next) := Advance(p, s, o, it.value);
      VisitSpares(p, s, o, it.value, f);
      WalkSpares(p, s1, o, next, f);
    }
  }

  lemma RunDeferQKept(p: Policy, s: State, o: Owner)
    requires Core(p, s) && AllQueued(s)
    ensures Kept(s, RunDeferQ(p, s, o))
    ensures forall f {:trigger Untouched(s, RunDeferQ(p, s, o), f)} ::
      f in s.home && s.home[f] != o ==> Untouched(s, RunDeferQ(p, s, o), f)
  {
    QueueKeysDistinct(p, s, o);
    var it := Least(s, DeferQ(s, o));
    WalkKept(p, s, o, it);
    forall f | f in s.home && s.home[f] != o ensures Untouched(s, RunDeferQ(p, s, o), f) {
      WalkSpares(p, s, o, it, f);
    }
  }

  lemma {:induction false} WalkBothKept(p: Policy, s: State, g: Owner, git: Option<EntryId>,
                                        q: Owner, qit: Option<EntryId>)
    requires Cursors(p, s, g, git, q, qit)
    ensures Kept(s, WalkBoth(p, s, g, git, q, qit))
    decreases Left(p, s, g, git, q, qit)
  {
    if git.Some? && qit.Some? {
      if Key(s, git.value) < Key(s, qit.value) {
        var (s1, next) := Advance(p, s, g, git.value);
        GroupFirst(p, s, g, git.value, q, qit.value, s1, next);
        VisitKept(p, s, g, git.value);
        WalkBothKept(p, s1, g, next, q, qit);
      } else {
        var (s1, next) := Advance(p, s, q, qit.value);
        EntryFirst(p, s, g, git.value, q, qit.value, s1, next);
        VisitKept(p, s, q, qit.value);
        WalkBothKept(p, s1, g, git, q, next);
      }
    } else if git.Some? {
      RunDeferQKept(p, s, g);
    } else if qit.Some? {
      RunDeferQKept(p, s, q);
    }
  }

  lemma {:induction false} WalkBothSpares(p: Policy, s: State, g: Owner, git: Option<EntryId>,
                                          q: Owner, qit: Option<EntryId>, f: EntryId)
    requires Cursors(p, s, g, git, q, qit) && f in s.home && s.home[f] != g && s.home[f] != q
    ensures Untouched(s, WalkBoth(p, s, g, git, q, qit), f)
    decreases Left(p, s, g, git, q, qit)
  {
    if git.Some? && qit.Some? {
      if Key(s, git.value) < Key(s, qit.value) {
        var (s1, next) := Advance(p, s, g, git.value);
        GroupFirst(p, s, g, git.value, q, qit.value, s1, next);
        VisitSpares(p, s, g, git.value, f);
        WalkBothSpares(p, s1, g, next, q, qit, f);
      } else {
        var (s1, next) := Advance(p, s, q, qit.value);
        EntryFirst(p, s, g, git.value, q, qit.value, s1, next);
        VisitSpares(p, s, q, qit.value, f);
        WalkBothSpares(p, s1, g, git, q, next, f);
      }
    } else if git.Some? {
      RunDeferQKept(p, s, g);
    } else if qit.Some? {
      RunDeferQKept(p, s, q);
    }
  }

  lemma RunCombinedKept(p: Policy, s: State, e: EntryId)
    requires Core(p, s) && AllQueued(s)
    ensures Kept(s, RunCombinedDeferQ(p, s, e))
  {
    var g, q := GroupOwner(e.group), EntryOwner(e);
    QueueKeysDistinct(p, s, g);
    QueueKeysDistinct(p, s, q);
    WalkBothKept(p, s, g, Least(s, DeferQ(s, g)), q, Least(s, DeferQ(s, q)));
  }

  lemma RunCombinedSpares(p: Policy, s: State, e: EntryId, f: EntryId)
    requires Core(p, s) && AllQueued(s)
    requires f in s.home && s.home[f] != GroupOwner(e.group) && s.home[f] != EntryOwner(e)
    ensures Untouched(s, RunCombinedDeferQ(p, s, e), f)
  {
    var g, q := GroupOwner(e.group), EntryOwner(e);
    QueueKeysDistinct(p, s, g);
    QueueKeysDistinct(p, s, q);
    WalkBothSpares(p, s, g, Least(s, DeferQ(s, g)), q, Least(s, DeferQ(s, q)), f);
  }

  // ---- A task exit ----

  /** What can follow the counter updates when a task of entry e exits. */
  ghost predicate WalkOf(p: Policy, s: State, e: EntryId, r: State)
    requires Core(p, s) && AllQueued(s)
  {
    || r == s
    || r == RunDeferQ(p, s, GroupOwner(e.group))
    || r == RunDeferQ(p, s, EntryOwner(e))
    || r == RunCombinedDeferQ(p, s, e)
  }

  lemma WalkOfKept(p: Policy, s: State, e: EntryId, r: State)
    requires Core(p, s) && AllQueued(s) && WalkOf(p, s, e, r)
    ensures Kept(s, r)
  {
    RunDeferQKept(p, s, GroupOwner(e.group));
    RunDeferQKept(p, s, EntryOwner(e));
    RunCombinedKept(p, s, e);
  }

  lemma WalkOfSpares(p: Policy, s: State, e: EntryId, r: State, f: EntryId)
    requires Core(p, s) && AllQueued(s) && WalkOf(p, s, e, r)
    requires f in s.home && s.home[f] != GroupOwner(e.group) && s.home[f] != EntryOwner(e)
    ensures Untouched(s, r, f)
  {
    RunDeferQKept(p, s, GroupOwner(e.group));
    RunDeferQKept(p, s, EntryOwner(e));
    RunCombinedSpares(p, s, e, f);
  }

  lemma ExitedIsWalk(p: Policy, s: State, t: Task) returns (s1: State)
    requires Inv(p, s) && t in s.running
    ensures s1 == s.(runTask := s1.runTask, entryRun := s1.entryRun, groupRun := s1.groupRun,
                     running := s.running - {t}, cancelled := s.cancelled - {t})
    ensures Core(p, s1) && AllQueued(s1) && WalkOf(p, s1, EntryOf(t), TaskExited(p, s, t))
  {
    RetireKeeps(p, s, t);
    s1 := Retire(s, t);
  }

  /** When a task exits, the others run on and keep their marks. */
  lemma ExitedKept(p: Policy, s: State, t: Task)
    requires Inv(p, s) && t in s.running
    ensures var r := TaskExited(p, s, t);
      s.running - {t} <= r.running && r.cancelled == s.cancelled - {t}
  {
    var s1 := ExitedIsWalk(p, s, t);
    WalkOfKept(p, s1, EntryOf(t), TaskExited(p, s, t));
  }

  /** An exit wakes only what waited for the task's group or entry. */
  lemma ExitedSpares(p: Policy, s: State, t: Task, f: EntryId)
    requires Inv(p, s) && t in s.running
    requires f in s.home && s.home[f] != GroupOwner(t.group) && s.home[f] != EntryOwner(EntryOf(t))
    ensures Untouched(s, TaskExited(p, s, t), f)
  {
    var s1 := ExitedIsWalk(p, s, t);
    WalkOfSpares(p, s1, EntryOf(t), TaskExited(p, s, t), f);
    assert WaitQ(s1, f) == WaitQ(s, f);
  }
}
