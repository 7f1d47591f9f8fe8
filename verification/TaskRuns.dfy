/** Whole runs of the task scheduler. */
module TaskRuns {
  import opened TaskPolicy
  import opened TaskState
  import opened TaskInvariant
  import opened TaskOperations

  datatype Op =
    | EnqueueOp(group: int, instance: int)
    | CancelOp(task: Task)
    | ExitOp(task: Task, recycle: bool)
    | StopOp
    | StartOp

  /** Only a running task exits. */
  predicate Enabled(s: State, op: Op) {
    match op
    case EnqueueOp(group, instance) => group >= 0 && instance >= -1
    case ExitOp(t, _) => t in s.running
    case _ => true
  }

  function Step(p: Policy, s: State, op: Op): (r: State)
    requires Inv(p, s) && Enabled(s, op)
    ensures Inv(p, r)
  {
    match op
    case EnqueueOp(group, instance) => Enqueue(p, s, group, instance)
    case CancelOp(t) => Cancel(p, s, t).0
    case ExitOp(t, recycle) => Exit(p, s, t, recycle)
    case StopOp => Stop(p, s)
    case StartOp => Start(p, s)
  }

  /** The state after a sequence of operations; an operation that is not enabled does not happen. */
  function Run(p: Policy, ops: seq<Op>): (s: State)
    requires WellFormed(p)
    ensures Inv(p, s)
  {
    if ops == [] then
      InitInv(p);
      INIT
    else
      var s := Run(p, ops[..|ops| - 1]);
      var op := ops[|ops| - 1];
      if Enabled(s, op) then Step(p, s, op) else s
  }

  lemma RunOneMore(p: Policy, ops: seq<Op>, op: Op)
    requires WellFormed(p)
    ensures Run(p, ops + [op]) == if Enabled(Run(p, ops), op) then Step(p, Run(p, ops), op) else Run(p, ops)
  {
    assert (ops + [op])[..|ops|] == ops;
  }

  lemma LastOne(ops: seq<Op>, after: seq<Op>)
    requires after != []
    ensures ops + after == (ops + after[..|after| - 1]) + [after[|after| - 1]]
  {
  }

  lemma InitInv(p: Policy)
    requires WellFormed(p)
    ensures Inv(p, INIT)
  {
    EmptyInv(p, INIT);
  }

  lemma EmptyInv(p: Policy, s: State)
    requires WellFormed(p)
    requires s.waitq == map[] && s.entryRun == map[] && s.groupRun == map[] && s.runTask == map[]
    requires s.deferq == map[] && s.home == map[] && s.running == {} && s.cancelled == {}
    ensures Inv(p, s)
  {
    assert forall e {:trigger WaitQ(s, e)} :: WaitQ(s, e) == [];
    forall e ensures EntryRun(s, e) == |RunningOf(s.running, e)| { assert RunningOf(s.running, e) == {}; }
    forall g ensures GroupRun(s, g) == |RunningIn(s.running, g)| { assert RunningIn(s.running, g) == {}; }
    assert forall e {:trigger EntryRun(s, e)} :: EntryRun(s, e) == 0;
    assert forall o {:trigger DeferQ(s, o)} :: DeferQ(s, o) == {};
  }

  // ---- No lost tasks ----

  /**
   * In every reachable state an entry with waiting tasks is in exactly one defer queue, and what it waits for
   * will end: the owner of the queue runs, or the scheduler is stopped and Start will walk the queue.
   */
  lemma NoLostTasks(p: Policy, ops: seq<Op>, e: EntryId)
    requires WellFormed(p) && WaitQ(Run(p, ops), e) != []
    ensures var s := Run(p, ops);
      && e in s.home && e in DeferQ(s, s.home[e])
      && (forall o :: e in DeferQ(s, o) ==> o == s.home[e])
      && (OwnerRuns(s, s.home[e]) || (s.home[e] == EntryOwner(STOP) && !s.on))
  {
    var s := Run(p, ops);
    assert e in s.home;
    assert Waking(s, s.home[e]);
  }

  lemma WaitingHasRunner(p: Policy, s: State, e: EntryId)
    requires Inv(p, s) && s.on && WaitQ(s, e) != []
    ensures s.running != {}
  {
    WaitsBehindRule(p, s, e);
    OwnerHasTask(p, s, s.home[e]);
  }

  /** A started scheduler in which nothing runs has nothing waiting. */
  lemma IdleIsEmpty(p: Policy, s: State)
    requires Inv(p, s) && s.on && s.running == {}
    ensures forall t :: !Live(s, t)
  {
    forall t ensures !Live(s, t) {
      if WaitQ(s, EntryOf(t)) != [] { WaitingHasRunner(p, s, EntryOf(t)); }
    }
  }

  // ---- Mutual exclusion ----

  /**
   * In every reachable state two running tasks of different groups, or of different entries, are not related
   * by a rule, and a numbered instance runs one task at most.
   */
  lemma MutualExclusion(p: Policy, ops: seq<Op>, t: Task, u: Task)
    requires WellFormed(p) && t in Run(p, ops).running && u in Run(p, ops).running
    ensures t.group != u.group ==> u.group !in GroupRules(p, t.group)
    ensures EntryOf(t) != EntryOf(u) ==> EntryOf(u) !in EntryRules(p, EntryOf(t))
    ensures EntryOf(t) == EntryOf(u) && t.instance != -1 ==> t == u
  {
    var s := Run(p, ops);
    RunningCounts(p, s, t);
    RunningCounts(p, s, u);
    if EntryOf(t) == EntryOf(u) && t.instance != -1 {
      OnlyOne(RunningOf(s.running, EntryOf(t)), t, u);
    }
  }

  /** A run of a scheduler whose policies were set by these calls. */
  function RunConfigured(calls: seq<(int, seq<Rule>)>, ops: seq<Op>): (s: State)
    requires ValidCalls(calls)
    ensures Inv(Configure(calls), s)
  {
    ConfigureWellFormed(calls);
    Run(Configure(calls), ops)
  }

  /**
   * The same in terms of the calls of SetPolicy: whatever is configured and whatever happens, a task of the
   * task id given a rule and a task the rule names do not run together, except that a task id is not kept
   * apart from itself, nor an entry.
   */
  lemma ConfiguredExclusion(calls: seq<(int, seq<Rule>)>, ops: seq<Op>, c: (int, seq<Rule>), rule: Rule,
                            t: Task, u: Task)
    requires ValidCalls(calls) && c in calls && rule in c.1
    requires t in RunConfigured(calls, ops).running && u in RunConfigured(calls, ops).running
    ensures !(t.group != u.group && NamesGroups(c.0, rule, t.group, u.group))
    ensures !(EntryOf(t) != EntryOf(u) && NamesEntries(c.0, rule, EntryOf(t), EntryOf(u)))
  {
    ConfigureWellFormed(calls);
    MutualExclusion(Configure(calls), ops, t, u);
    if NamesGroups(c.0, rule, t.group, u.group) {
      assert GroupsIn(c.0, c.1, t.group, u.group);
      ConfigureGroups(calls, t.group, u.group);
    }
    if NamesEntries(c.0, rule, EntryOf(t), EntryOf(u)) {
      assert EntriesIn(c.0, c.1, EntryOf(t), EntryOf(u));
      ConfigureEntries(calls, EntryOf(t), EntryOf(u));
    }
  }

  /** The configured policy keeps a task of entry e from starting while u runs, or their entry does. */
  predicate Excludes(calls: seq<(int, seq<Rule>)>, e: EntryId, u: Task) {
    || GroupsRuled(calls, e.group, u.group)
    || EntriesRuled(calls, e, EntryOf(u))
    || (e.instance != -1 && EntryOf(u) == e)
  }

  /** In a started scheduler a task waits only because something that it was configured to exclude runs. */
  lemma WaitsForRule(calls: seq<(int, seq<Rule>)>, ops: seq<Op>, e: EntryId)
    requires ValidCalls(calls)
    requires RunConfigured(calls, ops).on && WaitQ(RunConfigured(calls, ops), e) != []
    ensures exists u :: u in RunConfigured(calls, ops).running && Excludes(calls, e, u)
  {
    var p := Configure(calls);
    ConfigureWellFormed(calls);
    var s := Run(p, ops);
    WaitsBehindRule(p, s, e);
    OwnerHasTask(p, s, s.home[e]);
    var u :| u in s.running && OwnedBy(s.home[e], u);
    RuleIsConfigured(calls, s.home[e], e, u);
  }

  lemma RuleIsConfigured(calls: seq<(int, seq<Rule>)>, o: Owner, e: EntryId, u: Task)
    requires RuleFor(Configure(calls), o, e) && OwnedBy(o, u)
    ensures Excludes(calls, e, u)
  {
    ConfigureGroups(calls, e.group, u.group);
    ConfigureEntries(calls, e, EntryOf(u));
  }

  lemma WaitsBehindRule(p: Policy, s: State, e: EntryId)
    requires Inv(p, s) && s.on && WaitQ(s, e) != []
    ensures e in s.home && OwnerRuns(s, s.home[e]) && RuleFor(p, s.home[e], e)
  {
    StopNeverRuns(p, s);
    assert e in s.home;
    assert Waking(s, s.home[e]);
  }

  predicate OwnedBy(o: Owner, u: Task) {
    match o
    case GroupOwner(g) => u.group == g
    case EntryOwner(f) => EntryOf(u) == f
  }

  lemma OwnerHasTask(p: Policy, s: State, o: Owner)
    requires Inv(p, s) && OwnerRuns(s, o)
    ensures exists u :: u in s.running && OwnedBy(o, u)
  {
    match o
    case GroupOwner(g) =>
      assert GroupRun(s, g) == |RunningIn(s.running, g)|;
      var u :| u in RunningIn(s.running, g);
      assert OwnedBy(o, u);
    case EntryOwner(f) =>
      assert EntryRun(s, f) == |RunningOf(s.running, f)|;
      var u :| u in RunningOf(s.running, f);
      assert OwnedBy(o, u);
  }

  /** Nothing runs in the entry that stands for the stopped scheduler. */
  lemma StopNeverRuns(p: Policy, s: State)
    requires Inv(p, s)
    ensures EntryRun(s, STOP) == 0
  {
    assert RunningOf(s.running, STOP) == {};
    assert EntryRun(s, STOP) == |RunningOf(s.running, STOP)|;
  }

  lemma RunningCounts(p: Policy, s: State, t: Task)
    requires Inv(p, s) && t in s.running
    ensures GroupRun(s, t.group) > 0 && EntryRun(s, EntryOf(t)) > 0
    ensures t.instance != -1 ==> |RunningOf(s.running, EntryOf(t))| == 1
    ensures t in RunningOf(s.running, EntryOf(t))
  {
    assert t in RunningOf(s.running, EntryOf(t)) && t in RunningIn(s.running, t.group);
    assert EntryRun(s, EntryOf(t)) == |RunningOf(s.running, EntryOf(t))|;
    assert GroupRun(s, t.group) == |RunningIn(s.running, t.group)|;
  }

  ghost function SumRuns(s: State, es: set<EntryId>): nat {
    if es == {} then 0 else var e :| e in es; EntryRun(s, e) + SumRuns(s, es - {e})
  }

  lemma {:induction false} SumCountsTasks(s: State, es: set<EntryId>)
    requires CountsOk(s)
    ensures SumRuns(s, es) == |set t | t in s.running && EntryOf(t) in es|
  {
    var all := set t | t in s.running && EntryOf(t) in es;
    if es == {} {
      assert all == {};
    } else {
      var e :| e in es && SumRuns(s, es) == EntryRun(s, e) + SumRuns(s, es - {e});
      SumCountsTasks(s, es - {e});
      var rest := set t | t in s.running && EntryOf(t) in es - {e};
      assert all == RunningOf(s.running, e) + rest;
      assert RunningOf(s.running, e) !! rest;
      assert EntryRun(s, e) == |RunningOf(s.running, e)|;
    }
  }

  /** The run count of a group is the sum of the run counts of its entries. */
  lemma GroupCountIsSum(p: Policy, ops: seq<Op>, g: int, es: set<EntryId>)
    requires WellFormed(p)
    requires forall e {:trigger e in es} :: e in es ==> e.group == g
    requires forall t {:trigger t in Run(p, ops).running} :: t in Run(p, ops).running && t.group == g ==>
      EntryOf(t) in es
    ensures GroupRun(Run(p, ops), g) == SumRuns(Run(p, ops), es)
  {
    var s := Run(p, ops);
    SumCountsTasks(s, es);
    assert (set t | t in s.running && EntryOf(t) in es) == RunningIn(s.running, g);
    assert GroupRun(s, g) == |RunningIn(s.running, g)|;
  }
}
