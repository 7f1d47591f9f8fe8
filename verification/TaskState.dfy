/** State of the task scheduler and the elementary updates that its operations are made of. */
module TaskState {
  import opened Options
  import opened TaskPolicy

  /** An enqueued task. The sequence number is fresh for every enqueue and names the task. */
  datatype Task = Task(group: int, instance: int, seqno: nat)

  /** Who keeps a deferred entry: a group's deferq_ or an entry's deferq_. */
  datatype Owner = GroupOwner(g: int) | EntryOwner(e: EntryId)

  /**
   * on is the scheduler's running_ flag. home holds deferq_task_group_ and deferq_task_entry_ of an entry,
   * which are never both set. deferq holds the intrusive sets, whose iteration order is that of Key.
   * running holds the tasks handed to the thread pool, and started lists the batches in which they were
   * handed over.
   */
  datatype State = State(
    on: bool,
    seqno: nat,
    waitq: map<EntryId, seq<Task>>,
    entryRun: map<EntryId, nat>,
    groupRun: map<int, nat>,
    runTask: map<EntryId, Task>,
    deferq: map<Owner, set<EntryId>>,
    home: map<EntryId, Owner>,
    running: set<Task>,
    cancelled: set<Task>,
    started: seq<seq<Task>>)

  const INIT: State := State(true, 0, map[], map[], map[], map[], map[], map[], {}, {}, [])

  function EntryOf(t: Task): EntryId { EntryId(t.group, t.instance) }

  function WaitQ(s: State, e: EntryId): seq<Task> {
    if e in s.waitq then s.waitq[e] else []
  }

  function EntryRun(s: State, e: EntryId): nat {
    if e in s.entryRun then s.entryRun[e] else 0
  }

  function GroupRun(s: State, g: int): nat {
    if g in s.groupRun then s.groupRun[g] else 0
  }

  function DeferQ(s: State, o: Owner): set<EntryId> {
    if o in s.deferq then s.deferq[o] else {}
  }

  /** GetTaskDeferEntrySeqno: the number by which the defer queues are ordered. */
  function Key(s: State, e: EntryId): nat {
    if WaitQ(s, e) != [] then WaitQ(s, e)[0].seqno else 0
  }

  predicate OwnerRuns(s: State, o: Owner) {
    match o
    case GroupOwner(g) => GroupRun(s, g) > 0
    case EntryOwner(e) => EntryRun(s, e) > 0
  }

  // ---- Elementary updates; a requires clause is an assert of the source or a demand of its containers ----

  function AddToWaitQ(s: State, t: Task): State {
    var e := EntryOf(t);
    s.(waitq := s.waitq[e := WaitQ(s, e) + [t]])
  }

  function PopWaitQ(s: State, e: EntryId): State
    requires WaitQ(s, e) != []
  {
    s.(waitq := s.waitq[e := WaitQ(s, e)[1..]])
  }

  /** Insertion asserts that the entry is in no queue; equal keys would make it a no-op. */
  function AddToDeferQ(s: State, o: Owner, e: EntryId): State
    requires e !in s.home
    requires forall f :: f in DeferQ(s, o) ==> Key(s, f) != Key(s, e)
  {
    s.(deferq := s.deferq[o := DeferQ(s, o) + {e}], home := s.home[e := o])
  }

  function DeleteFromDeferQ(s: State, o: Owner, e: EntryId): State
    requires e in s.home && s.home[e] == o && e in DeferQ(s, o)
  {
    s.(deferq := s.deferq[o := DeferQ(s, o) - {e}], home := s.home - {e})
  }

  /** RunTask: a numbered instance must not be running already. */
  function RunTask(s: State, t: Task): State
    requires t.instance != -1 ==> EntryOf(t) !in s.runTask && EntryRun(s, EntryOf(t)) == 0
  {
    var e := EntryOf(t);
    s.(runTask := if t.instance != -1 then s.runTask[e := t] else s.runTask,
       entryRun := s.entryRun[e := EntryRun(s, e) + 1],
       groupRun := s.groupRun[t.group := GroupRun(s, t.group) + 1],
       running := s.running + {t})
  }

  /** The counter updates at the start of TaskExited. */
  function Retire(s: State, t: Task): State
    requires EntryRun(s, EntryOf(t)) > 0 && GroupRun(s, t.group) > 0
    requires t.instance != -1 ==>
      EntryRun(s, EntryOf(t)) == 1 && EntryOf(t) in s.runTask && s.runTask[EntryOf(t)] == t
  {
    var e := EntryOf(t);
    s.(runTask := if t.instance != -1 then s.runTask - {e} else s.runTask,
       entryRun := s.entryRun[e := EntryRun(s, e) - 1],
       groupRun := s.groupRun[t.group := GroupRun(s, t.group) - 1],
       running := s.running - {t},
       cancelled := s.cancelled - {t})
  }

  // ---- Policy checks ----

  /** ActiveGroupInPolicy: the first running group in a rule list. */
  function FirstActiveGroup(s: State, gs: seq<int>): (r: Option<int>)
    ensures r.None? <==> forall g :: g in gs ==> GroupRun(s, g) == 0
    ensures r.Some? ==> r.value in gs && GroupRun(s, r.value) > 0
  {
    if gs == [] then None
    else if GroupRun(s, gs[0]) != 0 then Some(gs[0])
    else FirstActiveGroup(s, gs[1..])
  }

  /** ActiveEntryInPolicy: the first running entry in a rule list. */
  function FirstActiveEntry(s: State, es: seq<EntryId>): (r: Option<EntryId>)
    ensures r.None? <==> forall e :: e in es ==> EntryRun(s, e) == 0
    ensures r.Some? ==> r.value in es && EntryRun(s, r.value) > 0
  {
    if es == [] then None
    else if EntryRun(s, es[0]) != 0 then Some(es[0])
    else FirstActiveEntry(s, es[1..])
  }

  /** The rule that decides is the first one that names something running. */
  lemma {:induction false} FirstGroupIsFirst(s: State, gs: seq<int>, i: nat)
    requires i < |gs| && GroupRun(s, gs[i]) > 0 && forall j {:trigger gs[j]} :: 0 <= j < i ==> GroupRun(s, gs[j]) == 0
    ensures FirstActiveGroup(s, gs) == Some(gs[i])
    decreases i
  {
    if i > 0 {
      assert GroupRun(s, gs[0]) == 0;
      assert forall j {:trigger gs[1..][j]} :: 0 <= j < i - 1 ==> gs[1..][j] == gs[j + 1];
      FirstGroupIsFirst(s, gs[1..], i - 1);
    }
  }

  lemma {:induction false} FirstEntryIsFirst(s: State, es: seq<EntryId>, i: nat)
    requires i < |es| && EntryRun(s, es[i]) > 0 && forall j {:trigger es[j]} :: 0 <= j < i ==> EntryRun(s, es[j]) == 0
    ensures FirstActiveEntry(s, es) == Some(es[i])
    decreases i
  {
    if i > 0 {
      assert EntryRun(s, es[0]) == 0;
      assert forall j {:trigger es[1..][j]} :: 0 <= j < i - 1 ==> es[1..][j] == es[j + 1];
      FirstEntryIsFirst(s, es[1..], i - 1);
    }
  }

  /** Nothing that the policies relate to the entry is running. */
  ghost predicate Runnable(p: Policy, s: State, e: EntryId) {
    && (forall g :: g in GroupRules(p, e.group) ==> GroupRun(s, g) == 0)
    && (forall f :: f in EntryRules(p, e) ==> EntryRun(s, f) == 0)
  }

  predicate RuleFor(p: Policy, o: Owner, e: EntryId) {
    match o
    case GroupOwner(g) => g in GroupRules(p, e.group)
    case EntryOwner(f) => f in EntryRules(p, e)
  }

  /** Where the two DeferOnPolicyFail checks put an entry: groups are consulted before entries. */
  function BlockedBy(p: Policy, s: State, e: EntryId): (r: Option<Owner>)
    ensures r.None? <==> Runnable(p, s, e)
    ensures r.Some? ==> RuleFor(p, r.value, e) && OwnerRuns(s, r.value)
    ensures r.Some? && r.value.EntryOwner? ==> forall g :: g in GroupRules(p, e.group) ==> GroupRun(s, g) == 0
  {
    var g := FirstActiveGroup(s, GroupRules(p, e.group));
    if g.Some? then Some(GroupOwner(g.value))
    else
      var f := FirstActiveEntry(s, EntryRules(p, e));
      if f.Some? then Some(EntryOwner(f.value)) else None
  }

  // ---- The order in which a defer queue is walked ----

  predicate DistinctKeys(s: State, q: set<EntryId>) {
    forall e, f :: e in q && f in q && Key(s, e) == Key(s, f) ==> e == f
  }

  lemma {:induction false} LeastExists(s: State, q: set<EntryId>)
    requires q != {}
    ensures exists e :: e in q && forall f :: f in q ==> Key(s, e) <= Key(s, f)
  {
    var e :| e in q;
    if q == {e} {
      assert forall f :: f in q ==> Key(s, e) <= Key(s, f);
    } else {
      LeastExists(s, q - {e});
      var m :| m in q - {e} && forall f :: f in q - {e} ==> Key(s, m) <= Key(s, f);
      var r := if Key(s, e) <= Key(s, m) then e else m;
      assert forall f :: f in q ==> f == e || f in q - {e};
      assert r in q && forall f :: f in q ==> Key(s, r) <= Key(s, f);
    }
  }

  /** begin() of a set ordered by Key; None is end(). */
  function Least(s: State, q: set<EntryId>): (r: Option<EntryId>)
    requires DistinctKeys(s, q)
    ensures r.None? <==> q == {}
    ensures r.Some? ==> r.value in q && forall f :: f in q ==> Key(s, r.value) <= Key(s, f)
  {
    if q == {} then None
    else
      LeastExists(s, q);
      var e :| e in q && forall f :: f in q ==> Key(s, e) <= Key(s, f);
      Some(e)
  }

  /** Incrementing an iterator that stands at e. */
  function Next(s: State, q: set<EntryId>, e: EntryId): (r: Option<EntryId>)
    requires DistinctKeys(s, q)
    ensures r.Some? ==> r.value in q && Key(s, e) < Key(s, r.value)
    ensures forall f :: f in q && Key(s, e) < Key(s, f) ==> r.Some? && Key(s, r.value) <= Key(s, f)
  {
    var rest := set f | f in q && Key(s, e) < Key(s, f);
    assert forall f :: f in q && Key(s, e) < Key(s, f) ==> f in rest;
    Least(s, rest)
  }
}
