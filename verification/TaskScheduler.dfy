/** The task scheduler in the form of the source: fields updated in place, walks written as loops. */
module TaskScheduling {
  import opened Options
  import opened TaskPolicy
  import S = TaskState
  import opened TaskInvariant
  import opened TaskQueues
  import Steps = TaskSteps
  import Walks = TaskWalks
  import Ops = TaskOperations

  class TaskScheduler {
    const policy: Policy
    var on: bool
    var seqno: nat
    var waitq: map<EntryId, seq<S.Task>>
    var entryRun: map<EntryId, nat>
    var groupRun: map<int, nat>
    var runTask: map<EntryId, S.Task>
    var deferq: map<S.Owner, seq<EntryId>>
    var home: map<EntryId, S.Owner>
    var running: set<S.Task>
    var cancelled: set<S.Task>
    var started: seq<seq<S.Task>>

    /** The value of all fields; of a defer queue, its members. */
    ghost function View(): S.State
      reads this
    {
      var queues := map o | o in deferq :: Members(deferq[o]);
      S.State(on, seqno, waitq, entryRun, groupRun, runTask, queues, home, running, cancelled, started)
    }

    function Queue(o: S.Owner): seq<EntryId>
      reads this`deferq
    {
      if o in deferq then deferq[o] else []
    }

    function Waiting(e: EntryId): seq<S.Task>
      reads this`waitq
    {
      if e in waitq then waitq[e] else []
    }

    function GroupRun(g: int): nat
      reads this`groupRun
    {
      if g in groupRun then groupRun[g] else 0
    }

    function EntryRun(e: EntryId): nat
      reads this`entryRun
    {
      if e in entryRun then entryRun[e] else 0
    }

    /** Every defer queue is in the order of the first waiting tasks, so that its iterators find their places. */
    ghost predicate InOrder()
      reads this`waitq, this`deferq
    {
      forall o {:trigger deferq[o]} :: o in deferq ==> Ascending(waitq, deferq[o])
    }

    /** The same while the number of entry e has changed. */
    ghost predicate InOrderBut(e: EntryId)
      reads this`waitq, this`deferq
    {
      forall o {:trigger deferq[o]} :: o in deferq ==> AscendingBut(waitq, deferq[o], e)
    }

    ghost predicate Valid()
      reads this
    {
      Inv(policy, View()) && InOrder()
    }

    lemma QueueMembers(o: S.Owner)
      ensures Members(Queue(o)) == S.DeferQ(View(), o)
    {
    }

    /** An entry without a home is in no queue. */
    lemma Homeless(e: EntryId)
      requires QueuesOk(policy, View()) && e !in home
      ensures forall o {:trigger deferq[o]} :: o in deferq ==> e !in deferq[o]
    {
      forall o | o in deferq ensures e !in deferq[o] {
        QueueMembers(o);
        assert e in S.DeferQ(View(), o) ==> e in View().home;
      }
    }

    constructor (p: Policy)
      ensures policy == p && View() == S.INIT
    {
      policy := p;
      on, seqno := true, 0;
      waitq, entryRun, groupRun, runTask := map[], map[], map[], map[];
      deferq, home, running, cancelled, started := map[], map[], {}, {}, [];
    }

    method ActiveGroupInPolicy(g: int) returns (r: Option<int>)
      ensures r == S.FirstActiveGroup(View(), GroupRules(policy, g))
    {
      var rules := GroupRules(policy, g);
      ghost var s := View();
      var i := 0;
      while i < |rules|
        invariant 0 <= i <= |rules|
        invariant S.FirstActiveGroup(s, rules) == S.FirstActiveGroup(s, rules[i..])
      {
        assert GroupRun(rules[i]) == S.GroupRun(s, rules[i]);
        if GroupRun(rules[i]) != 0 {
          return Some(rules[i]);
        }
        assert rules[i..][1..] == rules[i + 1..];
        i := i + 1;
      }
      r := None;
    }

    method ActiveEntryInPolicy(e: EntryId) returns (r: Option<EntryId>)
      ensures r == S.FirstActiveEntry(View(), EntryRules(policy, e))
    {
      var rules := EntryRules(policy, e);
      ghost var s := View();
      var i := 0;
      while i < |rules|
        invariant 0 <= i <= |rules|
        invariant S.FirstActiveEntry(s, rules) == S.FirstActiveEntry(s, rules[i..])
      {
        assert EntryRun(rules[i]) == S.EntryRun(s, rules[i]);
        if EntryRun(rules[i]) != 0 {
          return Some(rules[i]);
        }
        assert rules[i..][1..] == rules[i + 1..];
        i := i + 1;
      }
      r := None;
    }

    /** The group check, then the entry check. */
    method PolicyFailure(e: EntryId) returns (r: Option<S.Owner>)
      ensures r == S.BlockedBy(policy, View(), e)
    {
      var g := ActiveGroupInPolicy(e.group);
      if g.Some? {
        return Some(S.GroupOwner(g.value));
      }
      var f := ActiveEntryInPolicy(e);
      r := if f.Some? then Some(S.EntryOwner(f.value)) else None;
    }

    /** The number of an entry that waits nowhere may change. */
    method AddToWaitQ(t: S.Task)
      requires InOrder() && QueuesOk(policy, View()) && (S.EntryOf(t) in home ==> Waiting(S.EntryOf(t)) != [])
      modifies this`waitq
      ensures View() == S.AddToWaitQ(old(View()), t) && InOrder()
    {
      var e := S.EntryOf(t);
      ghost var w := waitq;
      if e !in home { Homeless(e); }
      waitq := waitq[e := Waiting(e) + [t]];
      KeepOrder(w, e);
    }

    /** Entries other than e have kept their numbers, and e has too or is in no queue. */
    lemma KeepOrder(w: WaitQueues, e: EntryId)
      requires forall o {:trigger deferq[o]} :: o in deferq ==> Ascending(w, deferq[o])
      requires forall f {:trigger Number(waitq, f)} :: f != e ==> Number(waitq, f) == Number(w, f)
      requires Number(waitq, e) == Number(w, e) || forall o {:trigger deferq[o]} :: o in deferq ==> e !in deferq[o]
      ensures InOrder()
    {
      forall o | o in deferq ensures Ascending(waitq, deferq[o]) {
        OthersInOrder(w, waitq, deferq[o], e);
      }
    }

    /** The place of an entry in a queue is behind all entries with smaller numbers. */
    method FindPlace(q: seq<EntryId>, n: nat) returns (i: nat)
      requires Ascending(waitq, q)
      ensures i <= |q|
      ensures forall j {:trigger q[j]} :: 0 <= j < i ==> Number(waitq, q[j]) < n
      ensures forall j {:trigger q[j]} :: i <= j < |q| ==> n <= Number(waitq, q[j])
    {
      i := 0;
      while i < |q| && Number(waitq, q[i]) < n
        invariant i <= |q|
        invariant forall j {:trigger q[j]} :: 0 <= j < i ==> Number(waitq, q[j]) < n
      {
        i := i + 1;
      }
    }

    method IndexIn(q: seq<EntryId>, e: EntryId) returns (i: nat)
      requires e in q
      ensures i < |q| && q[i] == e
    {
      i := 0;
      while q[i] != e
        invariant i < |q| && e in q[i..]
        decreases |q| - i
      {
        assert q[i..] == [q[i]] + q[i + 1..];
        i := i + 1;
      }
    }

    method AddToDeferQ(o: S.Owner, e: EntryId)
      requires e !in home && InOrder()
      requires forall f :: f in S.DeferQ(View(), o) ==> S.Key(View(), f) != S.Key(View(), e)
      modifies this`deferq, this`home
      ensures View() == S.AddToDeferQ(old(View()), o, e) && InOrder()
    {
      var q := Queue(o);
      QueueMembers(o);
      var i := FindPlace(q, Number(waitq, e));
      BehindPlace(q, e, i, o);
      InsertAt(waitq, q, e, i);
      deferq := deferq[o := q[..i] + [e] + q[i..]];
      home := home[e := o];
      assert View().deferq == old(View()).deferq[o := Members(q) + {e}];
    }

    lemma BehindPlace(q: seq<EntryId>, e: EntryId, i: nat, o: S.Owner)
      requires Members(q) == S.DeferQ(View(), o) && i <= |q|
      requires forall f :: f in S.DeferQ(View(), o) ==> S.Key(View(), f) != S.Key(View(), e)
      requires forall j {:trigger q[j]} :: i <= j < |q| ==> Number(waitq, e) <= Number(waitq, q[j])
      ensures forall j {:trigger q[j]} :: i <= j < |q| ==> Number(waitq, e) < Number(waitq, q[j])
    {
      forall j | i <= j < |q| ensures Number(waitq, e) < Number(waitq, q[j]) {
        assert q[j] in S.DeferQ(View(), o);
      }
    }

    method DeleteFromDeferQ(o: S.Owner, e: EntryId)
      requires e in home && home[e] == o && e in S.DeferQ(View(), o)
      requires InOrderBut(e) && forall p {:trigger deferq[p]} :: p in deferq && p != o ==> e !in deferq[p]
      modifies this`deferq, this`home
      ensures View() == S.DeleteFromDeferQ(old(View()), o, e) && InOrder()
    {
      var q := Queue(o);
      QueueMembers(o);
      var i := IndexIn(q, e);
      RemoveAt(waitq, q, e, i);
      deferq := deferq[o := q[..i] + q[i + 1..]];
      home := home - {e};
      assert View().deferq == old(View()).deferq[o := Members(q) - {e}];
      forall p | p in deferq ensures Ascending(waitq, deferq[p]) {
        if p != o { NotThere(waitq, deferq[p], e); }
      }
    }

    /** An entry is in the queue of its home only. */
    lemma OnlyAtHome(e: EntryId)
      requires QueuesOk(policy, View()) && e in home
      ensures e in S.DeferQ(View(), home[e])
      ensures forall p {:trigger deferq[p]} :: p in deferq && p != home[e] ==> e !in deferq[p]
    {
      assert e in View().home;
      forall p | p in deferq && p != home[e] ensures e !in deferq[p] {
        QueueMembers(p);
        assert e in S.DeferQ(View(), p) <==> e in deferq[p];
      }
    }

    lemma InOrderButAny(e: EntryId)
      requires InOrder()
      ensures InOrderBut(e)
    {
      forall o | o in deferq ensures AscendingBut(waitq, deferq[o], e) {
        OthersInOrder(waitq, waitq, deferq[o], e);
      }
    }

    method RunTask(t: S.Task)
      requires t.instance != -1 ==> S.EntryOf(t) !in runTask && EntryRun(S.EntryOf(t)) == 0
      modifies this`runTask, this`entryRun, this`groupRun, this`running
      ensures View() == S.RunTask(old(View()), t)
    {
      var e := S.EntryOf(t);
      if t.instance != -1 {
        runTask := runTask[e := t];
      }
      entryRun := entryRun[e := EntryRun(e) + 1];
      groupRun := groupRun[t.group := GroupRun(t.group) + 1];
      running := running + {t};
    }

    method RunWaitQ(e: EntryId)
      requires Core(policy, View()) && AllQueuedBut(View(), e) && Free(policy, View(), e) && Waiting(e) != []
      requires InOrder()
      modifies this
      ensures View() == Steps.RunWaitQ(policy, old(View()), e) && InOrder()
    {
      if e.instance != -1 {
        ghost var s := View();
        StartHeadKeeps(policy, s, e);
        var t := StartFirst(e);
        started := started + [[t]];
        if Waiting(e) != [] {
          EntryRulesSymmetric(policy);
          Steps.LogKeeps(policy, StartHead(s, e), View());
          AddToDeferQKeeps(policy, View(), S.EntryOwner(e), e);
          AddToDeferQ(S.EntryOwner(e), e);
        }
      } else {
        var batch := waitq[e];
        StartAll(e);
        started := started + [batch];
      }
    }

    /** The whole queue of a wildcard instance. */
    method StartAll(e: EntryId)
      requires Core(policy, View()) && AllQueuedBut(View(), e) && Free(policy, View(), e) && e.instance == -1
      requires InOrder()
      modifies this`waitq, this`runTask, this`entryRun, this`groupRun, this`running
      ensures View() == Steps.StartAll(policy, old(View()), e) && InOrder()
    {
      ghost var s := View();
      while Waiting(e) != []
        invariant Core(policy, View()) && AllQueuedBut(View(), e) && Free(policy, View(), e) && InOrder()
        invariant Steps.StartAll(policy, View(), e) == Steps.StartAll(policy, s, e)
        decreases |Waiting(e)|
      {
        StartHeadKeeps(policy, View(), e);
        var t := StartFirst(e);
      }
    }

    /** Takes the first task from the wait queue and runs it. */
    method StartFirst(e: EntryId) returns (t: S.Task)
      requires Waiting(e) != [] && S.EntryOf(Waiting(e)[0]) == e && e !in home && QueuesOk(policy, View())
      requires e.instance != -1 ==> e !in runTask && EntryRun(e) == 0
      requires InOrder()
      modifies this`waitq, this`runTask, this`entryRun, this`groupRun, this`running
      ensures View() == StartHead(old(View()), e) && t == old(Waiting(e)[0]) && InOrder()
    {
      ghost var w := waitq;
      Homeless(e);
      t := waitq[e][0];
      waitq := waitq[e := waitq[e][1..]];
      KeepOrder(w, e);
      RunTask(t);
    }

    method RunDeferEntry(e: EntryId)
      requires Core(policy, View()) && AllQueuedBut(View(), e) && Waiting(e) != [] && InOrder()
      modifies this
      ensures View() == Steps.RunDeferEntry(policy, old(View()), e) && InOrder()
    {
      var b := PolicyFailure(e);
      if b.Some? {
        AddToDeferQKeeps(policy, View(), b.value, e);
        AddToDeferQ(b.value, e);
      } else {
        RunnableIsFree(policy, View(), e);
        RunWaitQ(e);
      }
    }

    /** The iterator that stands at e moves to the entry behind it. */
    method Behind(o: S.Owner, e: EntryId) returns (next: Option<EntryId>)
      requires InOrder() && e in S.DeferQ(View(), o) && S.DistinctKeys(View(), S.DeferQ(View(), o))
      ensures next == S.Next(View(), S.DeferQ(View(), o), e)
    {
      QueueMembers(o);
      var i := IndexIn(Queue(o), e);
      BehindIsNext(View(), Queue(o), i);
      next := if i + 1 < |Queue(o)| then Some(Queue(o)[i + 1]) else None;
    }

    method First(o: S.Owner) returns (first: Option<EntryId>)
      requires InOrder() && S.DistinctKeys(View(), S.DeferQ(View(), o))
      ensures first == S.Least(View(), S.DeferQ(View(), o))
    {
      QueueMembers(o);
      FirstIsLeast(View(), Queue(o));
      first := if Queue(o) == [] then None else Some(Queue(o)[0]);
    }

    /** The body of the loops: advance the iterator that stands at e, then release e. */
    method Advance(o: S.Owner, e: EntryId) returns (next: Option<EntryId>)
      requires Core(policy, View()) && AllQueued(View()) && e in S.DeferQ(View(), o) && InOrder()
      modifies this
      ensures (View(), next) == Steps.Advance(policy, old(View()), o, e) && InOrder()
    {
      QueueKeysDistinct(policy, View(), o);
      next := Behind(o, e);
      DeleteFromDeferQKeeps(policy, View(), o, e);
      OnlyAtHome(e);
      InOrderButAny(e);
      DeleteFromDeferQ(o, e);
      RunDeferEntry(e);
    }

    /** RunDeferQ: entries may be inserted into the queue while it is walked. */
    method RunDeferQ(o: S.Owner)
      requires Core(policy, View()) && AllQueued(View()) && InOrder()
      modifies this
      ensures View() == Steps.RunDeferQ(policy, old(View()), o) && InOrder()
    {
      ghost var s := View();
      QueueKeysDistinct(policy, View(), o);
      var it := First(o);
      while it.Some?
        invariant Core(policy, View()) && AllQueued(View()) && InOrder()
        invariant it.Some? ==> it.value in S.DeferQ(View(), o)
        invariant Steps.Walk(policy, View(), o, it) == Steps.RunDeferQ(policy, s, o)
        decreases if it.Some? then seqno + 1 - S.Key(View(), it.value) else -1
      {
        Steps.KeyInRange(policy, View(), o, it.value);
        it := Advance(o, it.value);
      }
    }

    method RunCombinedDeferQ(e: EntryId)
      requires Core(policy, View()) && AllQueued(View()) && InOrder()
      modifies this
      ensures View() == Walks.RunCombinedDeferQ(policy, old(View()), e) && InOrder()
    {
      var g, q := S.GroupOwner(e.group), S.EntryOwner(e);
      QueueKeysDistinct(policy, View(), g);
      QueueKeysDistinct(policy, View(), q);
      var git := First(g);
      var qit := First(q);
      RunBoth(g, git, q, qit);
    }

    /** The iterators are valid, and going on from them leads to the state end. */
    ghost predicate Walking(g: S.Owner, git: Option<EntryId>, q: S.Owner, qit: Option<EntryId>, end: S.State)
      reads this
    {
      && Walks.Cursors(policy, View(), g, git, q, qit) && InOrder()
      && Walks.WalkBoth(policy, View(), g, git, q, qit) == end
    }

    /** Advances the iterator whose entry has the smaller number. */
    method AdvanceOne(g: S.Owner, n: EntryId, q: S.Owner, m: EntryId, ghost end: S.State)
      returns (git: Option<EntryId>, qit: Option<EntryId>)
      requires Walking(g, Some(n), q, Some(m), end)
      modifies this
      ensures Walking(g, git, q, qit, end)
      ensures Walks.Left(policy, View(), g, git, q, qit) < Walks.Left(policy, old(View()), g, Some(n), q, Some(m))
    {
      ghost var s := View();
      git, qit := Some(n), Some(m);
      if Number(waitq, n) < Number(waitq, m) {
        git := Advance(g, n);
        Walks.GroupFirst(policy, s, g, n, q, m, View(), git);
      } else {
        qit := Advance(q, m);
        Walks.EntryFirst(policy, s, g, n, q, m, View(), qit);
      }
    }

    /** The loop, which advances the iterator whose entry has the smaller number, and what is left of one queue. */
    method RunBoth(g: S.Owner, git: Option<EntryId>, q: S.Owner, qit: Option<EntryId>)
      requires Walks.Cursors(policy, View(), g, git, q, qit) && InOrder()
      modifies this
      ensures View() == Walks.WalkBoth(policy, old(View()), g, git, q, qit) && InOrder()
    {
      ghost var end := Walks.WalkBoth(policy, View(), g, git, q, qit);
      var groupIt, entryIt := git, qit;
      while groupIt.Some? && entryIt.Some?
        invariant Walking(g, groupIt, q, entryIt, end)
        decreases Walks.Left(policy, View(), g, groupIt, q, entryIt)
      {
        groupIt, entryIt := AdvanceOne(g, groupIt.value, q, entryIt.value, end);
      }
      RunRest(g, groupIt, q, entryIt);
    }

    /** What is left of one queue; at most one of the iterators is not at its end. */
    method RunRest(g: S.Owner, git: Option<EntryId>, q: S.Owner, qit: Option<EntryId>)
      requires Walks.Cursors(policy, View(), g, git, q, qit) && InOrder() && !(git.Some? && qit.Some?)
      modifies this
      ensures View() == Walks.WalkBoth(policy, old(View()), g, git, q, qit) && InOrder()
    {
      if git.Some? {
        RunDeferQ(g);
      } else if qit.Some? {
        RunDeferQ(q);
      }
    }

    method Enqueue(group: int, instance: int)
      requires Valid() && group >= 0 && instance >= -1
      modifies this
      ensures View() == Ops.Enqueue(policy, old(View()), group, instance)
      ensures Valid()
    {
      ghost var s := View();
      seqno := seqno + 1;
      ghost var s0 := View();
      var t := S.Task(group, instance, seqno);
      Ops.NumberKeeps(policy, s, s0, t);
      Ops.EnqueueIsPlace(policy, s, s0, t);
      Place(t);
    }

    /** The rest of EnqueueUnLocked, for a task that has its number. */
    method Place(t: S.Task)
      requires Valid() && Ops.Fresh(View(), t)
      modifies this
      ensures View() == Ops.Place(policy, old(View()), t) && InOrder()
    {
      var e := S.EntryOf(t);
      if Waiting(e) != [] {
        AddToWaitQ(t);
      } else if !on {
        Defer(t, S.EntryOwner(STOP));
      } else {
        var b := PolicyFailure(e);
        if b.Some? {
          Defer(t, b.value);
        } else {
          StartNow(t);
        }
      }
    }

    method StartNow(t: S.Task)
      requires Valid() && Ops.Fresh(View(), t)
      requires Waiting(S.EntryOf(t)) == [] && S.Runnable(policy, View(), S.EntryOf(t))
      modifies this`runTask, this`entryRun, this`groupRun, this`running, this`started
      ensures View() == Ops.StartNow(policy, old(View()), t)
    {
      Ops.EnqueueRuns(policy, View(), t);
      RunTask(t);
      started := started + [[t]];
    }

    method Defer(t: S.Task, o: S.Owner)
      requires Valid() && Ops.Fresh(View(), t) && Waiting(S.EntryOf(t)) == []
      requires (o == S.EntryOwner(STOP) && !on) || (S.RuleFor(policy, o, S.EntryOf(t)) && S.OwnerRuns(View(), o))
      modifies this`waitq, this`deferq, this`home
      ensures View() == Ops.Defer(policy, old(View()), t, o) && InOrder()
    {
      Ops.EnqueueDefers(policy, View(), t, o);
      AddToWaitQ(t);
      AddToDeferQ(o, S.EntryOf(t));
    }

    method Cancel(t: S.Task) returns (code: Ops.CancelReturnCode)
      requires Valid()
      modifies this
      ensures (View(), code) == Ops.Cancel(policy, old(View()), t)
      ensures Valid()
    {
      if t in running {
        cancelled := cancelled + {t};
        code := Ops.QUEUED;
      } else if t in Waiting(S.EntryOf(t)) {
        CancelWaiting(t);
        code := Ops.CANCELLED;
      } else {
        code := Ops.FAILED;
      }
    }

    /** Without the second insertion an entry whose first task is cancelled would be out of order. */
    method CancelWaiting(t: S.Task)
      requires Valid() && t in Waiting(S.EntryOf(t))
      modifies this`waitq, this`deferq, this`home
      ensures View() == Ops.CancelWaiting(policy, old(View()), t) && InOrder()
    {
      ghost var s := View();
      var e := S.EntryOf(t);
      var first := waitq[e][0];
      EraseTask(t);
      Ops.EraseCore(policy, s, t);
      if Waiting(e) == [] {
        Ops.CancelLast(policy, s, t, View());
        OnlyAtHome(e);
        DeleteFromDeferQ(home[e], e);
      } else if t == first {
        Ops.CancelFirst(policy, s, t, View());
        Requeue(home[e], e);
      } else {
        Ops.CancelLater(policy, s, t, View());
      }
    }

    /** Only the number of the task's own entry can change, and only with its first task. */
    method EraseTask(t: S.Task)
      requires t in Waiting(S.EntryOf(t)) && InOrder()
      modifies this`waitq
      ensures View() == Ops.Erase(old(View()), t)
      ensures InOrderBut(S.EntryOf(t)) && (t != old(Waiting(S.EntryOf(t))[0]) ==> InOrder())
    {
      var e := S.EntryOf(t);
      ghost var w := waitq;
      var i := Ops.IndexOf(waitq[e], t);
      waitq := waitq[e := waitq[e][..i] + waitq[e][i + 1..]];
      forall o | o in deferq ensures AscendingBut(waitq, deferq[o], e) {
        OthersInOrder(w, waitq, deferq[o], e);
      }
      if i > 0 { KeepOrder(w, e); }
    }

    /** Takes an entry out of its defer queue and inserts it at the place of its new head. */
    method Requeue(o: S.Owner, e: EntryId)
      requires QueuesOk(policy, View()) && InOrderBut(e)
      requires e in home && home[e] == o && e in S.DeferQ(View(), o)
      requires var s := S.DeleteFromDeferQ(View(), o, e); forall f :: f in S.DeferQ(s, o) ==> S.Key(s, f) != S.Key(s, e)
      modifies this`deferq, this`home
      ensures View() == S.AddToDeferQ(S.DeleteFromDeferQ(old(View()), o, e), o, e) && InOrder()
    {
      OnlyAtHome(e);
      DeleteFromDeferQ(o, e);
      AddToDeferQ(o, e);
    }

    /** The counters fall. */
    method Retire(t: S.Task)
      requires EntryRun(S.EntryOf(t)) > 0 && GroupRun(t.group) > 0
      requires t.instance != -1 ==>
        EntryRun(S.EntryOf(t)) == 1 && S.EntryOf(t) in runTask && runTask[S.EntryOf(t)] == t
      modifies this`runTask, this`entryRun, this`groupRun, this`running, this`cancelled
      ensures View() == S.Retire(old(View()), t)
    {
      var e := S.EntryOf(t);
      if t.instance != -1 {
        runTask := runTask - {e};
      }
      entryRun := entryRun[e := entryRun[e] - 1];
      groupRun := groupRun[t.group := groupRun[t.group] - 1];
      running, cancelled := running - {t}, cancelled - {t};
    }

    method TaskExited(t: S.Task)
      requires Valid() && t in running
      modifies this
      ensures View() == Ops.TaskExited(policy, old(View()), t) && InOrder()
    {
      Ops.RetireKeeps(policy, View(), t);
      var e := S.EntryOf(t);
      Retire(t);
      if GroupRun(t.group) == 0 && EntryRun(e) == 0 {
        RunCombinedDeferQ(e);
      } else if GroupRun(t.group) == 0 || EntryRun(e) == 0 {
        RunDeferQ(if GroupRun(t.group) == 0 then S.GroupOwner(t.group) else S.EntryOwner(e));
      }
    }

    method OnTaskExit(t: S.Task, recycle: bool)
      requires Valid() && t in running
      modifies this
      ensures View() == Ops.Exit(policy, old(View()), t, recycle)
      ensures Valid()
    {
      Ops.ExitWakesInOrder(policy, View(), t);
      var isCancelled := t in cancelled;
      assert t.group >= 0 && t.instance >= -1;
      TaskExited(t);
      if recycle && !isCancelled {
        Enqueue(t.group, t.instance);
      }
    }

    method Stop()
      requires Valid()
      modifies this`on
      ensures View() == Ops.Stop(policy, old(View()))
      ensures Valid()
    {
      on := false;
      Ops.SwitchKeeps(policy, old(View()), View());
    }

    method Start()
      requires Valid()
      modifies this
      ensures View() == Ops.Start(policy, old(View()))
      ensures Valid()
    {
      ghost var s := View();
      on := true;
      Ops.SwitchKeeps(policy, s, View());
      assert View() == s.(on := true);
      RunDeferQ(S.EntryOwner(STOP));
    }
  }
}
