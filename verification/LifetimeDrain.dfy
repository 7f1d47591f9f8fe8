/** Running the manager until its queue is empty: it stops, and destroys exactly the transitive dependents. */
module LifetimeDrain {
  import opened Options
  import opened Lifetime
  import opened LifetimeSteps
  import opened LifetimeRuns
  import opened LifetimeCascade

  // ---- Termination ----

  /** Actors that can still be deleted, links that can still be removed, and events that are queued. */
  function Work(s: State): nat {
    |s.alive - s.deleted| + |s.ptr| + |s.queue|
  }

  lemma DeleteWork(s: State, a: Actor)
    requires a in s.alive
    ensures Work(Delete(s, a)) == Work(s)
  {
    if a !in s.deleted {
      assert s.alive - (s.deleted + {a}) == (s.alive - s.deleted) - {a};
    }
  }

  lemma {:induction false} DeleteOwnersWork(s: State, w: seq<Ref>)
    requires forall i {:trigger w[i]} :: 0 <= i < |w| ==> w[i] in s.owner && s.owner[w[i]] in s.alive
    ensures Work(DeleteOwners(s, w)) == Work(s)
    decreases |w|
  {
    if w != [] {
      DeleteWork(s, s.owner[w[0]]);
      DeleteOwnersWork(Delete(s, s.owner[w[0]]), w[1..]);
    }
  }

  lemma {:induction false} DropRefsStage(s: State, a: Actor)
    requires InvBut(s, Some(a)) && Deps(s, a) == [] && a in s.deleted && Refcount(s, a) == 0 && a in s.alive
    ensures DropRefs(s, a).stage == s.stage && DropRefs(s, a).shutdown == s.shutdown
    decreases |Owned(s, a)|
  {
    if Owned(s, a) != [] {
      DropOneKeeps(s, a);
      DropRefsStage(DropOne(s, a), a);
    }
  }

  /** DeleteExecutor on the next event, when MayDestroy holds. */
  function HandleEvent(s: State): (r: State)
    requires Inv(s) && s.stage.Idle? && s.queue != []
    ensures Inv(r)
  {
    PropagateStage(Take(s));
    Finish(Propagate(Take(s)), true)
  }

  lemma PropagateStage(s: State)
    requires Inv(s) && s.stage.Holding?
    ensures var r := Propagate(s);
      && r.stage == Propagated(s.stage.actor) && Work(r) == Work(s)
      && r.alive == s.alive && r.busy == s.busy && r.ptr == s.ptr && r.owner == s.owner
  {
    var a := s.stage.actor;
    if a !in s.shutdown {
      DependentsOwned(s, a);
      forall i | 0 <= i < |Deps(s, a)| ensures s.owner[Deps(s, a)[i]] in s.alive {
        OwnerAlive(s, Deps(s, a)[i]);
      }
      DeleteOwnersKeeps(s, Deps(s, a));
      DeleteOwnersWork(s, Deps(s, a));
      var s1 := DeleteOwners(s, Deps(s, a));
      assert Work(s1.(shutdown := s1.shutdown + {a}, stage := Propagated(a))) == Work(s1);
    }
  }

  lemma FinishWork(s: State)
    requires Inv(s) && s.stage.Propagated?
    ensures var r := Finish(s, true); r.stage.Idle? && r.busy == s.busy && Work(r) <= Work(s)
  {
    var a := s.stage.actor;
    DropEventKeeps(s);
    var s1 := s.(refcount := s.refcount[a := Refcount(s, a) - 1], stage := Idle);
    FinishEffect(s, true);
    if MayGo(s) {
      DropRefsStage(s1, a);
      NoEventsLeft(s, a);
      DeletedLeaves(s.alive, s.deleted, a);
    }
  }

  lemma DeletedLeaves(alive: set<Actor>, deleted: set<Actor>, a: Actor)
    requires a in deleted
    ensures (alive - {a}) - deleted == alive - deleted
  {
  }

  lemma HandleEventWork(s: State)
    requires Inv(s) && s.stage.Idle? && s.queue != []
    ensures var r := HandleEvent(s); r.stage.Idle? && r.busy == s.busy && Work(r) < Work(s)
  {
    assert Work(Take(s)) == Work(s) - 1;
    PropagateStage(Take(s));
    FinishWork(Propagate(Take(s)));
  }

  /** The manager's task: events are handled until there is none. */
  function Drain(s: State): (r: State)
    requires Inv(s) && s.stage.Idle?
    ensures Inv(r) && r.stage.Idle? && r.queue == [] && r.busy == s.busy
    decreases Work(s)
  {
    if s.queue == [] then s
    else
      HandleEventWork(s);
      Drain(HandleEvent(s))
  }

  // ---- What is destroyed ----

  lemma RunCons(s: State, op: Op, rest: seq<Op>)
    requires Inv(s) && Enabled(s, op)
    ensures Run(s, [op] + rest) == Run(Step(s, op), rest)
  {
    assert ([op] + rest)[1..] == rest;
  }

  predicate OwnSteps(ops: seq<Op>) {
    forall i {:trigger ops[i]} :: 0 <= i < |ops| ==> ops[i].OpTake? || ops[i].OpPropagate? || ops[i].OpFinish?
  }

  lemma EventIsRun(s: State, rest: seq<Op>) returns (ops: seq<Op>)
    requires Inv(s) && s.stage.Idle? && s.queue != [] && OwnSteps(rest)
    ensures OwnSteps(ops) && Run(s, ops) == Run(HandleEvent(s), rest)
  {
    PropagateStage(Take(s));
    var u := [OpFinish(true)] + rest;
    RunCons(Propagate(Take(s)), OpFinish(true), rest);
    var v := [OpPropagate] + u;
    RunCons(Take(s), OpPropagate, u);
    ops := [OpTake] + v;
    RunCons(s, OpTake, v);
    OwnStep(OpFinish(true), rest);
    OwnStep(OpPropagate, u);
    OwnStep(OpTake, v);
  }

  lemma OwnStep(op: Op, rest: seq<Op>)
    requires OwnSteps(rest) && (op.OpTake? || op.OpPropagate? || op.OpFinish?)
    ensures OwnSteps([op] + rest)
  {
  }

  /** Draining is a run of the manager's own steps. */
  lemma {:induction false} DrainIsRun(s: State) returns (ops: seq<Op>)
    requires Inv(s) && s.stage.Idle?
    ensures OwnSteps(ops) && Run(s, ops) == Some(Drain(s))
    decreases Work(s)
  {
    ops := [];
    if s.queue != [] {
      HandleEventWork(s);
      var rest := DrainIsRun(HandleEvent(s));
      ops := EventIsRun(s, rest);
    }
  }

  /** The dependents of members are members. */
  ghost predicate Closed(s: State, x: set<Actor>) {
    forall q {:trigger q in s.ptr} :: q in s.ptr && q in s.owner && s.ptr[q] in x ==> s.owner[q] in x
  }

  lemma {:induction false} DeleteOwnersWithin(s: State, w: seq<Ref>, x: set<Actor>)
    requires forall i {:trigger w[i]} :: 0 <= i < |w| ==> w[i] in s.owner && s.owner[w[i]] in x
    requires s.deleted <= x
    ensures DeleteOwners(s, w).deleted <= x
    decreases |w|
  {
    if w != [] {
      DeleteOwnersWithin(Delete(s, s.owner[w[0]]), w[1..], x);
    }
  }

  lemma PropagateWithin(s: State, x: set<Actor>)
    requires Inv(s) && s.stage.Holding? && s.deleted <= x && Closed(s, x)
    ensures Propagate(s).deleted <= x
  {
    var a := s.stage.actor;
    if a !in s.shutdown {
      assert Outstanding(s, a) > 0;
      DependentsOwned(s, a);
      forall i | 0 <= i < |Deps(s, a)| ensures s.owner[Deps(s, a)[i]] in x {
        assert Deps(s, a)[i] in Deps(s, a);
      }
      DeleteOwnersWithin(s, Deps(s, a), x);
    }
  }

  /** Handling an event neither deletes outside of a closed set nor adds a link. */
  lemma HandleEventWithin(s: State, x: set<Actor>)
    requires Inv(s) && s.stage.Idle? && s.queue != [] && s.deleted <= x && Closed(s, x)
    ensures HandleEvent(s).deleted <= x && Closed(HandleEvent(s), x)
    ensures forall q {:trigger q in HandleEvent(s).ptr} :: q in HandleEvent(s).ptr ==>
      q in s.ptr && HandleEvent(s).ptr[q] == s.ptr[q]
    ensures forall q {:trigger q in HandleEvent(s).owner} :: q in HandleEvent(s).owner ==>
      q in s.owner && HandleEvent(s).owner[q] == s.owner[q]
  {
    var s1 := Take(s);
    PropagateStage(s1);
    PropagateWithin(s1, x);
    FinishEffect(Propagate(s1), true);
  }

  lemma {:induction false} DrainWithin(s: State, x: set<Actor>)
    requires Inv(s) && s.stage.Idle? && s.deleted <= x && Closed(s, x)
    ensures Drain(s).deleted <= x
    decreases Work(s)
  {
    if s.queue != [] {
      HandleEventWithin(s, x);
      HandleEventWork(s);
      DrainWithin(HandleEvent(s), x);
    }
  }

  lemma {:induction false} DrainRanked(s: State, rank: Actor -> nat)
    requires Inv(s) && s.stage.Idle? && Ranked(s, rank)
    ensures Ranked(Drain(s), rank)
    decreases Work(s)
  {
    if s.queue != [] {
      var all := s.deleted + s.alive + (set q | q in s.owner :: s.owner[q]);
      HandleEventWithin(s, all);
      HandleEventWork(s);
      DrainRanked(HandleEvent(s), rank);
    }
  }

  lemma DrainQuiet(s: State)
    requires Inv(s) && s.stage.Idle? && s.busy == {} && Acyclic(s)
    ensures Quiescent(Drain(s)) && Acyclic(Drain(s))
    ensures forall a {:trigger a in Drain(s).deleted} :: a in Drain(s).deleted <==> a in Drain(s).destroyed
  {
    var rank :| Ranked(s, rank);
    DrainRanked(s, rank);
    NothingLeft(Drain(s));
  }

  lemma DependentGoes(s: State, ops: seq<Op>, t: State, q: Ref)
    requires Inv(s) && Run(s, ops) == Some(t) && NoReset(ops, q)
    requires q in s.ptr && q in s.owner && s.ptr[q] in t.destroyed
    ensures s.owner[q] in t.destroyed
  {
    LinkOverRun(s, ops, t, q, s.owner[q], s.ptr[q]);
    if Linked(t, q, s.owner[q], s.ptr[q]) {
      LinkedAlive(t, q, s.owner[q], s.ptr[q]);
    }
  }

  /** The actors deleted when the manager is done are closed under the dependencies that were there at the start. */
  lemma DrainCloses(s: State)
    requires Inv(s) && s.stage.Idle? && s.busy == {} && Acyclic(s)
    ensures s.deleted <= Drain(s).deleted && Closed(s, Drain(s).deleted)
  {
    var ops := DrainIsRun(s);
    DeletedStays(s, ops, Drain(s));
    DrainQuiet(s);
    RunCloses(s, ops, Drain(s));
  }

  lemma RunCloses(s: State, ops: seq<Op>, t: State)
    requires Inv(s) && Run(s, ops) == Some(t) && OwnSteps(ops)
    requires forall a {:trigger a in t.deleted} :: a in t.deleted <==> a in t.destroyed
    ensures Closed(s, t.deleted)
  {
    forall q | q in s.ptr && q in s.owner && s.ptr[q] in t.deleted ensures s.owner[q] in t.deleted {
      DependentGoes(s, ops, t, q);
    }
  }

  /**
   * Deleting cascades exactly: on an acyclic graph with every MayDelete true, the manager stops, and an actor is then
   * destroyed if and only if it is in every set that has the deleted actors and, with an actor, its dependents.
   */
  lemma CascadeIsExact(s: State, a: Actor)
    requires Inv(s) && s.stage.Idle? && s.busy == {} && Acyclic(s)
    ensures a in Drain(s).destroyed <==>
      forall x: set<Actor> {:trigger Closed(s, x)} :: s.deleted <= x && Closed(s, x) ==> a in x
  {
    DrainQuiet(s);
    DrainCloses(s);
    if a in Drain(s).destroyed {
      forall x: set<Actor> | s.deleted <= x && Closed(s, x) ensures a in x {
        DrainWithin(s, x);
        assert a in Drain(s).deleted;
      }
    } else {
      assert Closed(s, Drain(s).deleted);
    }
  }
}
