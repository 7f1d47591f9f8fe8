/** The operations on actors and the manager's event processing, one atomic step each. */
module LifetimeSteps {
  import opened Options
  import opened Lifetime

  const INIT: State := State({}, {}, {}, map[], map[], map[], map[], map[], {}, [], Idle, [])

  // ---- Callers ----

  /** A new actor; destroyed actors are not reused. */
  function Create(s: State, a: Actor): (r: State)
    requires Inv(s) && a !in s.alive && a !in s.destroyed
    ensures Inv(r)
  {
    var r := s.(alive := s.alive + {a});
    CreateKeeps(s, a);
    r
  }

  lemma CreateKeeps(s: State, a: Actor)
    requires Inv(s) && a !in s.alive && a !in s.destroyed
    ensures Inv(s.(alive := s.alive + {a}))
  {
    var r := s.(alive := s.alive + {a});
    assert forall b {:trigger Deps(r, b)} :: Deps(r, b) == Deps(s, b);
    assert forall b {:trigger Owned(r, b)} :: Owned(r, b) == Owned(s, b);
    assert forall b {:trigger Outstanding(r, b)} :: Outstanding(r, b) == Outstanding(s, b);
    assert forall b {:trigger Refcount(r, b)} :: Refcount(r, b) == Refcount(s, b);
  }

  /** A reference contained in the object of actor c, not yet pointing anywhere. */
  function NewRef(s: State, c: Actor, q: Ref): (r: State)
    requires Inv(s) && c in s.alive && q !in s.owner
    ensures Inv(r)
  {
    NewRefKeeps(s, c, q);
    s.(owner := s.owner[q := c], owned := s.owned[c := Owned(s, c) + [q]])
  }

  lemma NewRefKeeps(s: State, c: Actor, q: Ref)
    requires Inv(s) && c in s.alive && q !in s.owner
    ensures Inv(s.(owner := s.owner[q := c], owned := s.owned[c := Owned(s, c) + [q]]))
  {
    var r := s.(owner := s.owner[q := c], owned := s.owned[c := Owned(s, c) + [q]]);
    assert q !in s.ptr;
    NewRefLinks(s, c, q);
    assert forall b {:trigger Deps(r, b)} :: Deps(r, b) == Deps(s, b);
    assert forall b {:trigger Outstanding(r, b)} :: Outstanding(r, b) == Outstanding(s, b);
    assert forall b {:trigger Refcount(r, b)} :: Refcount(r, b) == Refcount(s, b);
  }

  lemma NewRefLinks(s: State, c: Actor, q: Ref)
    requires LinksOk(s) && c in s.alive && q !in s.owner
    ensures LinksOk(s.(owner := s.owner[q := c], owned := s.owned[c := Owned(s, c) + [q]]))
  {
    var r := s.(owner := s.owner[q := c], owned := s.owned[c := Owned(s, c) + [q]]);
    var w := Owned(s, c);
    AppendFacts(w, q);
    assert forall b {:trigger Deps(r, b)} :: Deps(r, b) == Deps(s, b);
    assert forall b {:trigger Owned(r, b)} :: Owned(r, b) == if b == c then w + [q] else Owned(s, b);
  }

  /** DependencyRef::reset: leave the old actor, then join the new one, if any. */
  function Reset(s: State, q: Ref, to: Option<Actor>): (r: State)
    requires Inv(s) && q in s.owner && (to.Some? ==> to.value in s.alive && to.value !in s.deleted)
    ensures Inv(r)
  {
    var s1 := if q in s.ptr then (UnlinkKeeps(s, q, None); Unlink(s, q)) else s;
    if to.Some? then
      LinkKeeps(s1, q, to.value);
      Link(s1, q, to.value)
    else s1
  }

  /** RetryDelete asserts that the actor is deleted. */
  function RetryDelete(s: State, a: Actor): (r: State)
    requires Inv(s) && a in s.alive && a in s.deleted
    ensures Inv(r)
  {
    PostKeeps(s, a, None);
    Post(s, a)
  }

  /** MayDelete of the actor becomes false. */
  function Acquire(s: State, a: Actor): (r: State)
    requires Inv(s) && a in s.alive
    ensures Inv(r)
  {
    BusyKeeps(s, s.(busy := s.busy + {a}), None);
    s.(busy := s.busy + {a})
  }

  /** MayDelete of the actor becomes true; for a deleted actor RetryDelete follows. */
  function Release(s: State, a: Actor): (r: State)
    requires Inv(s) && a in s.alive
    ensures Inv(r)
  {
    var s1 := s.(busy := s.busy - {a});
    BusyKeeps(s, s1, Some(a));
    if a in s.deleted then
      PostKeeps(s1, a, Some(a));
      Post(s1, a)
    else s1
  }

  lemma BusyKeeps(s: State, r: State, x: Option<Actor>)
    requires Inv(s) && r == s.(busy := r.busy)
    requires forall a {:trigger a in s.busy} :: a in s.busy && x != Some(a) ==> a in r.busy
    ensures InvBut(r, x)
  {
    SameLinks(s, r);
    assert forall b {:trigger Outstanding(r, b)} :: Outstanding(r, b) == Outstanding(s, b);
    assert forall b {:trigger Refcount(r, b)} :: Refcount(r, b) == Refcount(s, b);
  }

  // ---- The manager ----

  /** The work queue hands the next event to DeleteExecutor. */
  function Take(s: State): (r: State)
    requires Inv(s) && s.stage.Idle? && s.queue != []
    ensures Inv(r)
  {
    TakeKeeps(s);
    s.(queue := s.queue[1..], stage := Holding(s.queue[0]))
  }

  lemma TakeKeeps(s: State)
    requires Inv(s) && s.stage.Idle? && s.queue != []
    ensures Inv(s.(queue := s.queue[1..], stage := Holding(s.queue[0])))
  {
    var r := s.(queue := s.queue[1..], stage := Holding(s.queue[0]));
    assert s.queue == [s.queue[0]] + s.queue[1..];
    SameLinks(s, r);
    assert forall b {:trigger Outstanding(r, b)} :: Outstanding(r, b) == Outstanding(s, b);
    assert forall b {:trigger Refcount(r, b)} :: Refcount(r, b) == Refcount(s, b);
  }

  /** PropagateDelete over the dependents w: ManagedDelete of a dependent calls Delete of its actor. */
  function DeleteOwners(s: State, w: seq<Ref>): State
    requires forall i {:trigger w[i]} :: 0 <= i < |w| ==> w[i] in s.owner
    decreases |w|
  {
    if w == [] then s else DeleteOwners(Delete(s, s.owner[w[0]]), w[1..])
  }

  lemma {:induction false} DeleteOwnersKeeps(s: State, w: seq<Ref>)
    requires Inv(s)
    requires forall i {:trigger w[i]} :: 0 <= i < |w| ==> w[i] in s.owner
    ensures var r := DeleteOwners(s, w);
      && Inv(r) && r == s.(deleted := r.deleted, refcount := r.refcount, queue := r.queue) && s.deleted <= r.deleted
      && forall i {:trigger w[i]} :: 0 <= i < |w| ==> s.owner[w[i]] in r.deleted
    decreases |w|
  {
    if w != [] {
      var s1 := Delete(s, s.owner[w[0]]);
      assert w == [w[0]] + w[1..];
      OwnerAlive(s, w[0]);
      DeleteKeeps(s, s.owner[w[0]], None);
      DeleteOwnersKeeps(s1, w[1..]);
      var r := DeleteOwners(s, w);
      forall i | 0 <= i < |w| ensures s.owner[w[i]] in r.deleted {
        if i > 0 { assert w[1..][i - 1] == w[i]; }
      }
    }
  }

  lemma OwnerAlive(s: State, q: Ref)
    requires LinksOk(s) && q in s.owner
    ensures s.owner[q] in s.alive
  {
  }

  /** The first part of DeleteExecutor: only the first event of an actor propagates and calls Shutdown. */
  function Propagate(s: State): (r: State)
    requires Inv(s) && s.stage.Holding?
    ensures Inv(r)
  {
    var a := s.stage.actor;
    if a in s.shutdown then
      StageKeeps(s, s.(stage := Propagated(a)));
      s.(stage := Propagated(a))
    else
      DependentsOwned(s, a);
      DeleteOwnersKeeps(s, Deps(s, a));
      var s1 := DeleteOwners(s, Deps(s, a));
      ShutdownKeeps(s1, a);
      s1.(shutdown := s1.shutdown + {a}, stage := Propagated(a))
  }

  lemma DependentsOwned(s: State, a: Actor)
    requires LinksOk(s)
    ensures forall i {:trigger Deps(s, a)[i]} :: 0 <= i < |Deps(s, a)| ==> Deps(s, a)[i] in s.owner
  {
    forall i | 0 <= i < |Deps(s, a)| ensures Deps(s, a)[i] in s.owner {
      assert Deps(s, a)[i] in Deps(s, a) && Deps(s, a)[i] in s.ptr;
    }
  }

  lemma StageKeeps(s: State, r: State)
    requires Inv(s) && s.stage.Holding? && r == s.(stage := Propagated(s.stage.actor)) && s.stage.actor in s.shutdown
    ensures Inv(r)
  {
    SameLinks(s, r);
    assert forall b {:trigger Outstanding(r, b)} :: Outstanding(r, b) == Outstanding(s, b);
    assert forall b {:trigger Refcount(r, b)} :: Refcount(r, b) == Refcount(s, b);
  }

  lemma ShutdownKeeps(s: State, a: Actor)
    requires Inv(s) && s.stage == Holding(a)
    requires forall i {:trigger Deps(s, a)[i]} :: 0 <= i < |Deps(s, a)| ==>
      Deps(s, a)[i] in s.owner && s.owner[Deps(s, a)[i]] in s.deleted
    ensures Inv(s.(shutdown := s.shutdown + {a}, stage := Propagated(a)))
  {
    var r := s.(shutdown := s.shutdown + {a}, stage := Propagated(a));
    SameLinks(s, r);
    assert forall b {:trigger Outstanding(r, b)} :: Outstanding(r, b) == Outstanding(s, b);
    assert forall b {:trigger Refcount(r, b)} :: Refcount(r, b) == Refcount(s, b);
    assert Outstanding(s, a) > 0;
    DependentsDeleted(s, a);
  }

  lemma DependentsDeleted(s: State, a: Actor)
    requires LinksOk(s)
    requires forall i {:trigger Deps(s, a)[i]} :: 0 <= i < |Deps(s, a)| ==>
      Deps(s, a)[i] in s.owner && s.owner[Deps(s, a)[i]] in s.deleted
    ensures forall q {:trigger q in s.ptr} :: q in s.ptr && s.ptr[q] == a ==> q in s.owner && s.owner[q] in s.deleted
  {
    forall q | q in s.ptr && s.ptr[q] == a ensures q in s.owner && s.owner[q] in s.deleted {
      assert q in Deps(s, a);
    }
  }

  /** The second part of DeleteExecutor. */
  function Finish(s: State, mayDestroy: bool): (r: State)
    requires Inv(s) && s.stage.Propagated?
    ensures Inv(r)
  {
    var a := s.stage.actor;
    if !mayDestroy then
      DeferKeeps(s);
      s.(queue := s.queue + [a], stage := Idle)
    else
      DropEventKeeps(s);
      var s1 := s.(refcount := s.refcount[a := Refcount(s, a) - 1], stage := Idle);
      if Refcount(s1, a) == 0 && Deps(s1, a) == [] && a !in s1.busy then Destroy(s1, a) else s1
  }

  lemma DeferKeeps(s: State)
    requires Inv(s) && s.stage.Propagated?
    ensures Inv(s.(queue := s.queue + [s.stage.actor], stage := Idle))
  {
    var r := s.(queue := s.queue + [s.stage.actor], stage := Idle);
    assert multiset(r.queue) == multiset(s.queue) + multiset{s.stage.actor};
    SameLinks(s, r);
    assert forall b {:trigger Outstanding(r, b)} :: Outstanding(r, b) == Outstanding(s, b);
    assert forall b {:trigger Refcount(r, b)} :: Refcount(r, b) == Refcount(s, b);
  }

  /** ReferenceDecrementAndTest: without the event the actor is kept alive by what the test looks at. */
  lemma DropEventKeeps(s: State)
    requires Inv(s) && s.stage.Propagated?
    ensures Refcount(s, s.stage.actor) > 0
    ensures var a := s.stage.actor;
      var r := s.(refcount := s.refcount[a := Refcount(s, a) - 1], stage := Idle);
      && InvBut(r, Some(a)) && a in r.alive && a in r.deleted && a in r.shutdown
      && (!(Refcount(r, a) == 0 && Deps(r, a) == [] && a !in r.busy) ==> Inv(r))
  {
    var a := s.stage.actor;
    assert Outstanding(s, a) > 0;
    var r := s.(refcount := s.refcount[a := Refcount(s, a) - 1], stage := Idle);
    SameLinks(s, r);
    assert forall b {:trigger Outstanding(r, b)} :: Outstanding(r, b) == Outstanding(s, b) - if b == a then 1 else 0;
    assert forall b {:trigger Refcount(r, b)} :: Refcount(r, b) == Refcount(s, b) - if b == a then 1 else 0;
    assert EventsOk(r);
    assert Refcount(r, a) == Outstanding(r, a);
  }

  /** The destructors of the references of an object that is destroyed. */
  function DropRefs(s: State, a: Actor): (r: State)
    requires InvBut(s, Some(a)) && Deps(s, a) == [] && a in s.deleted && Refcount(s, a) == 0 && a in s.alive
    ensures InvBut(r, Some(a)) && Owned(r, a) == [] && Deps(r, a) == [] && Refcount(r, a) == 0
    ensures r.alive == s.alive && r.deleted == s.deleted && r.destroyed == s.destroyed && r.busy == s.busy
    decreases |Owned(s, a)|
  {
    if Owned(s, a) == [] then s
    else
      DropOneKeeps(s, a);
      DropRefs(DropOne(s, a), a)
  }

  /** ~DependencyRef for the first of them. */
  function DropOne(s: State, a: Actor): State
    requires Owned(s, a) != [] && (Owned(s, a)[0] in s.ptr ==> Owned(s, a)[0] in Deps(s, s.ptr[Owned(s, a)[0]]))
  {
    var q := Owned(s, a)[0];
    var s1 := if q in s.ptr then Unlink(s, q) else s;
    s1.(owner := s1.owner - {q}, owned := s1.owned[a := Owned(s1, a)[1..]])
  }

  lemma DropOneKeeps(s: State, a: Actor)
    requires InvBut(s, Some(a)) && Deps(s, a) == [] && Owned(s, a) != [] && Refcount(s, a) == 0
    ensures Owned(s, a)[0] in s.ptr ==> Owned(s, a)[0] in Deps(s, s.ptr[Owned(s, a)[0]])
    ensures var r := DropOne(s, a);
      && InvBut(r, Some(a)) && Owned(r, a) == Owned(s, a)[1..] && Deps(r, a) == [] && Refcount(r, a) == 0
      && r.alive == s.alive && r.deleted == s.deleted && r.destroyed == s.destroyed && r.busy == s.busy
  {
    var q := Owned(s, a)[0];
    if q in s.ptr {
      UnlinkKeeps(s, q, Some(a));
      UnlinkFrame(s, q, a);
      ForgetKeeps(Unlink(s, q), a);
    } else {
      ForgetKeeps(s, a);
    }
  }

  /** Unlinking does not touch an actor that has no dependents. */
  lemma UnlinkFrame(s: State, q: Ref, a: Actor)
    requires q in s.ptr && q in Deps(s, s.ptr[q]) && Deps(s, a) == []
    ensures var r := Unlink(s, q);
      && q !in r.ptr && Owned(r, a) == Owned(s, a) && Deps(r, a) == [] && Refcount(r, a) == Refcount(s, a)
      && r.alive == s.alive && r.deleted == s.deleted && r.destroyed == s.destroyed && r.busy == s.busy
  {
    assert s.ptr[q] != a;
  }

  lemma ForgetKeeps(s: State, a: Actor)
    requires InvBut(s, Some(a)) && Owned(s, a) != [] && Owned(s, a)[0] !in s.ptr
    ensures InvBut(s.(owner := s.owner - {Owned(s, a)[0]}, owned := s.owned[a := Owned(s, a)[1..]]), Some(a))
  {
    var r := s.(owner := s.owner - {Owned(s, a)[0]}, owned := s.owned[a := Owned(s, a)[1..]]);
    ForgetLinks(s, a, r);
    assert forall b {:trigger Deps(r, b)} :: Deps(r, b) == Deps(s, b);
    assert forall b {:trigger Outstanding(r, b)} :: Outstanding(r, b) == Outstanding(s, b);
    assert forall b {:trigger Refcount(r, b)} :: Refcount(r, b) == Refcount(s, b);
  }

  lemma TailFacts(w: seq<Ref>)
    requires NoDuplicates(w) && w != []
    ensures NoDuplicates(w[1..])
    ensures forall c {:trigger c in w[1..]} {:trigger c in w} :: c in w[1..] <==> c in w && c != w[0]
  {
    assert w == [w[0]] + w[1..];
    assert forall i {:trigger w[1..][i]} :: 0 <= i < |w[1..]| ==> w[1..][i] == w[i + 1];
  }

  lemma ForgetLinks(s: State, a: Actor, r: State)
    requires LinksOk(s) && Owned(s, a) != [] && Owned(s, a)[0] !in s.ptr
    requires r == s.(owner := s.owner - {Owned(s, a)[0]}, owned := s.owned[a := Owned(s, a)[1..]])
    ensures LinksOk(r)
  {
    var w := Owned(s, a);
    TailFacts(w);
    assert forall b {:trigger Deps(r, b)} :: Deps(r, b) == Deps(s, b);
    assert forall b {:trigger Owned(r, b)} :: Owned(r, b) == if b == a then w[1..] else Owned(s, b);
    assert w[0] in Owned(s, a);
  }

  /** Destroy: the destructor asserts that no event and no dependent is left. */
  function Destroy(s: State, a: Actor): (r: State)
    requires InvBut(s, Some(a)) && a in s.alive && a in s.deleted && a in s.shutdown
    requires Refcount(s, a) == 0 && Deps(s, a) == [] && a !in s.busy
    ensures Inv(r)
  {
    var s1 := DropRefs(s, a);
    DestroyKeeps(s1, a);
    s1.(alive := s1.alive - {a}, destroyed := s1.destroyed + [a])
  }

  lemma DestroyKeeps(s: State, a: Actor)
    requires InvBut(s, Some(a)) && a in s.alive && a in s.deleted
    requires Refcount(s, a) == 0 && Deps(s, a) == [] && Owned(s, a) == []
    ensures Inv(s.(alive := s.alive - {a}, destroyed := s.destroyed + [a]))
  {
    var r := s.(alive := s.alive - {a}, destroyed := s.destroyed + [a]);
    assert forall b {:trigger Deps(r, b)} :: Deps(r, b) == Deps(s, b);
    assert forall b {:trigger Owned(r, b)} :: Owned(r, b) == Owned(s, b);
    assert Refcount(s, a) == Outstanding(s, a);
    assert forall b {:trigger Outstanding(r, b)} :: Outstanding(r, b) == Outstanding(s, b);
    assert forall b {:trigger Refcount(r, b)} :: Refcount(r, b) == Refcount(s, b);
    assert LinksOk(r);
    assert forall i {:trigger s.destroyed[i]} :: 0 <= i < |s.destroyed| ==> s.destroyed[i] in s.destroyed;
  }
}
