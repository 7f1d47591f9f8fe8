/** The lifetime manager as an object that is updated in place. */
module LifetimeManagement {
  import opened Options
  import opened Lifetime
  import opened LifetimeSteps
  import opened LifetimeDrain

  class LifetimeManager {
    var alive: set<Actor>
    var deleted: set<Actor>
    var shutdown: set<Actor>
    var refcount: map<Actor, nat>
    var dependents: map<Actor, seq<Ref>>
    var ptr: map<Ref, Actor>
    var owner: map<Ref, Actor>
    var owned: map<Actor, seq<Ref>>
    var busy: set<Actor>
    var queue: seq<Actor>
    var stage: Stage
    ghost var destroyed: seq<Actor>

    ghost function View(): State
      reads this
    {
      State(alive, deleted, shutdown, refcount, dependents, ptr, owner, owned, busy, queue, stage, destroyed)
    }

    constructor ()
      ensures View() == INIT
    {
      alive, deleted, shutdown, refcount, dependents := {}, {}, {}, map[], map[];
      ptr, owner, owned, busy, queue, stage, destroyed := map[], map[], map[], {}, [], Idle, [];
    }

    method Post(a: Actor)
      modifies this`refcount, this`queue
      ensures View() == Lifetime.Post(old(View()), a)
    {
      refcount := refcount[a := (if a in refcount then refcount[a] else 0) + 1];
      queue := queue + [a];
    }

    method Delete(a: Actor)
      modifies this`deleted, this`refcount, this`queue
      ensures View() == Lifetime.Delete(old(View()), a)
    {
      if a in deleted {
        return;
      }
      deleted := deleted + {a};
      Post(a);
    }

    method RetryDelete(a: Actor)
      requires Inv(View()) && a in alive && a in deleted
      modifies this`refcount, this`queue
      ensures View() == LifetimeSteps.RetryDelete(old(View()), a) && Inv(View())
    {
      Post(a);
    }

    method DependencyAdd(p: Actor, q: Ref)
      requires p !in deleted && q !in ptr
      modifies this`dependents, this`ptr
      ensures View() == Link(old(View()), q, p)
    {
      dependents := dependents[p := (if p in dependents then dependents[p] else []) + [q]];
      ptr := ptr[q := p];
    }

    /** Position of a reference in a dependent list. */
    method Locate(w: seq<Ref>, q: Ref) returns (i: nat)
      requires q in w
      ensures i == IndexOf(w, q)
    {
      i := 0;
      while w[i] != q
        invariant i < |w| && q in w[i..] && IndexOf(w, q) == i + IndexOf(w[i..], q)
        decreases |w| - i
      {
        assert w[i..] == [w[i]] + w[i + 1..];
        assert w[i..][1..] == w[i + 1..];
        i := i + 1;
      }
    }

    method DependencyRemove(q: Ref)
      requires q in ptr && q in Deps(View(), ptr[q])
      modifies this`dependents, this`ptr, this`refcount, this`queue
      ensures View() == Unlink(old(View()), q)
    {
      var p := ptr[q];
      var w := dependents[p];
      var i := Locate(w, q);
      dependents := dependents[p := w[..i] + w[i + 1..]];
      ptr := ptr - {q};
      if p in deleted && dependents[p] == [] {
        Post(p);
      }
    }

    method Reset(q: Ref, to: Option<Actor>)
      requires Inv(View()) && q in owner && (to.Some? ==> to.value in alive && to.value !in deleted)
      modifies this`dependents, this`ptr, this`refcount, this`queue
      ensures View() == LifetimeSteps.Reset(old(View()), q, to) && Inv(View())
    {
      if q in ptr {
        UnlinkKeeps(View(), q, None);
        DependencyRemove(q);
      }
      if to.Some? {
        DependencyAdd(to.value, q);
      }
    }

    method PropagateDelete(a: Actor)
      requires forall i {:trigger Deps(View(), a)[i]} :: 0 <= i < |Deps(View(), a)| ==> Deps(View(), a)[i] in owner
      modifies this`deleted, this`refcount, this`queue
      ensures View() == DeleteOwners(old(View()), Deps(old(View()), a))
    {
      var w := if a in dependents then dependents[a] else [];
      assert w == Deps(View(), a);
      var i := 0;
      while i < |w|
        invariant i <= |w| && owner == old(owner)
        invariant forall j {:trigger w[j]} :: 0 <= j < |w| ==> w[j] in owner
        invariant DeleteOwners(View(), w[i..]) == DeleteOwners(old(View()), w)
      {
        assert w[i..][1..] == w[i + 1..];
        Delete(owner[w[i]]);
        i := i + 1;
      }
    }

    method ReferenceDecrementAndTest(a: Actor) returns (go: bool)
      requires a in refcount && refcount[a] > 0
      modifies this`refcount
      ensures refcount == old(refcount)[a := old(refcount[a]) - 1]
      ensures go == (refcount[a] == 0 && Deps(View(), a) == [] && a !in busy)
    {
      refcount := refcount[a := refcount[a] - 1];
      go := refcount[a] == 0 && (a !in dependents || dependents[a] == []) && a !in busy;
    }

    /** The destructors of the references contained in an object. */
    method DropReferences(a: Actor)
      requires InvBut(View(), Some(a)) && Deps(View(), a) == []
      requires a in deleted && Refcount(View(), a) == 0 && a in alive
      modifies this
      ensures View() == DropRefs(old(View()), a)
    {
      while a in owned && owned[a] != []
        invariant InvBut(View(), Some(a)) && Deps(View(), a) == []
        invariant a in deleted && Refcount(View(), a) == 0 && a in alive
        invariant DropRefs(View(), a) == DropRefs(old(View()), a)
        decreases |Owned(View(), a)|
      {
        ghost var s := View();
        DropOneKeeps(s, a);
        DropReference(a);
        assert DropRefs(s, a) == DropRefs(DropOne(s, a), a);
      }
    }

    method DropReference(a: Actor)
      requires Owned(View(), a) != []
      requires Owned(View(), a)[0] in ptr ==> Owned(View(), a)[0] in Deps(View(), ptr[Owned(View(), a)[0]])
      modifies this
      ensures View() == DropOne(old(View()), a)
    {
      var q := owned[a][0];
      if q in ptr {
        DependencyRemove(q);
      }
      owner := owner - {q};
      owned := owned[a := owned[a][1..]];
    }

    method Destroy(a: Actor)
      requires InvBut(View(), Some(a)) && a in alive && a in deleted && a in shutdown
      requires Refcount(View(), a) == 0 && Deps(View(), a) == [] && a !in busy
      modifies this
      ensures View() == LifetimeSteps.Destroy(old(View()), a)
    {
      DropReferences(a);
      alive := alive - {a};
      destroyed := destroyed + [a];
    }

    /** DeleteExecutor up to the test of MayDestroy. */
    method Begin()
      requires Inv(View()) && stage.Holding?
      modifies this`deleted, this`refcount, this`queue, this`shutdown, this`stage
      ensures View() == Propagate(old(View()))
    {
      var a := stage.actor;
      if a !in shutdown {
        DependentsOwned(View(), a);
        DeleteOwnersKeeps(View(), Deps(View(), a));
        PropagateDelete(a);
        shutdown := shutdown + {a};
      }
      stage := Propagated(a);
    }

    /** DeleteExecutor from the test of MayDestroy on; the result tells the queue whether to go on. */
    method End(mayDestroy: bool) returns (more: bool)
      requires Inv(View()) && stage.Propagated?
      modifies this
      ensures View() == Finish(old(View()), mayDestroy)
      ensures more == mayDestroy
    {
      var a := stage.actor;
      if !mayDestroy {
        queue, stage := queue + [a], Idle;
        return false;
      }
      DropEventKeeps(View());
      var go := ReferenceDecrementAndTest(a);
      stage := Idle;
      if go {
        Destroy(a);
      }
      return true;
    }

    method DeleteExecutor(mayDestroy: bool) returns (more: bool)
      requires Inv(View()) && stage.Idle? && queue != []
      modifies this
      ensures Propagate(Take(old(View()))).stage.Propagated?
      ensures View() == Finish(Propagate(Take(old(View()))), mayDestroy)
      ensures more == mayDestroy
    {
      queue, stage := queue[1..], Holding(queue[0]);
      assert View() == Take(old(View()));
      PropagateStage(View());
      Begin();
      more := End(mayDestroy);
    }

    /** The manager's task while MayDestroy holds. */
    method RunQueue()
      requires Inv(View()) && stage.Idle?
      modifies this
      ensures View() == Drain(old(View()))
    {
      while queue != []
        invariant Inv(View()) && stage.Idle? && Drain(View()) == Drain(old(View()))
        decreases Work(View())
      {
        HandleEventWork(View());
        var more := DeleteExecutor(true);
      }
    }
  }
}
