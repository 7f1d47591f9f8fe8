/** Whole runs of the lifetime manager: safety, order of destruction and completeness of the cascade. */
module LifetimeRuns {
  import opened Options
  import opened Lifetime
  import opened LifetimeSteps

  datatype Op =
    | OpCreate(actor: Actor)
    | OpNewRef(holder: Actor, ref: Ref)
    | OpReset(ref: Ref, to: Option<Actor>)
    | OpDelete(actor: Actor)
    | OpRetry(actor: Actor)
    | OpAcquire(actor: Actor)
    | OpRelease(actor: Actor)
    | OpTake
    | OpPropagate
    | OpFinish(mayDestroy: bool)

  /** What the source demands of the caller, by contract or by assertion. */
  predicate Enabled(s: State, op: Op) {
    match op
    case OpCreate(a) => a !in s.alive && a !in s.destroyed
    case OpNewRef(c, q) => c in s.alive && q !in s.owner
    case OpReset(q, to) => q in s.owner && (to.Some? ==> to.value in s.alive && to.value !in s.deleted)
    case OpDelete(a) => a in s.alive
    case OpRetry(a) => a in s.alive && a in s.deleted
    case OpAcquire(a) => a in s.alive
    case OpRelease(a) => a in s.alive
    case OpTake => s.stage.Idle? && s.queue != []
    case OpPropagate => s.stage.Holding?
    case OpFinish(_) => s.stage.Propagated?
  }

  function Step(s: State, op: Op): (r: State)
    requires Inv(s) && Enabled(s, op)
    ensures Inv(r)
  {
    match op
    case OpCreate(a) => Create(s, a)
    case OpNewRef(c, q) => NewRef(s, c, q)
    case OpReset(q, to) => Reset(s, q, to)
    case OpDelete(a) => DeleteKeeps(s, a, None); Delete(s, a)
    case OpRetry(a) => RetryDelete(s, a)
    case OpAcquire(a) => Acquire(s, a)
    case OpRelease(a) => Release(s, a)
    case OpTake => Take(s)
    case OpPropagate => Propagate(s)
    case OpFinish(mayDestroy) => Finish(s, mayDestroy)
  }

  /** The state after the steps, or None when one of them is not enabled. */
  function Run(s: State, ops: seq<Op>): (r: Option<State>)
    requires Inv(s)
    ensures r.Some? ==> Inv(r.value)
    decreases |ops|
  {
    if ops == [] then Some(s)
    else if Enabled(s, ops[0]) then Run(Step(s, ops[0]), ops[1..])
    else None
  }

  ghost predicate Reachable(s: State) {
    InitInv();
    exists ops: seq<Op> :: Run(INIT, ops) == Some(s)
  }

  lemma InitInv()
    ensures Inv(INIT)
  {
  }

  // ---- Safety ----

  /** In every reachable state the reference count is the number of outstanding events. */
  lemma RefcountCountsEvents(s: State, a: Actor)
    requires Reachable(s)
    ensures Refcount(s, a) == multiset(s.queue)[a] + (if s.stage.Idle? || s.stage.actor != a then 0 else 1)
  {
    InitInv();
    var ops: seq<Op> :| Run(INIT, ops) == Some(s);
    assert Refcount(s, a) == Outstanding(s, a);
  }

  // ---- What one step can do ----

  /** The references of s that are not contained in the object of a, as they are in s. */
  ghost predicate Spared(s: State, r: State, a: Actor) {
    && (forall q {:trigger q in r.ptr} :: q in r.ptr ==> q in s.ptr && r.ptr[q] == s.ptr[q])
    && (forall q {:trigger q in r.owner} :: q in r.owner ==> q in s.owner && r.owner[q] == s.owner[q])
    && (forall q {:trigger q in s.owner} :: q in s.owner && s.owner[q] != a ==>
          q in r.owner && (q in s.ptr ==> q in r.ptr))
    && |r.ptr| + |r.queue| <= |s.ptr| + |s.queue|
  }

  lemma FirstOwned(s: State, a: Actor)
    requires LinksOk(s) && Owned(s, a) != []
    ensures var q := Owned(s, a)[0]; q in s.owner && s.owner[q] == a && (q in s.ptr ==> q in Deps(s, s.ptr[q]))
  {
    assert Owned(s, a)[0] in Owned(s, a);
  }

  lemma DropOneSpares(s: State, a: Actor)
    requires Owned(s, a) != []
    requires var q := Owned(s, a)[0]; q in s.owner && s.owner[q] == a && (q in s.ptr ==> q in Deps(s, s.ptr[q]))
    ensures Spared(s, DropOne(s, a), a)
  {
    var q := Owned(s, a)[0];
    var r := DropOne(s, a);
    assert r.owner == s.owner - {q};
    if q in s.ptr {
      assert r.ptr == s.ptr - {q};
      assert s.ptr == r.ptr[q := s.ptr[q]];
      assert |r.queue| <= |s.queue| + 1;
    } else {
      assert r.ptr == s.ptr;
    }
  }

  lemma {:induction false} DropRefsSpares(s: State, a: Actor)
    requires InvBut(s, Some(a)) && Deps(s, a) == [] && a in s.deleted && Refcount(s, a) == 0 && a in s.alive
    ensures Spared(s, DropRefs(s, a), a)
    decreases |Owned(s, a)|
  {
    if Owned(s, a) != [] {
      DropOneKeeps(s, a);
      FirstOwned(s, a);
      DropOneSpares(s, a);
      DropRefsSpares(DropOne(s, a), a);
      SparedTwice(s, DropOne(s, a), DropRefs(DropOne(s, a), a), a);
    }
  }

  lemma SparedTwice(s: State, s1: State, r: State, a: Actor)
    requires Spared(s, s1, a) && Spared(s1, r, a)
    ensures Spared(s, r, a)
  {
  }

  lemma DestroyEffect(s: State, a: Actor)
    requires InvBut(s, Some(a)) && a in s.alive && a in s.deleted && a in s.shutdown
    requires Refcount(s, a) == 0 && Deps(s, a) == [] && a !in s.busy
    ensures var r := Destroy(s, a);
      r.destroyed == s.destroyed + [a] && r.alive == s.alive - {a} && r.deleted == s.deleted && Spared(s, r, a)
  {
    DropRefsSpares(s, a);
  }

  /** ReferenceDecrementAndTest. */
  predicate MayGo(s: State) {
    s.stage.Propagated? && Refcount(s, s.stage.actor) == 1 && Deps(s, s.stage.actor) == [] && s.stage.actor !in s.busy
  }

  /** The second part of DeleteExecutor leaves the graph alone, or destroys its actor. */
  lemma FinishEffect(s: State, mayDestroy: bool)
    requires Inv(s) && s.stage.Propagated?
    ensures var a := s.stage.actor; var r := Finish(s, mayDestroy);
      if mayDestroy && MayGo(s) then
        r.destroyed == s.destroyed + [a] && r.alive == s.alive - {a} && r.deleted == s.deleted && Spared(s, r, a)
      else
        && r.destroyed == s.destroyed && r.alive == s.alive && r.deleted == s.deleted
        && r.ptr == s.ptr && r.owner == s.owner
  {
    if mayDestroy && MayGo(s) {
      GoEffect(s);
    } else {
      StayEffect(s, mayDestroy);
    }
  }

  lemma GoEffect(s: State)
    requires Inv(s) && s.stage.Propagated? && MayGo(s)
    ensures var a := s.stage.actor; var r := Finish(s, true);
      r.destroyed == s.destroyed + [a] && r.alive == s.alive - {a} && r.deleted == s.deleted && Spared(s, r, a)
  {
    var a := s.stage.actor;
    DropEventKeeps(s);
    DestroyEffect(s.(refcount := s.refcount[a := Refcount(s, a) - 1], stage := Idle), a);
  }

  lemma StayEffect(s: State, mayDestroy: bool)
    requires Inv(s) && s.stage.Propagated? && !(mayDestroy && MayGo(s))
    ensures var r := Finish(s, mayDestroy);
      && r.destroyed == s.destroyed && r.alive == s.alive && r.deleted == s.deleted
      && r.ptr == s.ptr && r.owner == s.owner
  {
  }

  /** An actor is destroyed only by its last event, without dependents, and leaves no event behind. */
  lemma DestroySafety(s: State, op: Op, a: Actor)
    requires Inv(s) && Enabled(s, op) && a !in s.destroyed && a in Step(s, op).destroyed
    ensures op == OpFinish(true) && s.stage == Propagated(a)
    ensures a in s.deleted && a !in s.busy && a !in s.queue
    ensures forall q {:trigger q in s.ptr} :: q in s.ptr ==> s.ptr[q] != a
    ensures var r := Step(s, op); r.destroyed == s.destroyed + [a] && a !in r.alive && a !in r.queue
  {
    if !op.OpFinish? {
      StepEffect(s, op);
    } else {
      FinishEffect(s, op.mayDestroy);
      NoEventsLeft(s, a);
      NoEventsLeft(Step(s, op), a);
    }
  }

  lemma NoEventsLeft(s: State, a: Actor)
    requires Inv(s)
    ensures a !in s.alive ==> a !in s.queue
    ensures s.stage == Propagated(a) ==> a in s.deleted && (Refcount(s, a) == 1 ==> a !in s.queue)
    ensures Deps(s, a) == [] ==> forall q {:trigger q in s.ptr} :: q in s.ptr ==> s.ptr[q] != a
  {
    assert Refcount(s, a) == Outstanding(s, a);
  }

  /** Links other than that of x are as they were, and nothing is destroyed. */
  ghost predicate Undisturbed(s: State, r: State, x: Option<Ref>) {
    && s.deleted <= r.deleted && r.destroyed == s.destroyed
    && (forall q {:trigger q in s.ptr} :: q in s.ptr && q in s.owner && x != Some(q) ==>
          q in r.ptr && r.ptr[q] == s.ptr[q] && q in r.owner && r.owner[q] == s.owner[q])
  }

  lemma UnlinkEffect(s: State, q: Ref)
    requires q in s.ptr && q in Deps(s, s.ptr[q])
    ensures var r := Unlink(s, q);
      r.deleted == s.deleted && r.destroyed == s.destroyed && r.ptr == s.ptr - {q} && r.owner == s.owner
  {
  }

  lemma ResetEffect(s: State, q: Ref, to: Option<Actor>)
    requires Inv(s) && q in s.owner && (to.Some? ==> to.value in s.alive && to.value !in s.deleted)
    ensures Undisturbed(s, Reset(s, q, to), Some(q))
  {
    if q in s.ptr {
      ResetLinked(s, q, to);
    }
  }

  lemma ResetLinked(s: State, q: Ref, to: Option<Actor>)
    requires Inv(s) && q in s.owner && q in s.ptr && (to.Some? ==> to.value in s.alive && to.value !in s.deleted)
    ensures Undisturbed(s, Reset(s, q, to), Some(q))
  {
    UnlinkKeeps(s, q, None);
    UnlinkEffect(s, q);
    var s1, r := Unlink(s, q), Reset(s, q, to);
    assert r.deleted == s1.deleted && r.destroyed == s1.destroyed && r.owner == s1.owner;
    assert forall p {:trigger p in r.ptr} :: p != q ==> (p in r.ptr <==> p in s1.ptr);
  }

  lemma PropagateEffect(s: State)
    requires Inv(s) && s.stage.Holding?
    ensures Undisturbed(s, Propagate(s), None) && Propagate(s).ptr == s.ptr && Propagate(s).owner == s.owner
  {
    if s.stage.actor !in s.shutdown {
      DependentsOwned(s, s.stage.actor);
      DeleteOwnersKeeps(s, Deps(s, s.stage.actor));
    }
  }

  /** Only Finish destroys, and every other step leaves the links alone, except that Reset moves its own. */
  lemma StepEffect(s: State, op: Op)
    requires Inv(s) && Enabled(s, op) && !op.OpFinish?
    ensures Undisturbed(s, Step(s, op), if op.OpReset? then Some(op.ref) else None)
  {
    match op
    case OpReset(q, to) => ResetEffect(s, q, to);
    case OpPropagate => PropagateEffect(s);
    case _ =>
  }
}
