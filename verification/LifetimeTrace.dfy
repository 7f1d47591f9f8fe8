/** Runs of the lifetime manager in terms of what its callers did: actors, references, events. */
module LifetimeTrace {
  import opened Options
  import opened Lifetime
  import opened LifetimeSteps
  import opened LifetimeRuns
  import opened LifetimeCascade

  // ---- Reset ----

  /** The reference points where it was told to, as the last dependent there; all other references stay. */
  ghost predicate Moved(s: State, q: Ref, to: Option<Actor>, r: State) {
    && r.ptr == (if to.Some? then s.ptr[q := to.value] else s.ptr - {q})
    && (to.Some? ==> Deps(r, to.value) != [] && Deps(r, to.value)[|Deps(r, to.value)| - 1] == q)
    && SameActors(s, r)
  }

  ghost predicate SameActors(s: State, r: State) {
    && r.owner == s.owner && r.alive == s.alive && r.deleted == s.deleted && r.destroyed == s.destroyed
    && r.busy == s.busy && r.stage == s.stage
  }

  lemma ResetMoves(s: State, q: Ref, to: Option<Actor>)
    requires Inv(s) && q in s.owner && (to.Some? ==> to.value in s.alive && to.value !in s.deleted)
    ensures Moved(s, q, to, Reset(s, q, to))
  {
    if q in s.ptr {
      UnlinkKeeps(s, q, None);
      UnlinkRemoves(s, q);
      var s1 := Unlink(s, q);
      ResetRest(s, q, to, s1);
      if to.Some? { LinkAdds(s, s1, q, to.value); }
    } else {
      assert s.ptr - {q} == s.ptr;
    }
  }

  lemma UnlinkRemoves(s: State, q: Ref)
    requires q in s.ptr && q in Deps(s, s.ptr[q])
    ensures Unlink(s, q).ptr == s.ptr - {q} && SameActors(s, Unlink(s, q))
  {
  }

  lemma LinkAdds(s: State, s1: State, q: Ref, a: Actor)
    requires SameActors(s, s1) && s1.ptr == s.ptr - {q} && a !in s1.deleted
    ensures Moved(s, q, Some(a), Link(s1, q, a))
  {
    assert (s.ptr - {q})[q := a] == s.ptr[q := a];
    assert Deps(Link(s1, q, a), a) == Deps(s1, a) + [q];
  }

  lemma ResetRest(s: State, q: Ref, to: Option<Actor>, s1: State)
    requires Inv(s) && q in s.owner && (to.Some? ==> to.value in s.alive && to.value !in s.deleted)
    requires q in s.ptr && q in Deps(s, s.ptr[q]) && s1 == Unlink(s, q)
    ensures q !in s1.ptr && (to.Some? ==> to.value !in s1.deleted)
    ensures Reset(s, q, to) == if to.Some? then Link(s1, q, to.value) else s1
  {
  }

  lemma {:induction false} DeletedByRun(s: State, ops: seq<Op>, t: State, a: Actor)
    requires Inv(s) && Run(s, ops) == Some(t) && OpDelete(a) in ops
    ensures a in t.deleted
    decreases |ops|
  {
    var s1 := Step(s, ops[0]);
    if ops[0] == OpDelete(a) {
      DeleteKeeps(s, a, None);
      DeletedStays(s1, ops[1..], t);
    } else {
      assert ops == [ops[0]] + ops[1..];
      DeletedByRun(s1, ops[1..], t, a);
    }
  }

  /**
   * After a reference was set to an actor and the actor was deleted, whatever else happened except another reset
   * of the reference, an acyclic graph at rest has destroyed the owner of the reference, and before the actor.
   */
  lemma ResetThenDelete(s: State, q: Ref, a: Actor, ops: seq<Op>, t: State)
    requires Inv(s) && Enabled(s, OpReset(q, Some(a)))
    requires Run(Step(s, OpReset(q, Some(a))), ops) == Some(t) && NoReset(ops, q) && OpDelete(a) in ops
    requires Quiescent(t) && Acyclic(t)
    ensures a in t.destroyed && Precedes(t.destroyed, s.owner[q], a)
  {
    var s1, c := Step(s, OpReset(q, Some(a))), s.owner[q];
    ResetLinks(s, q, a);
    DeletedByRun(s1, ops, t, a);
    NothingLeft(t);
    LinkOverRun(s1, ops, t, q, c, a);
    if Linked(t, q, c, a) { LinkedAlive(t, q, c, a); }
  }

  lemma ResetLinks(s: State, q: Ref, a: Actor)
    requires Inv(s) && Enabled(s, OpReset(q, Some(a)))
    ensures Linked(Step(s, OpReset(q, Some(a))), q, s.owner[q], a)
  {
    ResetMoves(s, q, Some(a));
  }

  // ---- What the callers did ----

  /** Who was created, which object holds a reference, where it was last set to, and whose MayDelete is false. */
  datatype Calls = Calls(created: set<Actor>, holder: map<Ref, Actor>, target: map<Ref, Actor>,
                         busy: set<Actor>, asked: set<Actor>)

  const NO_CALLS: Calls := Calls({}, map[], map[], {}, {})

  function Record(v: Calls, op: Op): Calls {
    match op
    case OpCreate(a) => v.(created := v.created + {a})
    case OpNewRef(c, q) => v.(holder := v.holder[q := c], target := v.target - {q})
    case OpReset(q, to) => v.(target := if to.Some? then v.target[q := to.value] else v.target - {q})
    case OpDelete(a) => v.(asked := v.asked + {a})
    case OpAcquire(a) => v.(busy := v.busy + {a})
    case OpRelease(a) => v.(busy := v.busy - {a})
    case _ => v
  }

  function RecordAll(v: Calls, ops: seq<Op>): Calls
    decreases |ops|
  {
    if ops == [] then v else RecordAll(Record(v, ops[0]), ops[1..])
  }

  /** What is alive was created and is not destroyed. */
  ghost predicate ActorsAgree(v: Calls, s: State) {
    && (forall a {:trigger a in s.alive} :: a in s.alive <==> a in v.created && a !in s.destroyed)
    && (forall a {:trigger a in s.destroyed} :: a in s.destroyed ==> a in v.created)
    && s.busy == v.busy && v.asked <= s.deleted
  }

  /** A reference is where it was last put, unless its holder is destroyed. */
  ghost predicate RefsAgree(v: Calls, s: State) {
    forall q {:trigger q in s.owner} {:trigger q in s.ptr} ::
      && (q in s.owner <==> q in v.holder && v.holder[q] !in s.destroyed)
      && (q in s.owner ==> s.owner[q] == v.holder[q])
      && (q in s.ptr <==> q in v.target && q in s.owner)
      && (q in s.ptr ==> s.ptr[q] == v.target[q])
  }

  lemma FinishAgrees(v: Calls, s: State, mayDestroy: bool)
    requires Inv(s) && s.stage.Propagated? && ActorsAgree(v, s) && RefsAgree(v, s)
    ensures ActorsAgree(v, Finish(s, mayDestroy)) && RefsAgree(v, Finish(s, mayDestroy))
  {
    FinishBusy(s, mayDestroy);
    if mayDestroy && MayGo(s) {
      GoAgrees(v, s);
    } else {
      StayEffect(s, mayDestroy);
      SameRefsAgree(v, v, s, Finish(s, mayDestroy));
    }
  }

  lemma GoAgrees(v: Calls, s: State)
    requires Inv(s) && s.stage.Propagated? && MayGo(s) && ActorsAgree(v, s) && RefsAgree(v, s)
    ensures ActorsAgree(v, Finish(s, true)) && RefsAgree(v, Finish(s, true))
  {
    var r, a := Finish(s, true), s.stage.actor;
    assert Outstanding(s, a) > 0;
    GoEffect(s);
    FinishBusy(s, true);
    GoneAgrees(v, s, r, a);
    SparedIsExact(s, r, a);
    SparedAgrees(v, s, r, a);
  }

  lemma GoneAgrees(v: Calls, s: State, r: State, a: Actor)
    requires ActorsAgree(v, s) && a in s.alive
    requires r.destroyed == s.destroyed + [a] && r.alive == s.alive - {a}
    requires r.deleted == s.deleted && r.busy == s.busy
    ensures ActorsAgree(v, r)
  {
  }

  /** A destroyed object takes its references with it, and no others. */
  lemma SparedIsExact(s: State, r: State, a: Actor)
    requires LinksOk(s) && LinksOk(r) && Spared(s, r, a) && a !in r.alive
    ensures forall q {:trigger q in r.owner} {:trigger q in s.owner} ::
      q in r.owner <==> q in s.owner && s.owner[q] != a
    ensures forall q {:trigger q in r.ptr} {:trigger q in s.ptr} :: q in r.ptr <==> q in s.ptr && q in r.owner
  {
    forall q ensures q in r.owner <==> q in s.owner && s.owner[q] != a {
      if q in r.owner { assert r.owner[q] in r.alive; }
    }
    forall q ensures q in r.ptr <==> q in s.ptr && q in r.owner {
      if q in s.ptr { assert q in s.owner; }
    }
  }

  lemma SparedAgrees(v: Calls, s: State, r: State, a: Actor)
    requires RefsAgree(v, s) && Spared(s, r, a) && r.destroyed == s.destroyed + [a]
    requires forall q {:trigger q in r.owner} {:trigger q in s.owner} ::
      q in r.owner <==> q in s.owner && s.owner[q] != a
    requires forall q {:trigger q in r.ptr} {:trigger q in s.ptr} :: q in r.ptr <==> q in s.ptr && q in r.owner
    ensures RefsAgree(v, r)
  {
    forall q
      ensures q in r.owner <==> q in v.holder && v.holder[q] !in r.destroyed
      ensures q in r.owner ==> r.owner[q] == v.holder[q]
      ensures q in r.ptr <==> q in v.target && q in r.owner
      ensures q in r.ptr ==> r.ptr[q] == v.target[q]
    {
      assert q in s.owner <==> q in v.holder && v.holder[q] !in s.destroyed;
      assert q in s.ptr <==> q in v.target && q in s.owner;
    }
  }

  lemma FinishBusy(s: State, mayDestroy: bool)
    requires Inv(s) && s.stage.Propagated?
    ensures Finish(s, mayDestroy).busy == s.busy
  {
  }

  lemma PropagateAgrees(v: Calls, s: State)
    requires Inv(s) && s.stage.Holding? && ActorsAgree(v, s) && RefsAgree(v, s)
    ensures ActorsAgree(v, Propagate(s)) && RefsAgree(v, Propagate(s))
  {
    PropagateEffect(s);
    if s.stage.actor !in s.shutdown {
      DependentsOwned(s, s.stage.actor);
      DeleteOwnersKeeps(s, Deps(s, s.stage.actor));
    }
  }

  lemma StepAgrees(v: Calls, s: State, op: Op)
    requires Inv(s) && Enabled(s, op) && ActorsAgree(v, s) && RefsAgree(v, s)
    ensures ActorsAgree(Record(v, op), Step(s, op)) && RefsAgree(Record(v, op), Step(s, op))
  {
    match op
    case OpNewRef(c, q) => NewRefAgrees(v, s, c, q);
    case OpReset(q, to) => ResetAgrees(v, s, q, to);
    case OpPropagate => PropagateAgrees(v, s);
    case OpFinish(mayDestroy) => FinishAgrees(v, s, mayDestroy);
    case _ => OthersAgree(v, s, op);
  }

  lemma OthersAgree(v: Calls, s: State, op: Op)
    requires Inv(s) && Enabled(s, op) && ActorsAgree(v, s) && RefsAgree(v, s)
    requires op.OpCreate? || op.OpDelete? || op.OpRetry? || op.OpAcquire? || op.OpRelease? || op.OpTake?
    ensures ActorsAgree(Record(v, op), Step(s, op)) && RefsAgree(Record(v, op), Step(s, op))
  {
    OthersDo(s, op);
    SameRefsAgree(v, Record(v, op), s, Step(s, op));
    DoneAgrees(v, s, op, Step(s, op));
  }

  /** What an operation does to the actors when it leaves the references alone. */
  ghost predicate Done(s: State, op: Op, r: State) {
    && r.alive == (if op.OpCreate? then s.alive + {op.actor} else s.alive)
    && r.busy == (if op.OpAcquire? then s.busy + {op.actor} else if op.OpRelease? then s.busy - {op.actor} else s.busy)
    && r.deleted == (if op.OpDelete? then s.deleted + {op.actor} else s.deleted)
    && r.destroyed == s.destroyed && r.ptr == s.ptr && r.owner == s.owner
  }

  lemma OthersDo(s: State, op: Op)
    requires Inv(s) && Enabled(s, op)
    requires op.OpCreate? || op.OpDelete? || op.OpRetry? || op.OpAcquire? || op.OpRelease? || op.OpTake?
    ensures Done(s, op, Step(s, op))
  {
    match op
    case OpCreate(a) => CreateDoes(s, a);
    case OpDelete(a) => DeleteDoes(s, a);
    case OpRetry(a) => RetryDoes(s, a);
    case OpAcquire(a) => AcquireDoes(s, a);
    case OpRelease(a) => ReleaseDoes(s, a);
    case OpTake => TakeDoes(s);
  }

  lemma CreateDoes(s: State, a: Actor)
    requires Inv(s) && a !in s.alive && a !in s.destroyed
    ensures Done(s, OpCreate(a), Create(s, a))
  {
  }

  lemma DeleteDoes(s: State, a: Actor)
    ensures Done(s, OpDelete(a), Delete(s, a))
  {
    if a in s.deleted { assert s.deleted + {a} == s.deleted; }
  }

  lemma RetryDoes(s: State, a: Actor)
    requires Inv(s) && a in s.alive && a in s.deleted
    ensures Done(s, OpRetry(a), RetryDelete(s, a))
  {
  }

  lemma AcquireDoes(s: State, a: Actor)
    requires Inv(s) && a in s.alive
    ensures Done(s, OpAcquire(a), Acquire(s, a))
  {
  }

  lemma ReleaseDoes(s: State, a: Actor)
    requires Inv(s) && a in s.alive
    ensures Done(s, OpRelease(a), Release(s, a))
  {
    var r, s1 := Release(s, a), s.(busy := s.busy - {a});
    assert r == if a in s.deleted then Post(s1, a) else s1;
  }

  lemma TakeDoes(s: State)
    requires Inv(s) && s.stage.Idle? && s.queue != []
    ensures Done(s, OpTake, Take(s))
  {
  }

  lemma DoneAgrees(v: Calls, s: State, op: Op, r: State)
    requires Enabled(s, op) && ActorsAgree(v, s) && Done(s, op, r)
    requires op.OpCreate? || op.OpDelete? || op.OpRetry? || op.OpAcquire? || op.OpRelease? || op.OpTake?
    ensures ActorsAgree(Record(v, op), r)
  {
  }

  lemma SameRefsAgree(v: Calls, w: Calls, s: State, r: State)
    requires RefsAgree(v, s) && w.holder == v.holder && w.target == v.target
    requires r.ptr == s.ptr && r.owner == s.owner && r.destroyed == s.destroyed
    ensures RefsAgree(w, r)
  {
  }

  lemma NewRefAgrees(v: Calls, s: State, c: Actor, q: Ref)
    requires Inv(s) && c in s.alive && q !in s.owner && ActorsAgree(v, s) && RefsAgree(v, s)
    ensures ActorsAgree(Record(v, OpNewRef(c, q)), NewRef(s, c, q))
    ensures RefsAgree(Record(v, OpNewRef(c, q)), NewRef(s, c, q))
  {
    assert q !in s.ptr;
  }

  lemma ResetAgrees(v: Calls, s: State, q: Ref, to: Option<Actor>)
    requires Inv(s) && Enabled(s, OpReset(q, to)) && ActorsAgree(v, s) && RefsAgree(v, s)
    ensures ActorsAgree(Record(v, OpReset(q, to)), Reset(s, q, to))
    ensures RefsAgree(Record(v, OpReset(q, to)), Reset(s, q, to))
  {
    ResetMoves(s, q, to);
    MovedAgrees(v, s, q, to, Reset(s, q, to));
  }

  lemma MovedAgrees(v: Calls, s: State, q: Ref, to: Option<Actor>, r: State)
    requires q in s.owner && Moved(s, q, to, r) && ActorsAgree(v, s) && RefsAgree(v, s)
    ensures ActorsAgree(Record(v, OpReset(q, to)), r) && RefsAgree(Record(v, OpReset(q, to)), r)
  {
  }

  /**
   * In every run the state is what the callers made it, less what was destroyed: an actor is alive if and only
   * if it was created and not destroyed, a reference points where it was last set as long as its holder lives,
   * MayDelete is false from Acquire to Release, and every actor that was asked to go is marked deleted.
   */
  lemma {:induction false} RunAgrees(v: Calls, s: State, ops: seq<Op>, t: State)
    requires Inv(s) && ActorsAgree(v, s) && RefsAgree(v, s) && Run(s, ops) == Some(t)
    ensures ActorsAgree(RecordAll(v, ops), t) && RefsAgree(RecordAll(v, ops), t)
    decreases |ops|
  {
    if ops != [] {
      StepAgrees(v, s, ops[0]);
      RunAgrees(Record(v, ops[0]), Step(s, ops[0]), ops[1..], t);
    }
  }

  lemma StateFollowsCalls(ops: seq<Op>, t: State)
    requires Inv(INIT) && Run(INIT, ops) == Some(t)
    ensures ActorsAgree(RecordAll(NO_CALLS, ops), t) && RefsAgree(RecordAll(NO_CALLS, ops), t)
  {
    RunAgrees(NO_CALLS, INIT, ops, t);
  }

  // ---- Events ----

  /** What makes an event for an actor: it becomes deleted, loses its last dependent, or is asked to try again. */
  ghost function Posts(s: State, op: Op, r: State, a: Actor): nat {
    (if a in r.deleted && a !in s.deleted then 1 else 0)
    + (if a in s.deleted && Deps(s, a) != [] && Deps(r, a) == [] then 1 else 0)
    + (if op == OpRetry(a) || (op == OpRelease(a) && a in s.deleted) then 1 else 0)
  }

  function Consumes(s: State, op: Op, a: Actor): nat {
    if op == OpFinish(true) && Held(s, a) == 1 then 1 else 0
  }

  /** One reference less: the only event is for a deleted actor that has lost its last dependent. */
  ghost predicate Balanced(s: State, r: State) {
    && r.deleted == s.deleted
    && (forall a {:trigger Outstanding(r, a)} :: Outstanding(r, a) ==
          Outstanding(s, a) + if a in s.deleted && Deps(s, a) != [] && Deps(r, a) == [] then 1 else 0)
    && (forall a {:trigger Deps(r, a)} :: Deps(s, a) == [] ==> Deps(r, a) == [])
  }

  lemma UnlinkBalanced(s: State, q: Ref)
    requires q in s.ptr && q in Deps(s, s.ptr[q])
    ensures Balanced(s, Unlink(s, q))
  {
    var p := s.ptr[q];
    var s1 := s.(deps := s.deps[p := Without(Deps(s, p), q)], ptr := s.ptr - {q});
    assert forall a {:trigger Deps(s1, a)} :: a != p ==> Deps(s1, a) == Deps(s, a);
    if p in s1.deleted && Deps(s1, p) == [] {
      PostBalanced(s, s1, p);
    } else {
      assert forall a {:trigger Outstanding(s1, a)} :: Outstanding(s1, a) == Outstanding(s, a);
    }
  }

  lemma PostBalanced(s: State, s1: State, p: Actor)
    requires s1 == s.(deps := s1.deps, ptr := s1.ptr) && p in s.deleted && Deps(s, p) != [] && Deps(s1, p) == []
    requires forall a {:trigger Deps(s1, a)} :: a != p ==> Deps(s1, a) == Deps(s, a)
    ensures Balanced(s, Post(s1, p))
  {
    PostOutstanding(s1, p);
    assert forall a {:trigger Outstanding(s1, a)} :: Outstanding(s1, a) == Outstanding(s, a);
    assert forall a {:trigger Deps(Post(s1, p), a)} :: Deps(Post(s1, p), a) == Deps(s1, a);
  }

  lemma BalancedTwice(s: State, s1: State, r: State)
    requires Balanced(s, s1) && Balanced(s1, r)
    ensures Balanced(s, r)
  {
    forall a ensures Outstanding(r, a) ==
      Outstanding(s, a) + if a in s.deleted && Deps(s, a) != [] && Deps(r, a) == [] then 1 else 0
    {
      assert Outstanding(s1, a) ==
        Outstanding(s, a) + if a in s.deleted && Deps(s, a) != [] && Deps(s1, a) == [] then 1 else 0;
      assert Deps(s1, a) == [] ==> Deps(r, a) == [];
    }
  }

  lemma {:induction false} DropRefsBalanced(s: State, a: Actor)
    requires InvBut(s, Some(a)) && Deps(s, a) == [] && a in s.deleted && Refcount(s, a) == 0 && a in s.alive
    ensures Balanced(s, DropRefs(s, a))
    decreases |Owned(s, a)|
  {
    if Owned(s, a) != [] {
      DropOneKeeps(s, a);
      DropOneBalanced(s, a);
      DropRefsBalanced(DropOne(s, a), a);
      BalancedTwice(s, DropOne(s, a), DropRefs(s, a));
    }
  }

  lemma DropOneBalanced(s: State, a: Actor)
    requires Owned(s, a) != [] && (Owned(s, a)[0] in s.ptr ==> Owned(s, a)[0] in Deps(s, s.ptr[Owned(s, a)[0]]))
    ensures Balanced(s, DropOne(s, a))
  {
    var q, r := Owned(s, a)[0], DropOne(s, a);
    var s1 := if q in s.ptr then Unlink(s, q) else s;
    if q in s.ptr { UnlinkBalanced(s, q); }
    assert forall b {:trigger Outstanding(r, b)} :: Outstanding(r, b) == Outstanding(s1, b);
    assert forall b {:trigger Deps(r, b)} :: Deps(r, b) == Deps(s1, b);
  }

  /** The event law of one operation for one actor. */
  ghost predicate Accounted(s: State, op: Op, r: State, a: Actor) {
    Outstanding(r, a) + Consumes(s, op, a) == Outstanding(s, a) + Posts(s, op, r, a)
  }

  /** The operation touches neither events nor dependents. */
  ghost predicate SameEvents(s: State, r: State) {
    r.queue == s.queue && r.stage == s.stage && r.deps == s.deps && r.deleted == s.deleted
  }

  lemma SameAccounted(s: State, op: Op, r: State, a: Actor)
    requires SameEvents(s, r) && (op.OpCreate? || op.OpNewRef? || op.OpAcquire?)
    ensures Accounted(s, op, r, a)
  {
    assert Deps(r, a) == Deps(s, a);
  }

  lemma PostAccounted(s: State, s1: State, op: Op, b: Actor, a: Actor)
    requires SameEvents(s, s1) && b in s.deleted && (op == OpRetry(b) || op == OpRelease(b))
    ensures Accounted(s, op, Post(s1, b), a)
  {
    PostOutstanding(s1, b);
    assert Outstanding(s1, a) == Outstanding(s, a);
    assert Deps(Post(s1, b), a) == Deps(s, a);
  }

  lemma ReleaseAccounted(s: State, b: Actor, a: Actor)
    requires Inv(s) && b in s.alive
    ensures Accounted(s, OpRelease(b), Release(s, b), a)
  {
    var r, s1 := Release(s, b), s.(busy := s.busy - {b});
    assert r == if b in s.deleted then Post(s1, b) else s1;
    if b in s.deleted {
      PostAccounted(s, s1, OpRelease(b), b, a);
    } else {
      assert Deps(r, a) == Deps(s, a);
    }
  }

  lemma DeleteAccounted(s: State, b: Actor, a: Actor)
    ensures Accounted(s, OpDelete(b), Delete(s, b), a)
  {
    var r := Delete(s, b);
    assert Deps(r, a) == Deps(s, a);
    if b !in s.deleted {
      var s1 := s.(deleted := s.deleted + {b});
      PostOutstanding(s1, b);
      assert Outstanding(s1, a) == Outstanding(s, a);
    }
  }

  lemma TakeAccounted(s: State, a: Actor)
    requires Inv(s) && s.stage.Idle? && s.queue != []
    ensures Accounted(s, OpTake, Take(s), a)
  {
    assert s.queue == [s.queue[0]] + s.queue[1..];
    assert Deps(Take(s), a) == Deps(s, a);
  }

  lemma ResetAccounted(s: State, q: Ref, to: Option<Actor>, a: Actor)
    requires Inv(s) && Enabled(s, OpReset(q, to))
    ensures Accounted(s, OpReset(q, to), Reset(s, q, to), a)
  {
    if q in s.ptr {
      UnlinkKeeps(s, q, None);
      UnlinkBalanced(s, q);
      var s1 := Unlink(s, q);
      ResetRest(s, q, to, s1);
      LinkAccounted(s, s1, q, to, a);
    } else {
      LinkAccounted(s, s, q, to, a);
    }
  }

  /** A new dependent is no event, and joins only an actor that is not deleted. */
  lemma LinkAccounted(s: State, s1: State, q: Ref, to: Option<Actor>, a: Actor)
    requires Balanced(s, s1) && q !in s1.ptr && (to.Some? ==> to.value !in s1.deleted)
    ensures Accounted(s, OpReset(q, to), if to.Some? then Link(s1, q, to.value) else s1, a)
  {
    var r := if to.Some? then Link(s1, q, to.value) else s1;
    assert Outstanding(r, a) == Outstanding(s1, a);
    assert a in s.deleted ==> Deps(r, a) == Deps(s1, a);
  }

  lemma {:induction false} DeleteOwnersPosts(s: State, w: seq<Ref>, a: Actor)
    requires forall i {:trigger w[i]} :: 0 <= i < |w| ==> w[i] in s.owner
    ensures var r := DeleteOwners(s, w);
      && s.deleted <= r.deleted && r.deps == s.deps
      && Outstanding(r, a) == Outstanding(s, a) + if a in r.deleted && a !in s.deleted then 1 else 0
    decreases |w|
  {
    if w != [] {
      var b := s.owner[w[0]];
      DeleteAccounted(s, b, a);
      assert Deps(Delete(s, b), a) == Deps(s, a);
      DeleteOwnersPosts(Delete(s, b), w[1..], a);
    }
  }

  lemma PropagateAccounted(s: State, a: Actor)
    requires Inv(s) && s.stage.Holding?
    ensures Accounted(s, OpPropagate, Propagate(s), a)
  {
    var b := s.stage.actor;
    if b !in s.shutdown {
      DependentsOwned(s, b);
      DeleteOwnersKeeps(s, Deps(s, b));
      DeleteOwnersPosts(s, Deps(s, b), a);
      ShutdownAccounted(s, DeleteOwners(s, Deps(s, b)), Propagate(s), a);
    } else {
      ShutdownAccounted(s, s, Propagate(s), a);
    }
  }

  lemma ShutdownAccounted(s: State, s1: State, r: State, a: Actor)
    requires s.stage.Holding? && s1.stage == s.stage && s1.deps == s.deps && s.deleted <= s1.deleted
    requires Outstanding(s1, a) == Outstanding(s, a) + if a in s1.deleted && a !in s.deleted then 1 else 0
    requires r == s1.(shutdown := r.shutdown, stage := Propagated(s.stage.actor))
    ensures Accounted(s, OpPropagate, r, a)
  {
    assert Outstanding(r, a) == Outstanding(s1, a);
    assert Deps(r, a) == Deps(s, a);
  }

  lemma FinishAccounted(s: State, mayDestroy: bool, a: Actor)
    requires Inv(s) && s.stage.Propagated?
    ensures Accounted(s, OpFinish(mayDestroy), Finish(s, mayDestroy), a)
  {
    if mayDestroy {
      DoneAccounted(s, a);
    } else {
      var r := Finish(s, mayDestroy);
      assert multiset(r.queue) == multiset(s.queue) + multiset{s.stage.actor};
      assert Deps(r, a) == Deps(s, a);
    }
  }

  lemma DoneAccounted(s: State, a: Actor)
    requires Inv(s) && s.stage.Propagated?
    ensures Accounted(s, OpFinish(true), Finish(s, true), a)
  {
    var b := s.stage.actor;
    DropEventKeeps(s);
    var s1 := s.(refcount := s.refcount[b := Refcount(s, b) - 1], stage := Idle);
    assert Outstanding(s1, a) + Held(s, a) == Outstanding(s, a);
    assert Deps(s1, a) == Deps(s, a);
    if Refcount(s1, b) == 0 && Deps(s1, b) == [] && b !in s1.busy {
      DestroyBalanced(s1, b, a);
    }
  }

  lemma DestroyBalanced(s: State, b: Actor, a: Actor)
    requires InvBut(s, Some(b)) && b in s.alive && b in s.deleted && b in s.shutdown
    requires Refcount(s, b) == 0 && Deps(s, b) == [] && b !in s.busy
    ensures var r := Destroy(s, b);
      && r.deleted == s.deleted
      && Outstanding(r, a) ==
           Outstanding(s, a) + if a in s.deleted && Deps(s, a) != [] && Deps(r, a) == [] then 1 else 0
  {
    DropRefsBalanced(s, b);
    var s1, r := DropRefs(s, b), Destroy(s, b);
    assert Outstanding(r, a) == Outstanding(s1, a) && Deps(r, a) == Deps(s1, a);
  }

  /**
   * Every event has one cause and is handled once: in any step the number of outstanding events of an actor, and
   * with it its reference count, grows by one when the actor is deleted, when a deleted actor loses its last
   * dependent and when it is asked to try again, falls by one when an event is done with, and else stays.
   */
  lemma EventLaw(s: State, op: Op, a: Actor)
    requires Inv(s) && Enabled(s, op)
    ensures Accounted(s, op, Step(s, op), a)
    ensures Refcount(Step(s, op), a) + Consumes(s, op, a) == Refcount(s, a) + Posts(s, op, Step(s, op), a)
  {
    StepAccounted(s, op, a);
    assert Refcount(s, a) == Outstanding(s, a) && Refcount(Step(s, op), a) == Outstanding(Step(s, op), a);
  }

  lemma StepAccounted(s: State, op: Op, a: Actor)
    requires Inv(s) && Enabled(s, op)
    ensures Accounted(s, op, Step(s, op), a)
  {
    match op
    case OpCreate(b) => SameAccounted(s, op, Create(s, b), a);
    case OpNewRef(c, q) => SameAccounted(s, op, NewRef(s, c, q), a);
    case OpReset(q, to) => ResetAccounted(s, q, to, a);
    case OpDelete(b) => DeleteAccounted(s, b, a);
    case OpRetry(b) => PostAccounted(s, s, op, b, a);
    case OpAcquire(b) => SameAccounted(s, op, Acquire(s, b), a);
    case OpRelease(b) => ReleaseAccounted(s, b, a);
    case OpTake => TakeAccounted(s, a);
    case OpPropagate => PropagateAccounted(s, a);
    case OpFinish(mayDestroy) => FinishAccounted(s, mayDestroy, a);
  }

  // ---- The order of events ----

  lemma UnlinkAppends(s: State, q: Ref)
    requires q in s.ptr && q in Deps(s, s.ptr[q])
    ensures s.queue <= Unlink(s, q).queue
  {
  }

  lemma {:induction false} DeleteOwnersAppends(s: State, w: seq<Ref>)
    requires forall i {:trigger w[i]} :: 0 <= i < |w| ==> w[i] in s.owner
    ensures s.queue <= DeleteOwners(s, w).queue
    decreases |w|
  {
    if w != [] {
      DeleteOwnersAppends(Delete(s, s.owner[w[0]]), w[1..]);
    }
  }

  lemma {:induction false} DropRefsAppends(s: State, a: Actor)
    requires InvBut(s, Some(a)) && Deps(s, a) == [] && a in s.deleted && Refcount(s, a) == 0 && a in s.alive
    ensures s.queue <= DropRefs(s, a).queue
    decreases |Owned(s, a)|
  {
    if Owned(s, a) != [] {
      DropOneKeeps(s, a);
      if Owned(s, a)[0] in s.ptr { UnlinkAppends(s, Owned(s, a)[0]); }
      DropRefsAppends(DropOne(s, a), a);
    }
  }

  lemma FinishAppends(s: State, mayDestroy: bool)
    requires Inv(s) && s.stage.Propagated?
    ensures s.queue <= Finish(s, mayDestroy).queue
  {
    if mayDestroy {
      var b := s.stage.actor;
      DropEventKeeps(s);
      var s1 := s.(refcount := s.refcount[b := Refcount(s, b) - 1], stage := Idle);
      if Refcount(s1, b) == 0 && Deps(s1, b) == [] && b !in s1.busy {
        DropRefsAppends(s1, b);
      }
    }
  }

  lemma ResetAppends(s: State, q: Ref, to: Option<Actor>)
    requires Inv(s) && Enabled(s, OpReset(q, to))
    ensures s.queue <= Reset(s, q, to).queue
  {
    if q in s.ptr {
      UnlinkKeeps(s, q, None);
      UnlinkAppends(s, q);
      ResetRest(s, q, to, Unlink(s, q));
    }
  }

  lemma PropagateAppends(s: State)
    requires Inv(s) && s.stage.Holding?
    ensures s.queue <= Propagate(s).queue
  {
    if s.stage.actor !in s.shutdown {
      DependentsOwned(s, s.stage.actor);
      DeleteOwnersKeeps(s, Deps(s, s.stage.actor));
      DeleteOwnersAppends(s, Deps(s, s.stage.actor));
    }
  }

  /** Events are handled first in, first out: only Take removes one, the oldest, and new ones join at the end. */
  lemma EventsInOrder(s: State, op: Op)
    requires Inv(s) && Enabled(s, op)
    ensures var r := Step(s, op);
      if op == OpTake then r.stage.Holding? && s.queue == [r.stage.actor] + r.queue else s.queue <= r.queue
  {
    match op
    case OpReset(q, to) => ResetAppends(s, q, to);
    case OpPropagate => PropagateAppends(s);
    case OpFinish(mayDestroy) => FinishAppends(s, mayDestroy);
    case _ => CallsAppend(s, op);
  }

  lemma CallsAppend(s: State, op: Op)
    requires Inv(s) && Enabled(s, op) && !op.OpReset? && !op.OpPropagate? && !op.OpFinish?
    ensures var r := Step(s, op);
      if op == OpTake then r.stage.Holding? && s.queue == [r.stage.actor] + r.queue else s.queue <= r.queue
  {
    match op
    case OpRelease(a) =>
      var s1 := s.(busy := s.busy - {a});
      assert Release(s, a) == if a in s.deleted then Post(s1, a) else s1;
    case _ =>
  }
}
