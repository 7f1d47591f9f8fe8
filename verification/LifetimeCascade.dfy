/** Dependents are destroyed first, and a cascade destroys exactly the transitive dependents. */
module LifetimeCascade {
  import opened Options
  import opened Lifetime
  import opened LifetimeRuns

  /** Reference q makes the object of c depend on a. */
  ghost predicate Linked(s: State, q: Ref, c: Actor, a: Actor) {
    q in s.ptr && s.ptr[q] == a && q in s.owner && s.owner[q] == c
  }

  /** c is destroyed, and before a if a is destroyed too. */
  ghost predicate Precedes(w: seq<Actor>, c: Actor, a: Actor) {
    c in w && forall j {:trigger w[j]} :: 0 <= j < |w| && w[j] == a ==> c in w[..j]
  }

  // ---- Order of destruction ----

  lemma PrecedesGrows(w: seq<Actor>, x: Actor, c: Actor, a: Actor)
    requires Precedes(w, c, a)
    ensures Precedes(w + [x], c, a)
  {
    forall j | 0 <= j < |w + [x]| && (w + [x])[j] == a ensures c in (w + [x])[..j] {
      if j < |w| {
        assert (w + [x])[..j] == w[..j];
      } else {
        assert (w + [x])[..j] == w;
      }
    }
  }

  lemma PrecedesFresh(w: seq<Actor>, c: Actor, a: Actor)
    requires a !in w && a != c
    ensures Precedes(w + [c], c, a)
  {
    assert (w + [c])[|w|] == c;
    assert forall j {:trigger (w + [c])[j]} :: 0 <= j < |w + [c]| ==> (w + [c])[j] == c || (w + [c])[j] in w;
  }

  lemma PrecedesTransitive(w: seq<Actor>, d: Actor, c: Actor, a: Actor)
    requires Precedes(w, d, c) && Precedes(w, c, a)
    ensures Precedes(w, d, a)
  {
    forall j | 0 <= j < |w| && w[j] == a ensures d in w[..j] {
      assert c in w[..j];
      var i :| 0 <= i < j && w[..j][i] == c;
      assert d in w[..i];
      assert w[..i] <= w[..j];
    }
  }

  /** The destroyed list only grows, by at most one actor a step. */
  lemma StepDestroys(s: State, op: Op)
    requires Inv(s) && Enabled(s, op)
    ensures s.deleted <= Step(s, op).deleted
    ensures Step(s, op).destroyed == s.destroyed
      || (s.stage.Propagated? && Step(s, op).destroyed == s.destroyed + [s.stage.actor])
  {
    if op.OpFinish? {
      FinishEffect(s, op.mayDestroy);
    } else {
      StepEffect(s, op);
    }
  }

  lemma LinkedAlive(s: State, q: Ref, c: Actor, a: Actor)
    requires Inv(s) && Linked(s, q, c, a)
    ensures a in s.alive && a !in s.destroyed && Deps(s, a) != [] && c in s.alive
  {
  }

  /** A step that does not reset the reference keeps the link or destroys the dependent. */
  lemma LinkStep(s: State, op: Op, q: Ref, c: Actor, a: Actor)
    requires Inv(s) && Enabled(s, op) && !(op.OpReset? && op.ref == q)
    requires Linked(s, q, c, a)
    ensures Linked(Step(s, op), q, c, a) || Precedes(Step(s, op).destroyed, c, a)
  {
    LinkedAlive(s, q, c, a);
    if !op.OpFinish? {
      StepEffect(s, op);
    } else {
      FinishEffect(s, op.mayDestroy);
      if op.mayDestroy && MayGo(s) && s.stage.actor == c {
        PrecedesFresh(s.destroyed, c, a);
      }
    }
  }

  predicate NoReset(ops: seq<Op>, q: Ref) {
    forall i {:trigger ops[i]} :: 0 <= i < |ops| ==> !(ops[i].OpReset? && ops[i].ref == q)
  }

  lemma {:induction false} LinkOverRun(s: State, ops: seq<Op>, t: State, q: Ref, c: Actor, a: Actor)
    requires Inv(s) && Run(s, ops) == Some(t) && NoReset(ops, q)
    requires Linked(s, q, c, a) || Precedes(s.destroyed, c, a)
    ensures Linked(t, q, c, a) || Precedes(t.destroyed, c, a)
    decreases |ops|
  {
    if ops != [] {
      var s1 := Step(s, ops[0]);
      if Precedes(s.destroyed, c, a) {
        StepDestroys(s, ops[0]);
        if s1.destroyed != s.destroyed {
          PrecedesGrows(s.destroyed, s.stage.actor, c, a);
        }
      } else {
        LinkStep(s, ops[0], q, c, a);
      }
      LinkOverRun(s1, ops[1..], t, q, c, a);
    }
  }

  /** References leading from a down to c: each makes the next actor depend on the one before. */
  ghost predicate Chain(s: State, qs: seq<Ref>, c: Actor, a: Actor)
    decreases |qs|
  {
    if qs == [] then c == a
    else qs[0] in s.ptr && s.ptr[qs[0]] == a && qs[0] in s.owner && Chain(s, qs[1..], c, s.owner[qs[0]])
  }

  /** An actor is destroyed after everything that transitively depended on it at any earlier point of the run. */
  lemma {:induction false} DependentsFirst(s: State, ops: seq<Op>, t: State, qs: seq<Ref>, c: Actor, a: Actor)
    requires Inv(s) && Run(s, ops) == Some(t) && qs != [] && Chain(s, qs, c, a)
    requires forall i {:trigger qs[i]} :: 0 <= i < |qs| ==> NoReset(ops, qs[i])
    requires a in t.destroyed
    ensures Precedes(t.destroyed, c, a)
    decreases |qs|
  {
    var b := s.owner[qs[0]];
    LinkOverRun(s, ops, t, qs[0], b, a);
    if Linked(t, qs[0], b, a) {
      LinkedAlive(t, qs[0], b, a);
    }
    if qs[1..] != [] {
      DependentsFirst(s, ops, t, qs[1..], c, b);
      PrecedesTransitive(t.destroyed, c, b, a);
    }
  }

  // ---- Completeness ----

  /** No event is outstanding and every MayDelete holds. */
  predicate Quiescent(s: State) {
    s.stage.Idle? && s.queue == [] && s.busy == {}
  }

  ghost predicate Ranked(s: State, rank: Actor -> nat) {
    forall q {:trigger q in s.ptr} :: q in s.ptr && q in s.owner ==> rank(s.owner[q]) < rank(s.ptr[q])
  }

  ghost predicate Acyclic(s: State) {
    exists rank: Actor -> nat :: Ranked(s, rank)
  }

  /** A deleted actor that is alive at rest waits for a deleted actor that depends on it. */
  lemma WaitsForDependent(s: State, a: Actor) returns (q: Ref)
    requires Inv(s) && Quiescent(s) && a in s.deleted && a in s.alive
    ensures q in s.ptr && s.ptr[q] == a && q in s.owner && s.owner[q] in s.deleted && s.owner[q] in s.alive
  {
    assert Outstanding(s, a) == 0;
    q := Deps(s, a)[0];
    assert q in Deps(s, a);
  }

  lemma {:induction false} NoneWaits(s: State, rank: Actor -> nat, a: Actor)
    requires Inv(s) && Quiescent(s) && Ranked(s, rank) && a in s.deleted
    ensures a !in s.alive
    decreases rank(a)
  {
    if a in s.alive {
      var q := WaitsForDependent(s, a);
      NoneWaits(s, rank, s.owner[q]);
    }
  }

  /** On an acyclic graph at rest every deleted actor has been destroyed. */
  lemma NothingLeft(s: State)
    requires Inv(s) && Quiescent(s) && Acyclic(s)
    ensures forall a {:trigger a in s.deleted} :: a in s.deleted <==> a in s.destroyed
    ensures s.alive !! s.deleted
  {
    var rank :| Ranked(s, rank);
    forall a | a in s.deleted ensures a !in s.alive {
      NoneWaits(s, rank, a);
    }
  }

  lemma {:induction false} DeletedStays(s: State, ops: seq<Op>, t: State)
    requires Inv(s) && Run(s, ops) == Some(t)
    ensures s.deleted <= t.deleted
    decreases |ops|
  {
    if ops != [] {
      StepDestroys(s, ops[0]);
      DeletedStays(Step(s, ops[0]), ops[1..], t);
    }
  }

  /** The dependents, at any point after the delete, of a deleted actor are destroyed once the system is at rest. */
  lemma CascadeReachesAll(s: State, ops: seq<Op>, t: State, qs: seq<Ref>, c: Actor, a: Actor)
    requires Inv(s) && Run(s, ops) == Some(t) && a in s.deleted && Chain(s, qs, c, a)
    requires forall i {:trigger qs[i]} :: 0 <= i < |qs| ==> NoReset(ops, qs[i])
    requires Quiescent(t) && Acyclic(t)
    ensures c in t.destroyed && a in t.destroyed && (c != a ==> Precedes(t.destroyed, c, a))
  {
    DeletedStays(s, ops, t);
    NothingLeft(t);
    if qs != [] {
      DependentsFirst(s, ops, t, qs, c, a);
    }
  }
}
