/** Cascading deletion: state, steps and invariant of the lifetime manager. */
module Lifetime {
  import opened Options

  type Actor = nat
  type Ref = nat

  /** What the manager's task is doing: waiting, holding an event, or holding one whose deletes are propagated. */
  datatype Stage = Idle | Holding(actor: Actor) | Propagated(actor: Actor)

  /**
   * ptr and owner belong to the references: ptr is the actor a set reference depends on, owner the object that
   * contains the reference. deps holds the intrusive dependent lists. busy holds the actors whose MayDelete is
   * false. destroyed lists the destroyed actors in the order of their destruction.
   */
  datatype State = State(
    alive: set<Actor>,
    deleted: set<Actor>,
    shutdown: set<Actor>,
    refcount: map<Actor, nat>,
    deps: map<Actor, seq<Ref>>,
    ptr: map<Ref, Actor>,
    owner: map<Ref, Actor>,
    owned: map<Actor, seq<Ref>>,
    busy: set<Actor>,
    queue: seq<Actor>,
    stage: Stage,
    destroyed: seq<Actor>)

  function Deps(s: State, a: Actor): seq<Ref> {
    if a in s.deps then s.deps[a] else []
  }

  function Owned(s: State, a: Actor): seq<Ref> {
    if a in s.owned then s.owned[a] else []
  }

  function Refcount(s: State, a: Actor): nat {
    if a in s.refcount then s.refcount[a] else 0
  }

  function Held(s: State, a: Actor): nat {
    if s.stage.Idle? || s.stage.actor != a then 0 else 1
  }

  /** The events of an actor that are queued or being processed. */
  ghost function Outstanding(s: State, a: Actor): nat {
    multiset(s.queue)[a] + Held(s, a)
  }

  // ---- Elementary updates ----

  /** refcount_++ and EnqueueNoIncrement. */
  function Post(s: State, a: Actor): State {
    s.(refcount := s.refcount[a := Refcount(s, a) + 1], queue := s.queue + [a])
  }

  /** LifetimeActor::Delete. */
  function Delete(s: State, a: Actor): State {
    if a in s.deleted then s else Post(s.(deleted := s.deleted + {a}), a)
  }

  function IndexOf(w: seq<Ref>, r: Ref): (i: nat)
    requires r in w
    ensures i < |w| && w[i] == r
  {
    if w[0] == r then 0 else 1 + IndexOf(w[1..], r)
  }

  function Without(w: seq<Ref>, r: Ref): seq<Ref>
    requires r in w
  {
    w[..IndexOf(w, r)] + w[IndexOf(w, r) + 1..]
  }

  /** DependencyAdd, which asserts that the actor is not deleted, and the pointer of the reference. */
  function Link(s: State, r: Ref, p: Actor): State
    requires p !in s.deleted && r !in s.ptr
  {
    s.(deps := s.deps[p := Deps(s, p) + [r]], ptr := s.ptr[r := p])
  }

  /** DependencyRemove: the last dependent of a deleted actor posts an event for it. */
  function Unlink(s: State, r: Ref): State
    requires r in s.ptr && r in Deps(s, s.ptr[r])
  {
    var p := s.ptr[r];
    var s1 := s.(deps := s.deps[p := Without(Deps(s, p), r)], ptr := s.ptr - {r});
    if p in s1.deleted && Deps(s1, p) == [] then Post(s1, p) else s1
  }

  // ---- Invariant ----

  ghost predicate NoDuplicates(w: seq<Ref>) {
    forall i, j {:trigger w[i], w[j]} :: 0 <= i < j < |w| ==> w[i] != w[j]
  }

  /** Dependent lists and reference pointers agree, and references belong to living objects. */
  ghost predicate LinksOk(s: State) {
    && (forall a {:trigger Deps(s, a)} :: NoDuplicates(Deps(s, a)))
    && (forall a, r {:trigger r in Deps(s, a)} :: r in Deps(s, a) ==> r in s.ptr && s.ptr[r] == a)
    && (forall r {:trigger r in s.ptr} :: r in s.ptr ==>
          r in Deps(s, s.ptr[r]) && s.ptr[r] in s.alive && r in s.owner)
    && (forall r {:trigger r in s.owner} :: r in s.owner ==> s.owner[r] in s.alive && r in Owned(s, s.owner[r]))
    && (forall a {:trigger Owned(s, a)} :: NoDuplicates(Owned(s, a)))
    && (forall a, r {:trigger r in Owned(s, a)} :: r in Owned(s, a) ==> r in s.owner && s.owner[r] == a)
  }

  /** The reference count of an actor is the number of its outstanding events; events are for deleted actors. */
  ghost predicate EventsOk(s: State) {
    && (forall a {:trigger Refcount(s, a)} {:trigger Outstanding(s, a)} :: Refcount(s, a) == Outstanding(s, a))
    && (forall a {:trigger Outstanding(s, a)} :: Outstanding(s, a) > 0 ==> a in s.alive && a in s.deleted)
    && (s.stage.Propagated? ==> s.stage.actor in s.shutdown)
  }

  ghost predicate FlagsOk(s: State) {
    && s.shutdown <= s.deleted
    && (forall a {:trigger a in s.deleted} :: a in s.deleted ==> a in s.alive || a in s.destroyed)
    && (forall a {:trigger a in s.destroyed} :: a in s.destroyed ==> a in s.deleted && a !in s.alive)
    && NoDuplicates(s.destroyed)
  }

  /** Once an actor is shut down, everything that depends on it is deleted. */
  ghost predicate CascadeOk(s: State) {
    forall r {:trigger r in s.ptr} :: r in s.ptr && r in s.owner && s.ptr[r] in s.shutdown ==> s.owner[r] in s.deleted
  }

  /** A deleted actor without an event waits for a dependent or for MayDelete; x is exempt while it is destroyed. */
  ghost predicate NoLostEventBut(s: State, x: Option<Actor>) {
    forall a {:trigger a in s.deleted} :: a in s.deleted && a in s.alive && x != Some(a) ==>
      Outstanding(s, a) > 0 || (a in s.shutdown && (Deps(s, a) != [] || a in s.busy))
  }

  ghost predicate InvBut(s: State, x: Option<Actor>) {
    LinksOk(s) && EventsOk(s) && FlagsOk(s) && CascadeOk(s) && NoLostEventBut(s, x)
  }

  ghost predicate Inv(s: State) {
    InvBut(s, None)
  }

  // ---- Posting events ----

  lemma PostOutstanding(s: State, a: Actor)
    ensures forall b {:trigger Outstanding(Post(s, a), b)} ::
      Outstanding(Post(s, a), b) == Outstanding(s, b) + if b == a then 1 else 0
    ensures forall b {:trigger Refcount(Post(s, a), b)} ::
      Refcount(Post(s, a), b) == Refcount(s, b) + if b == a then 1 else 0
  {
    assert multiset(s.queue + [a]) == multiset(s.queue) + multiset{a};
  }

  lemma SameLinks(s: State, r: State)
    requires LinksOk(s) && r.deps == s.deps && r.ptr == s.ptr
    requires r.owner == s.owner && r.owned == s.owned && r.alive == s.alive
    ensures LinksOk(r)
    ensures forall a {:trigger Deps(r, a)} :: Deps(r, a) == Deps(s, a)
  {
    assert forall a {:trigger Deps(r, a)} :: Deps(r, a) == Deps(s, a);
    assert forall a {:trigger Owned(r, a)} :: Owned(r, a) == Owned(s, a);
  }

  lemma PostKeeps(s: State, a: Actor, x: Option<Actor>)
    requires InvBut(s, x) && a in s.alive && a in s.deleted
    ensures InvBut(Post(s, a), x) && Outstanding(Post(s, a), a) > 0
  {
    var r := Post(s, a);
    PostOutstanding(s, a);
    SameLinks(s, r);
    PostEvents(s, a);
  }

  lemma PostEvents(s: State, a: Actor)
    requires EventsOk(s) && a in s.alive && a in s.deleted
    ensures EventsOk(Post(s, a))
  {
    PostOutstanding(s, a);
    var r := Post(s, a);
    forall b ensures Refcount(r, b) == Outstanding(r, b) {
      assert Refcount(s, b) == Outstanding(s, b);
    }
  }

  lemma DeleteKeeps(s: State, a: Actor, x: Option<Actor>)
    requires InvBut(s, x) && a in s.alive
    ensures InvBut(Delete(s, a), x) && a in Delete(s, a).deleted
  {
    if a !in s.deleted {
      var s1 := s.(deleted := s.deleted + {a});
      var r := Delete(s, a);
      SameLinks(s, r);
      PostOutstanding(s1, a);
      forall b
        ensures Refcount(r, b) == Outstanding(r, b)
        ensures Outstanding(r, b) > 0 ==> b in r.alive && b in r.deleted
      {
        assert Refcount(s, b) == Outstanding(s, b) == Outstanding(s1, b);
        assert Refcount(s1, b) == Refcount(s, b);
      }
    }
  }

  // ---- Linking and unlinking references ----

  lemma WithoutFacts(w: seq<Ref>, r: Ref)
    requires NoDuplicates(w) && r in w
    ensures NoDuplicates(Without(w, r)) && |Without(w, r)| == |w| - 1
    ensures forall q {:trigger q in Without(w, r)} :: q in Without(w, r) <==> q in w && q != r
  {
    var i := IndexOf(w, r);
    var v := Without(w, r);
    assert forall j {:trigger v[j]} :: 0 <= j < |v| ==> v[j] == if j < i then w[j] else w[j + 1];
    forall q | q in w && q != r ensures q in v {
      var j :| 0 <= j < |w| && w[j] == q;
      assert v[if j < i then j else j - 1] == q;
    }
  }

  /** The pointer part of Unlink. */
  function Detached(s: State, r: Ref): State
    requires r in s.ptr && r in Deps(s, s.ptr[r])
  {
    s.(deps := s.deps[s.ptr[r] := Without(Deps(s, s.ptr[r]), r)], ptr := s.ptr - {r})
  }

  lemma DetachLinks(s: State, r: Ref)
    requires LinksOk(s) && r in s.ptr
    ensures LinksOk(Detached(s, r))
    ensures forall a {:trigger Deps(Detached(s, r), a)} :: a != s.ptr[r] ==> Deps(Detached(s, r), a) == Deps(s, a)
  {
    var p := s.ptr[r];
    var t := Detached(s, r);
    WithoutFacts(Deps(s, p), r);
    assert forall a {:trigger Deps(t, a)} :: Deps(t, a) == if a == p then Without(Deps(s, p), r) else Deps(s, a);
    assert forall a {:trigger Owned(t, a)} :: Owned(t, a) == Owned(s, a);
  }

  lemma UnlinkKeeps(s: State, r: Ref, x: Option<Actor>)
    requires InvBut(s, x) && r in s.ptr
    ensures r in Deps(s, s.ptr[r]) && InvBut(Unlink(s, r), x)
  {
    var p := s.ptr[r];
    var s1 := Detached(s, r);
    DetachLinks(s, r);
    assert forall b {:trigger Outstanding(s1, b)} :: Outstanding(s1, b) == Outstanding(s, b);
    assert forall b {:trigger Refcount(s1, b)} :: Refcount(s1, b) == Refcount(s, b);
    if p in s1.deleted && Deps(s1, p) == [] {
      DetachedPosts(s, r, x);
    }
  }

  lemma DetachedPosts(s: State, r: Ref, x: Option<Actor>)
    requires InvBut(s, x) && r in s.ptr && s.ptr[r] in s.deleted && LinksOk(Detached(s, r))
    requires forall a {:trigger Deps(Detached(s, r), a)} :: a != s.ptr[r] ==> Deps(Detached(s, r), a) == Deps(s, a)
    ensures InvBut(Post(Detached(s, r), s.ptr[r]), x)
  {
    var p := s.ptr[r];
    var s1 := Detached(s, r);
    var t := Post(s1, p);
    assert EventsOk(s1) by {
      assert forall b {:trigger Refcount(s1, b)} :: Refcount(s1, b) == Refcount(s, b);
      assert forall b {:trigger Outstanding(s1, b)} :: Outstanding(s1, b) == Outstanding(s, b);
    }
    PostEvents(s1, p);
    SameLinks(s1, t);
    DetachedWaits(s, r, x);
  }

  lemma DetachedWaits(s: State, r: Ref, x: Option<Actor>)
    requires NoLostEventBut(s, x) && r in s.ptr && r in Deps(s, s.ptr[r])
    requires forall a {:trigger Deps(Detached(s, r), a)} :: a != s.ptr[r] ==> Deps(Detached(s, r), a) == Deps(s, a)
    ensures NoLostEventBut(Post(Detached(s, r), s.ptr[r]), x)
  {
    var s1 := Detached(s, r);
    PostOutstanding(s1, s.ptr[r]);
    assert forall b {:trigger Outstanding(s1, b)} :: Outstanding(s1, b) == Outstanding(s, b);
    assert forall b {:trigger Deps(Post(s1, s.ptr[r]), b)} :: Deps(Post(s1, s.ptr[r]), b) == Deps(s1, b);
  }

  lemma LinkKeeps(s: State, r: Ref, p: Actor)
    requires Inv(s) && r in s.owner && r !in s.ptr && p in s.alive && p !in s.deleted
    ensures Inv(Link(s, r, p))
  {
    var t := Link(s, r, p);
    assert r !in Deps(s, p);
    LinkLinks(s, r, p);
    assert forall b {:trigger Outstanding(t, b)} :: Outstanding(t, b) == Outstanding(s, b);
    assert forall b {:trigger Refcount(t, b)} :: Refcount(t, b) == Refcount(s, b);
  }

  lemma AppendFacts(w: seq<Ref>, r: Ref)
    requires NoDuplicates(w) && r !in w
    ensures NoDuplicates(w + [r])
    ensures forall q {:trigger q in w + [r]} :: q in w + [r] <==> q in w || q == r
  {
  }

  lemma LinkLinks(s: State, r: Ref, p: Actor)
    requires LinksOk(s) && r in s.owner && r !in s.ptr && p in s.alive && p !in s.deleted
    ensures LinksOk(Link(s, r, p))
    ensures forall a {:trigger Deps(Link(s, r, p), a)} :: a != p ==> Deps(Link(s, r, p), a) == Deps(s, a)
  {
    var t := Link(s, r, p);
    assert forall a {:trigger Deps(t, a)} :: Deps(t, a) == if a == p then Deps(s, p) + [r] else Deps(s, a);
    LinkedDeps(s, r, p, t);
    assert forall a {:trigger Owned(t, a)} :: Owned(t, a) == Owned(s, a);
  }

  /** The half of LinksOk that speaks of the dependent lists. */
  ghost predicate DepsOk(s: State) {
    && (forall a {:trigger Deps(s, a)} :: NoDuplicates(Deps(s, a)))
    && (forall a, r {:trigger r in Deps(s, a)} :: r in Deps(s, a) ==> r in s.ptr && s.ptr[r] == a)
    && (forall r {:trigger r in s.ptr} :: r in s.ptr ==>
          r in Deps(s, s.ptr[r]) && s.ptr[r] in s.alive && r in s.owner)
  }

  lemma LinkedDeps(s: State, r: Ref, p: Actor, t: State)
    requires DepsOk(s) && r in s.owner && r !in s.ptr && p in s.alive
    requires t.ptr == s.ptr[r := p] && t.alive == s.alive && t.owner == s.owner
    requires forall a {:trigger Deps(t, a)} :: Deps(t, a) == if a == p then Deps(s, p) + [r] else Deps(s, a)
    ensures DepsOk(t)
  {
    assert r !in Deps(s, p);
    AppendFacts(Deps(s, p), r);
  }
}
