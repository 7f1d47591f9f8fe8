/** Binary radix trees over bit strings as values, and paths into them. */
module RadixTree {
  type Bits = seq<bool>

  /**
   * A node at bit position |bits|. The keys below it extend bits; data nodes also store bits as a key.
   * Internal nodes only branch.
   */
  datatype Tree<N> = Nil | Bin(id: N, bits: Bits, data: bool, left: Tree<N>, right: Tree<N>)

  /** GetBit: bits past the end read as 0. */
  predicate Bit(k: Bits, i: nat) { i < |k| && k[i] }

  function Child<N>(t: Tree<N>, b: bool): Tree<N>
    requires t.Bin?
  {
    if b then t.right else t.left
  }

  /** A child extends its parent's bits by the branch taken; internal nodes have two children. */
  ghost predicate Wf<N>(t: Tree<N>) {
    t.Bin? ==>
      && Wf(t.left) && Wf(t.right)
      && (t.left.Bin? ==> t.bits + [false] <= t.left.bits)
      && (t.right.Bin? ==> t.bits + [true] <= t.right.bits)
      && (!t.data ==> t.left.Bin? && t.right.Bin?)
  }

  ghost function Keys<N>(t: Tree<N>): set<Bits> {
    if t.Nil? then {} else (if t.data then {t.bits} else {}) + Keys(t.left) + Keys(t.right)
  }

  ghost function Ids<N>(t: Tree<N>): set<N> {
    if t.Nil? then {} else {t.id} + Ids(t.left) + Ids(t.right)
  }

  /** No node occurs twice. */
  ghost predicate Distinct<N>(t: Tree<N>) {
    t.Bin? ==>
      && Distinct(t.left) && Distinct(t.right)
      && t.id !in Ids(t.left) && t.id !in Ids(t.right) && Ids(t.left) !! Ids(t.right)
  }

  /** The number of data nodes and of internal nodes. */
  ghost function DataCount<N>(t: Tree<N>): nat {
    if t.Nil? then 0 else (if t.data then 1 else 0) + DataCount(t.left) + DataCount(t.right)
  }

  ghost function InternalCount<N>(t: Tree<N>): nat {
    if t.Nil? then 0 else (if t.data then 0 else 1) + InternalCount(t.left) + InternalCount(t.right)
  }

  // ---- Keys of a well-formed tree ----

  /** All keys of a subtree extend the bits of its root. */
  lemma {:induction false} KeysExtend<N>(t: Tree<N>, k: Bits)
    requires Wf(t) && t.Bin? && k in Keys(t)
    ensures t.bits <= k
    ensures k != t.bits || !t.data ==> |t.bits| < |k| && k in Keys(Child(t, k[|t.bits|]))
  {
    if k in Keys(t.left) {
      KeysExtend(t.left, k);
      assert k[|t.bits|] == t.left.bits[|t.bits|] == (t.bits + [false])[|t.bits|];
    } else if k in Keys(t.right) {
      KeysExtend(t.right, k);
      assert k[|t.bits|] == t.right.bits[|t.bits|] == (t.bits + [true])[|t.bits|];
    }
  }

  /** Following the bit at the root's position loses no key but the root's own. */
  lemma StepKey<N>(t: Tree<N>, k: Bits)
    requires Wf(t) && t.Bin? && !(t.data && t.bits == k)
    ensures k in Keys(t) <==> k in Keys(Child(t, Bit(k, |t.bits|)))
  {
    if k in Keys(t) { KeysExtend(t, k); }
  }

  /** The keys below a child carry the bit of the branch. */
  lemma BranchBit<N>(c: Tree<N>, bits: Bits, b: bool, k: Bits)
    requires Wf(c) && c.Bin? && bits + [b] <= c.bits && k in Keys(c)
    ensures bits <= k && |bits| < |k| && k[|bits|] == b
  {
    KeysExtend(c, k);
    assert k[|bits|] == c.bits[|bits|] == (bits + [b])[|bits|];
  }

  lemma KeysDisjoint<N>(t: Tree<N>)
    requires Wf(t) && t.Bin?
    ensures Keys(t.left) !! Keys(t.right) && t.bits !in Keys(t.left) && t.bits !in Keys(t.right)
  {
    forall k | k in Keys(t.left) ensures |k| > |t.bits| && !k[|t.bits|] { BranchBit(t.left, t.bits, false, k); }
    forall k | k in Keys(t.right) ensures |k| > |t.bits| && k[|t.bits|] { BranchBit(t.right, t.bits, true, k); }
  }

  lemma {:induction false} CountIsCardinality<N>(t: Tree<N>)
    requires Wf(t)
    ensures DataCount(t) == |Keys(t)|
  {
    if t.Bin? {
      CountIsCardinality(t.left);
      CountIsCardinality(t.right);
      KeysDisjoint(t);
      SizeOfParts(if t.data then {t.bits} else {}, Keys(t.left), Keys(t.right));
    }
  }

  lemma SizeOfParts(a: set<Bits>, b: set<Bits>, c: set<Bits>)
    requires a !! b && a !! c && b !! c
    ensures |a + b + c| == |a| + |b| + |c|
  {
    assert |a + b| == |a| + |b|;
    assert (a + b) !! c;
  }

  /** A non-empty well-formed tree stores a key. */
  lemma {:induction false} HasKey<N>(t: Tree<N>)
    requires Wf(t) && t.Bin?
    ensures Keys(t) != {}
  {
    if t.data { assert t.bits in Keys(t); } else {
      HasKey(t.left);
      var k :| k in Keys(t.left);
      assert k in Keys(t);
    }
  }

  // ---- Common prefixes ----

  function Common(a: Bits, b: Bits): (n: nat)
    ensures n <= |a| && n <= |b| && a[..n] == b[..n]
    ensures n < |a| && n < |b| ==> a[n] != b[n]
  {
    if a == [] || b == [] || a[0] != b[0] then 0
    else
      var n := Common(a[1..], b[1..]);
      assert a[..n + 1] == [a[0]] + a[1..][..n] && b[..n + 1] == [b[0]] + b[1..][..n];
      n + 1
  }

  lemma CommonLonger(a: Bits, b: Bits, p: Bits)
    requires p <= a && p <= b
    ensures |p| <= Common(a, b)
  {
    assert forall i {:trigger a[i]} :: 0 <= i < |p| ==> a[i] == p[i] == b[i];
  }

  // ---- The data node that guides an insertion ----

  /** The bits of the data node at which a walk for k without any comparison ends. */
  ghost function Nearest<N>(t: Tree<N>, k: Bits): (r: Bits)
    requires Wf(t) && t.Bin?
    ensures r in Keys(t) && t.bits <= r
  {
    if t.data && |t.bits| >= |k| then t.bits
    else
      var c := Child(t, Bit(k, |t.bits|));
      if c.Nil? then t.bits
      else
        assert t.bits <= c.bits;
        Nearest(c, k)
  }

  lemma {:induction false} NearestIsKey<N>(t: Tree<N>, k: Bits)
    requires Wf(t) && t.Bin? && k in Keys(t)
    ensures Nearest(t, k) == k
  {
    if t.data && t.bits == k {
      var c := Child(t, Bit(k, |t.bits|));
    } else {
      KeysExtend(t, k);
      NearestIsKey(Child(t, Bit(k, |t.bits|)), k);
    }
  }

  // ---- Paths ----

  /** The way from the root to a subtree; hole says on which side of the node the subtree hangs. */
  datatype Path<N> = Top | Frame(id: N, bits: Bits, data: bool, hole: bool, other: Tree<N>, up: Path<N>)

  function Plug<N>(p: Path<N>, t: Tree<N>): Tree<N> {
    match p
    case Top => t
    case Frame(id, bits, data, hole, other, up) =>
      Plug(up, if hole then Bin(id, bits, data, other, t) else Bin(id, bits, data, t, other))
  }

  function Down<N>(p: Path<N>, t: Tree<N>, b: bool): Path<N>
    requires t.Bin?
  {
    Frame(t.id, t.bits, t.data, b, Child(t, !b), p)
  }

  /** The subtree fits below the last node of the path. */
  predicate Fits<N>(p: Path<N>, t: Tree<N>) {
    p.Frame? ==> if t.Nil? then p.data else p.bits + [p.hole] <= t.bits
  }

  ghost predicate WfPath<N>(p: Path<N>) {
    p.Frame? ==>
      && Wf(p.other) && WfPath(p.up)
      && (if p.other.Nil? then p.data else p.bits + [!p.hole] <= p.other.bits)
      && (p.up.Frame? ==> p.up.bits + [p.up.hole] <= p.bits)
  }

  ghost function PathKeys<N>(p: Path<N>): set<Bits> {
    if p.Top? then {} else (if p.data then {p.bits} else {}) + Keys(p.other) + PathKeys(p.up)
  }

  ghost function PathIds<N>(p: Path<N>): set<N> {
    if p.Top? then {} else {p.id} + Ids(p.other) + PathIds(p.up)
  }

  ghost predicate DistinctPath<N>(p: Path<N>) {
    p.Frame? ==>
      && Distinct(p.other) && DistinctPath(p.up)
      && p.id !in Ids(p.other) && p.id !in PathIds(p.up) && Ids(p.other) !! PathIds(p.up)
  }

  ghost function PathData<N>(p: Path<N>): nat {
    if p.Top? then 0 else (if p.data then 1 else 0) + DataCount(p.other) + PathData(p.up)
  }

  ghost function PathInternal<N>(p: Path<N>): nat {
    if p.Top? then 0 else (if p.data then 0 else 1) + InternalCount(p.other) + PathInternal(p.up)
  }

  function Fill<N>(p: Path<N>, t: Tree<N>): Tree<N>
    requires p.Frame?
  {
    if p.hole then Bin(p.id, p.bits, p.data, p.other, t) else Bin(p.id, p.bits, p.data, t, p.other)
  }

  /** A tree is well-formed exactly if the path and the subtree are and fit together. */
  lemma {:induction false} WfPlug<N>(p: Path<N>, t: Tree<N>)
    ensures Wf(Plug(p, t)) <==> WfPath(p) && Wf(t) && Fits(p, t)
  {
    if p.Frame? { WfPlug(p.up, Fill(p, t)); }
  }

  lemma {:induction false} PlugContents<N>(p: Path<N>, t: Tree<N>)
    ensures Keys(Plug(p, t)) == PathKeys(p) + Keys(t)
    ensures Ids(Plug(p, t)) == PathIds(p) + Ids(t)
    ensures DataCount(Plug(p, t)) == PathData(p) + DataCount(t)
    ensures InternalCount(Plug(p, t)) == PathInternal(p) + InternalCount(t)
  {
    if p.Frame? { PlugContents(p.up, Fill(p, t)); }
  }

  lemma {:induction false} DistinctPlug<N>(p: Path<N>, t: Tree<N>)
    ensures Distinct(Plug(p, t)) <==> DistinctPath(p) && Distinct(t) && PathIds(p) !! Ids(t)
  {
    if p.Frame? { DistinctPlug(p.up, Fill(p, t)); }
  }

  /** Every node of the path is followed in the direction of k. */
  ghost predicate OnPath<N>(p: Path<N>, k: Bits) {
    p.Frame? ==> p.bits + [p.hole] <= k && OnPath(p.up, k)
  }

  /** A key that the path follows is not stored along the path. */
  lemma {:induction false} NotAlongPath<N>(p: Path<N>, k: Bits)
    requires WfPath(p) && OnPath(p, k)
    ensures k !in PathKeys(p)
  {
    if p.Frame? {
      NotAlongPath(p.up, k);
      assert (p.bits + [p.hole])[|p.bits|] == k[|p.bits|];
      if k in Keys(p.other) { BranchBit(p.other, p.bits, !p.hole, k); }
    }
  }

  // ---- Insertion at a place ----

  /** The subtree that replaces t when k is inserted with node n, and m if a branch node is needed. */
  function Inserted<N>(t: Tree<N>, k: Bits, i: nat, n: N, m: N): Tree<N>
    requires i <= |k| && (t.Bin? ==> i <= |t.bits|)
  {
    if t.Nil? then Bin(n, k, true, Nil, Nil)
    else if |t.bits| == i then Bin(n, k, true, t.left, t.right)
    else if i == |k| then
      if t.bits[i] then Bin(n, k, true, Nil, t) else Bin(n, k, true, t, Nil)
    else if k[i] then Bin(m, k[..i], false, t, Bin(n, k, true, Nil, Nil))
    else Bin(m, k[..i], false, Bin(n, k, true, Nil, Nil), t)
  }

  /** t is where the walk for k stops, having compared k with the key near that guides it up to position i. */
  ghost predicate Place<N>(p: Path<N>, t: Tree<N>, k: Bits, near: Bits, i: nat) {
    && WfPath(p) && Wf(t) && Fits(p, t) && OnPath(p, k)
    && (t.Bin? ==>
          && near == Nearest(t, k) && near != k && i == Common(k, near)
          && (|t.bits| > i || |t.bits| >= |k|))
    && (t.Nil? ==> i <= |k|)
  }

  lemma PlaceFacts<N>(p: Path<N>, t: Tree<N>, k: Bits, near: Bits, i: nat)
    requires Place(p, t, k, near, i)
    ensures i <= |k| && (t.Bin? ==> i <= |t.bits| && t.bits[..i] == k[..i])
    ensures t.Bin? && |t.bits| == i ==> t.bits == k && !t.data
    ensures t.Bin? && |t.bits| > i ==> i < |near| && near[i] == t.bits[i]
    ensures t.Bin? && |t.bits| > i && i < |k| ==> k[i] != t.bits[i]
    ensures t.Bin? && p.Frame? ==> p.bits + [p.hole] <= k[..i]
  {
    if t.Bin? {
      assert t.bits <= near;
      assert |t.bits| >= i;
      assert t.bits[..i] == near[..i];
      if p.Frame? {
        assert p.bits + [p.hole] <= near;
        CommonLonger(k, near, p.bits + [p.hole]);
      }
    }
  }

  lemma InsertedKeys<N>(t: Tree<N>, k: Bits, i: nat, n: N, m: N)
    requires i <= |k| && (t.Bin? ==> i <= |t.bits|) && (t.Bin? && |t.bits| == i ==> !t.data)
    ensures var r := Inserted(t, k, i, n, m);
      Keys(r) == Keys(t) + {k} && DataCount(r) == DataCount(t) + 1
  {
    var leaf := Bin(n, k, true, Nil, Nil);
    assert Keys(leaf) == {k} && DataCount(leaf) == 1;
  }

  lemma PrefixAndBit(a: Bits, p: Bits, i: nat)
    requires i < |a| && p == a[..i]
    ensures p + [a[i]] <= a
  {
    assert a[..i + 1] == a[..i] + [a[i]];
  }

  lemma InsertedWf<N>(p: Path<N>, t: Tree<N>, k: Bits, near: Bits, i: nat, n: N, m: N)
    requires Place(p, t, k, near, i)
    ensures i <= |k| && (t.Bin? ==> i <= |t.bits|)
    ensures Wf(Inserted(t, k, i, n, m)) && Fits(p, Inserted(t, k, i, n, m))
  {
    PlaceFacts(p, t, k, near, i);
    if t.Bin? && |t.bits| > i {
      PrefixAndBit(t.bits, k[..i], i);
      if i == |k| {
        assert k[..i] == k;
      } else {
        PrefixAndBit(k, k[..i], i);
      }
    }
  }

  lemma InsertedOk<N>(p: Path<N>, t: Tree<N>, k: Bits, near: Bits, i: nat, n: N, m: N)
    requires Place(p, t, k, near, i)
    ensures i <= |k| && (t.Bin? ==> i <= |t.bits|)
    ensures var r := Inserted(t, k, i, n, m);
      && Wf(r) && Fits(p, r) && r.Bin?
      && Keys(r) == Keys(t) + {k}
      && DataCount(r) == DataCount(t) + 1
  {
    PlaceFacts(p, t, k, near, i);
    InsertedWf(p, t, k, near, i, n, m);
    InsertedKeys(t, k, i, n, m);
  }

  /** While the walk stays within the compared prefix it follows k. */
  lemma StepOnPath<N>(t: Tree<N>, k: Bits, near: Bits, i: nat)
    requires Wf(t) && t.Bin? && near == Nearest(t, k) && i == Common(k, near)
    requires |t.bits| <= i && |t.bits| < |k|
    ensures var b := k[|t.bits|];
      && b == Bit(k, |t.bits|) && t.bits + [b] <= k
      && (Child(t, b).Bin? ==> Nearest(Child(t, b), k) == near)
  {
    SharedPrefix(t.bits, near, k, i);
    PrefixAndBit(k, t.bits, |t.bits|);
  }

  lemma SharedPrefix(p: Bits, a: Bits, b: Bits, i: nat)
    requires |p| <= i && i <= |a| && i <= |b| && a[..i] == b[..i] && p <= a
    ensures p == b[..|p|]
  {
    assert forall j {:trigger p[j]} :: 0 <= j < |p| ==> p[j] == a[..i][j] == b[..i][j];
  }

  /** Does the insertion need a new branch node, and does it replace one? */
  predicate NeedsBranch<N>(t: Tree<N>, k: Bits, i: nat) { t.Bin? && |t.bits| != i && i != |k| }

  predicate ReplacesBranch<N>(t: Tree<N>, i: nat) { t.Bin? && |t.bits| == i }

  /** How the number of branch nodes changes. */
  function Branches<N>(t: Tree<N>, k: Bits, i: nat): int {
    if NeedsBranch(t, k, i) then 1 else if ReplacesBranch(t, i) then -1 else 0
  }

  lemma InsertedIds<N>(t: Tree<N>, k: Bits, i: nat, n: N, m: N)
    requires i <= |k| && (t.Bin? ==> i <= |t.bits|) && (ReplacesBranch(t, i) ==> !t.data)
    requires Distinct(t) && n !in Ids(t) && m !in Ids(t) && (NeedsBranch(t, k, i) ==> n != m)
    ensures var r := Inserted(t, k, i, n, m);
      && Distinct(r) && Ids(r) <= Ids(t) + {n, m} && n in Ids(r)
      && r.id == (if NeedsBranch(t, k, i) then m else n)
      && InternalCount(r) == InternalCount(t) + Branches(t, k, i)
  {
    if NeedsBranch(t, k, i) {
      BranchedIds(t, k, i, n, m);
    }
  }

  lemma BranchedIds<N>(t: Tree<N>, k: Bits, i: nat, n: N, m: N)
    requires i <= |k| && (t.Bin? ==> i <= |t.bits|) && NeedsBranch(t, k, i)
    requires Distinct(t) && n !in Ids(t) && m !in Ids(t) && n != m
    ensures var r := Inserted(t, k, i, n, m);
      && Distinct(r) && Ids(r) == Ids(t) + {n, m} && r.id == m
      && InternalCount(r) == InternalCount(t) + 1
  {
    var leaf := Bin(n, k, true, Nil, Nil);
    assert Ids(leaf) == {n} && InternalCount(leaf) == 0;
  }

  /** The path to a subtree follows the bits of its root. */
  lemma {:induction false} FitsOnPath<N>(p: Path<N>, t: Tree<N>, k: Bits)
    requires WfPath(p) && Fits(p, t) && t.Bin? && t.bits <= k
    ensures OnPath(p, k)
  {
    if p.Frame? && p.up.Frame? {
      FitsOnPath(p.up, Fill(p, Nil), k);
    }
  }

  lemma RootKey<N>(t: Tree<N>)
    requires Wf(t) && t.Bin? && t.data
    ensures Keys(t.left) + Keys(t.right) == Keys(t) - {t.bits}
  {
    KeysDisjoint(t);
  }

  /** A new branch node in the place of a data node with two children. */
  lemma BranchInPlace<N>(p: Path<N>, t: Tree<N>, m: N, r: Tree<N>)
    requires WfPath(p) && Fits(p, t) && Wf(t) && t.Bin? && t.data && t.left.Bin? && t.right.Bin?
    requires Distinct(t) && PathIds(p) !! Ids(t) && m !in Ids(t) && m !in PathIds(p)
    requires r == Bin(m, t.bits, false, t.left, t.right)
    ensures Wf(r) && Fits(p, r) && Distinct(r) && PathIds(p) !! Ids(r)
    ensures DataCount(r) == DataCount(t) - 1 && InternalCount(r) == InternalCount(t) + 1
    ensures Keys(r) == Keys(t.left) + Keys(t.right)
  {
  }

  /** The sibling of a leaf in the place of their branch node. */
  lemma SiblingInPlace<N>(p: Path<N>, t: Tree<N>)
    requires WfPath(p) && Fits(p, t) && p.Frame? && !p.data && DistinctPath(p) && PathIds(p) !! Ids(t)
    requires t.Bin? && t.data && t.left.Nil? && t.right.Nil?
    ensures WfPath(p.up) && Wf(p.other) && Fits(p.up, p.other) && p.other.Bin?
    ensures DistinctPath(p.up) && Distinct(p.other) && PathIds(p.up) !! Ids(p.other)
    ensures PathData(p) + DataCount(t) == PathData(p.up) + DataCount(p.other) + 1
    ensures PathInternal(p) + InternalCount(t) == PathInternal(p.up) + InternalCount(p.other) + 1
    ensures PathKeys(p.up) + Keys(p.other) == PathKeys(p) + (Keys(t.left) + Keys(t.right))
    ensures t.id !in PathIds(p.up) + Ids(p.other) && PathIds(p.up) + Ids(p.other) <= PathIds(p) + Ids(t)
  {
  }

  /** Nothing in the place of a leaf; only a branch node needs two children. */
  lemma NothingInPlace<N>(p: Path<N>, t: Tree<N>, r: Tree<N>)
    requires PathIds(p) !! Ids(t) && t.Bin? && t.data && t.left.Nil? && t.right.Nil? && r.Nil?
    requires p.Top? || p.data
    ensures Wf(r) && Fits(p, r) && Distinct(r) && PathIds(p) !! Ids(r)
    ensures DataCount(r) == DataCount(t) - 1 && InternalCount(r) == InternalCount(t)
    ensures PathKeys(p) + Keys(r) == PathKeys(p) + (Keys(t.left) + Keys(t.right))
    ensures t.id !in PathIds(p) + Ids(r) && PathIds(p) + Ids(r) <= PathIds(p) + Ids(t)
  {
  }

  /** Without the key of t there remain the keys along the path and below t. */
  lemma PlugWithoutRoot<N>(p: Path<N>, t: Tree<N>)
    requires WfPath(p) && Fits(p, t) && Wf(t) && t.Bin? && t.data
    ensures Keys(Plug(p, t)) - {t.bits} == PathKeys(p) + (Keys(t.left) + Keys(t.right))
  {
    PlugContents(p, t);
    FitsOnPath(p, t, t.bits);
    NotAlongPath(p, t.bits);
    RootKey(t);
  }

  // ---- Longest prefixes ----

  /** The stored prefixes of k are below t or not longer than best. */
  ghost predicate Covered(keys: set<Bits>, below: set<Bits>, k: Bits, best: int) {
    forall q {:trigger q in keys} :: q in keys && q <= k ==> q in below || |q| <= best
  }

  lemma StepCovered<N>(keys: set<Bits>, t: Tree<N>, k: Bits, best: int)
    requires Wf(t) && t.Bin? && Covered(keys, Keys(t), k, best)
    requires t.data && t.bits <= k ==> |t.bits| <= best
    ensures Covered(keys, Keys(Child(t, Bit(k, |t.bits|))), k, best)
  {
    forall q | q in keys && q <= k && q in Keys(t) && |q| > best
      ensures q in Keys(Child(t, Bit(k, |t.bits|)))
    {
      KeysExtend(t, q);
    }
  }

  lemma LongerCovered<N>(keys: set<Bits>, t: Tree<N>, k: Bits, best: int)
    requires Wf(t) && t.Bin? && Covered(keys, Keys(t), k, best) && |t.bits| > |k|
    ensures Covered(keys, {}, k, best)
  {
    forall q | q in Keys(t) ensures |q| > |k| {
      KeysExtend(t, q);
    }
  }

  lemma CommonIsPrefix(k: Bits, bits: Bits)
    ensures bits <= k <==> Common(k, bits) == |bits|
  {
    if bits <= k { CommonLonger(k, bits, bits); }
    if Common(k, bits) == |bits| { assert bits[..|bits|] == bits; }
  }

  /** Agreement up to i carries over to the children, which have longer bits. */
  lemma AgreeBelow<N>(t: Tree<N>, b: bool, k: Bits, i: nat)
    requires Wf(t) && t.Bin? && i <= |t.bits| && i <= |k| && t.bits[..i] == k[..i]
    ensures Child(t, b).Bin? ==> |t.bits| < |Child(t, b).bits| && Child(t, b).bits[..i] == k[..i]
  {
    var c := Child(t, b);
    if c.Bin? {
      assert t.bits + [b] <= c.bits;
      assert c.bits[..i] == (t.bits + [b])[..i] == t.bits[..i];
    }
  }
}
