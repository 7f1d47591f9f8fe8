/** The threaded radix tree of base/patricia.h on linked nodes. */
module Patricia {
  import opened RadixTree
  import opened RadixOrder

  /** A node; key is the key of the object the node is part of, and is meaningless for internal nodes. */
  class Node {
    var left: Node?
    var right: Node?
    var intnode: bool
    var bitpos: nat
    const key: Bits

    constructor (k: Bits)
      ensures key == k && left == null && right == null && !intnode && bitpos == 0
    {
      key, left, right, intnode, bitpos := k, null, null, false, 0;
    }

    predicate GetBit(pos: nat) { pos < |key| && key[pos] }
  }

  ghost function Root(t: Tree<Node>): Node? {
    if t.Nil? then null else t.id
  }

  ghost predicate NodeOk(n: Node, bits: Bits, data: bool)
    reads n
  {
    n.bitpos == |bits| && n.intnode == !data && (data ==> n.key == bits)
  }

  /**
   * The pointers form the tree. A node without a right subtree has a thread in right: the node in whose left
   * subtree it is the rightmost one, or null at the right edge of the whole tree.
   */
  ghost predicate Shape(t: Tree<Node>, thread: Node?)
    reads Ids(t)
  {
    t.Bin? ==>
      && NodeOk(t.id, t.bits, t.data)
      && t.id.left == Root(t.left)
      && t.id.right == (if t.right.Bin? then Root(t.right) else thread)
      && Shape(t.left, t.id)
      && Shape(t.right, thread)
  }

  lemma {:induction false} IdsAllocated(t: Tree<Node>)
    ensures forall n {:trigger n in Ids(t)} :: n in Ids(t) ==> allocated(n)
  {
    if t.Bin? {
      IdsAllocated(t.left);
      IdsAllocated(t.right);
    }
  }

  lemma {:induction false} PathAllocated(p: Path<Node>)
    ensures forall n {:trigger n in PathIds(p)} :: n in PathIds(p) ==> allocated(n)
  {
    if p.Frame? {
      IdsAllocated(p.other);
      PathAllocated(p.up);
    }
  }

  /** The keys of the data nodes in the tree are stored keys. */
  lemma {:induction false} DataInKeys(t: Tree<Node>, thread: Node?, n: Node)
    requires Shape(t, thread) && n in Ids(t) && !n.intnode
    ensures n.key in Keys(t)
  {
    if n != t.id {
      if n in Ids(t.left) { DataInKeys(t.left, t.id, n); } else { DataInKeys(t.right, thread, n); }
    }
  }

  lemma {:induction false} OrderNodesAreData(t: Tree<Node>, thread: Node?, j: nat)
    requires Shape(t, thread) && j < |Order(t)|
    ensures !Order(t)[j].intnode
  {
    var own := if t.data then [t.id] else [];
    if j < |own| {
    } else if j < |own| + |Order(t.left)| {
      OrderNodesAreData(t.left, t.id, j - |own|);
    } else {
      OrderNodesAreData(t.right, thread, j - |own| - |Order(t.left)|);
    }
  }

  lemma {:induction false} NodeKeyInOrder(t: Tree<Node>, thread: Node?, j: nat)
    requires Shape(t, thread) && j < |Order(t)|
    ensures |Order(t)| == |KeyOrder(t)| && Order(t)[j].key == KeyOrder(t)[j]
  {
    OrderHasKeys(t);
    OrderHasKeys(t.left);
    var own := if t.data then [t.id] else [];
    if j < |own| {
    } else if j < |own| + |Order(t.left)| {
      NodeKeyInOrder(t.left, t.id, j - |own|);
    } else {
      NodeKeyInOrder(t.right, thread, j - |own| - |Order(t.left)|);
    }
  }

  lemma {:induction false} DataInPathKeys(p: Path<Node>, sub: Node?, n: Node)
    requires PathShape(p, sub, null) && n in PathIds(p) && !n.intnode
    ensures n.key in PathKeys(p)
  {
    if n in Ids(p.other) {
      DataInKeys(p.other, if p.hole then p.id else ThreadOf(p.up, null), n);
    } else if n != p.id {
      DataInPathKeys(p.up, p.id, n);
    }
  }

  /** Only one data node of the tree carries a given key. */
  lemma OnlyDataNode(tree: Tree<Node>, p: Path<Node>, t: Tree<Node>, n: Node)
    requires At(tree, p, t, null) && t.Bin? && t.data && n in Ids(tree) && !n.intnode && n.key == t.bits
    ensures n == t.id
  {
    PlugContents(p, t);
    FitsOnPath(p, t, t.bits);
    NotAlongPath(p, t.bits);
    KeysDisjoint(t);
    if n in PathIds(p) {
      DataInPathKeys(p, t.id, n);
    } else if n in Ids(t.left) {
      DataInKeys(t.left, t.id, n);
    } else if n in Ids(t.right) {
      DataInKeys(t.right, ThreadOf(p, null), n);
    }
  }

  lemma {:induction false} RootPlug(p: Path<Node>, t: Tree<Node>, r: Tree<Node>)
    requires p.Frame?
    ensures Root(Plug(p, t)) == Root(Plug(p, r))
  {
    if p.up.Frame? { RootPlug(p.up, Fill(p, t), Fill(p, r)); }
  }

  /** Where the thread at the right edge of a subtree leads, if the edge of the whole tree leads to edge. */
  ghost function ThreadOf(p: Path<Node>, edge: Node?): Node? {
    if p.Top? then edge else if !p.hole then p.id else ThreadOf(p.up, edge)
  }

  /** The pointers along a path, for a subtree with the given root. */
  ghost predicate PathShape(p: Path<Node>, sub: Node?, edge: Node?)
    reads PathIds(p)
  {
    p.Frame? ==>
      && NodeOk(p.id, p.bits, p.data)
      && PathShape(p.up, p.id, edge)
      && if p.hole then
           && p.id.left == Root(p.other) && Shape(p.other, p.id)
           && p.id.right == (if sub != null then sub else ThreadOf(p.up, edge))
         else
           && p.id.left == sub
           && p.id.right == (if p.other.Bin? then Root(p.other) else ThreadOf(p.up, edge))
           && Shape(p.other, ThreadOf(p.up, edge))
  }

  lemma {:induction false} ShapePlug(p: Path<Node>, t: Tree<Node>, edge: Node?)
    ensures Shape(Plug(p, t), edge) <==> PathShape(p, Root(t), edge) && Shape(t, ThreadOf(p, edge))
  {
    if p.Frame? { ShapePlug(p.up, Fill(p, t), edge); }
  }

  /** A thread leads to a node higher up, at a smaller bit position, or to the edge. */
  lemma {:induction false} ThreadIsHigher(p: Path<Node>, sub: Node?, edge: Node?)
    requires WfPath(p) && PathShape(p, sub, edge) && p.Frame?
    ensures var y := ThreadOf(p, edge);
      y == edge || (y in PathIds(p) && y.bitpos <= |p.bits|)
  {
    if p.hole && p.up.Frame? { ThreadIsHigher(p.up, p.id, edge); }
  }

  /** What is at a place in a tree whose right edge leads to edge. */
  ghost predicate At(tree: Tree<Node>, p: Path<Node>, t: Tree<Node>, edge: Node?)
    reads PathIds(p), Ids(t)
  {
    && Plug(p, t) == tree
    && WfPath(p) && Wf(t) && Fits(p, t)
    && DistinctPath(p) && Distinct(t) && PathIds(p) !! Ids(t)
    && PathShape(p, Root(t), edge) && Shape(t, ThreadOf(p, edge))
  }

  lemma AtRoot(tree: Tree<Node>, edge: Node?)
    requires Wf(tree) && Distinct(tree) && Shape(tree, edge)
    ensures At(tree, Top, tree, edge)
  {
  }

  lemma AtChild(tree: Tree<Node>, p: Path<Node>, t: Tree<Node>, b: bool, edge: Node?)
    requires At(tree, p, t, edge) && t.Bin?
    ensures At(tree, Down(p, t, b), Child(t, b), edge)
  {
    assert Plug(Down(p, t, b), Child(t, b)) == tree;
  }

  /** Following a pointer leads to the child, or, where there is none, to null, up a thread or past the edge. */
  lemma Follow(tree: Tree<Node>, p: Path<Node>, t: Tree<Node>, b: bool, edge: Node?)
    requires At(tree, p, t, edge) && t.Bin?
    ensures var y := if b then t.id.right else t.id.left;
      if Child(t, b).Bin? then y == Child(t, b).id && y.bitpos > t.id.bitpos && y.intnode == !Child(t, b).data
      else if !b then y == null
      else y == ThreadOf(p, edge) && (y == edge || (y in PathIds(p) && y.bitpos < t.id.bitpos))
  {
    var c := Child(t, b);
    if c.Bin? {
      assert Shape(c, if b then ThreadOf(p, edge) else t.id);
    } else if b && p.Frame? {
      ThreadIsHigher(p, t.id, edge);
    }
  }

  /** A well-formed path and a subtree that fits make a well-formed tree. */
  lemma Assemble(path: Path<Node>, t: Tree<Node>, r: Tree<Node>)
    requires WfPath(path) && Wf(r) && Fits(path, r)
    requires DistinctPath(path) && Distinct(r) && PathIds(path) !! Ids(r)
    requires PathShape(path, Root(r), null) && Shape(r, ThreadOf(path, null))
    ensures var all := Plug(path, r);
      && Wf(all) && Distinct(all) && Shape(all, null)
      && Root(all) == (if path.Top? then Root(r) else Root(Plug(path, t)))
      && Keys(all) == PathKeys(path) + Keys(r) && Ids(all) == PathIds(path) + Ids(r)
      && DataCount(all) == PathData(path) + DataCount(r)
      && InternalCount(all) == PathInternal(path) + InternalCount(r)
  {
    WfPlug(path, r);
    PlugContents(path, r);
    DistinctPlug(path, r);
    ShapePlug(path, r, null);
    if path.Frame? { RootPlug(path, t, r); }
  }

  /** The place of a node in the whole tree. */
  lemma AtPlace(tree: Tree<Node>, p: Path<Node>, t: Tree<Node>, edge: Node?)
    requires Wf(tree) && Distinct(tree) && Shape(tree, edge) && Plug(p, t) == tree
    ensures At(tree, p, t, edge)
  {
    WfPlug(p, t);
    DistinctPlug(p, t);
    ShapePlug(p, t, edge);
  }

  /** The place that the thread at the right edge of (p, t) leads to. */
  ghost function Climb(p: Path<Node>, t: Tree<Node>): (Path<Node>, Tree<Node>)
    requires ThreadOf(p, null) != null
  {
    if !p.hole then (p.up, Fill(p, t)) else Climb(p.up, Fill(p, t))
  }

  lemma {:induction false} ClimbFacts(p: Path<Node>, t: Tree<Node>)
    requires ThreadOf(p, null) != null
    ensures var (q, s) := Climb(p, t);
      && Plug(q, s) == Plug(p, t) && s.Bin? && s.id == ThreadOf(p, null)
      && After(p) == Order(s.right) + After(q) && SizeAfter(p) == Size(s.right) + SizeAfter(q)
      && Depth(q) < Depth(p)
  {
    if p.hole {
      ClimbFacts(p.up, Fill(p, t));
      assert After(p) == After(p.up);
    }
  }

  lemma {:induction false} NoThreadNothingAfter(p: Path<Node>)
    requires ThreadOf(p, null) == null
    ensures After(p) == []
  {
    if p.Frame? { NoThreadNothingAfter(p.up); }
  }

  /** The rest of the list, from a place that was just entered or just left on its left side. */
  ghost function Rest(p: Path<Node>, t: Tree<Node>, up: bool): seq<Node>
    requires t.Bin?
  {
    (if up then [] else Order(t.left)) + (Order(t.right) + After(p))
  }

  ghost function RestSize(p: Path<Node>, t: Tree<Node>, up: bool): nat
    requires t.Bin?
  {
    (if up then 0 else Size(t.left)) + Size(t.right) + SizeAfter(p)
  }

  /** Moving to a child keeps the rest of the list, except for the child itself. */
  lemma RestOfChild(p: Path<Node>, t: Tree<Node>, up: bool, b: bool)
    requires t.Bin? && Child(t, b).Bin? && (b ==> up || t.left.Nil?) && (!b ==> !up)
    ensures var c, q := Child(t, b), Down(p, t, b);
      && Rest(p, t, up) == (if c.data then [c.id] else []) + Rest(q, c, false)
      && RestSize(q, c, false) < RestSize(p, t, up)
  {
    if b {
      RestOfRight(p, t, up);
    } else {
      RestOfLeft(p, t);
    }
  }

  lemma RestStartsWith(p: Path<Node>, t: Tree<Node>, up: bool, b: bool)
    requires t.Bin? && Child(t, b).Bin? && Child(t, b).data && (b ==> up || t.left.Nil?) && (!b ==> !up)
    ensures Rest(p, t, up) != [] && Rest(p, t, up)[0] == Child(t, b).id
  {
    RestOfChild(p, t, up, b);
  }

  lemma RestOfRight(p: Path<Node>, t: Tree<Node>, up: bool)
    requires t.Bin? && t.right.Bin? && (up || t.left.Nil?)
    ensures var c, q := t.right, Down(p, t, true);
      && Rest(p, t, up) == (if c.data then [c.id] else []) + Rest(q, c, false)
      && RestSize(q, c, false) < RestSize(p, t, up)
  {
    var c, q := t.right, Down(p, t, true);
    var own := if c.data then [c.id] else [];
    assert After(q) == After(p);
    assert Rest(p, t, up) == (own + Order(c.left) + Order(c.right)) + After(p);
    Unfold(own, Order(c.left), Order(c.right), After(p));
  }

  lemma RestOfLeft(p: Path<Node>, t: Tree<Node>)
    requires t.Bin? && t.left.Bin?
    ensures var c, q := t.left, Down(p, t, false);
      && Rest(p, t, false) == (if c.data then [c.id] else []) + Rest(q, c, false)
      && RestSize(q, c, false) < RestSize(p, t, false)
  {
    var c, q := t.left, Down(p, t, false);
    var own := if c.data then [c.id] else [];
    assert After(q) == Order(t.right) + After(p);
    Unfold(own, Order(c.left), Order(c.right), After(q));
  }

  lemma Unfold(own: seq<Node>, l: seq<Node>, r: seq<Node>, a: seq<Node>)
    ensures (own + l + r) + a == own + (l + (r + a))
  {
  }

  /** One step of every search: to the child on the side of bit, and to null instead of up a thread. */
  method Descend(x: Node, bit: bool, ghost tree: Tree<Node>, ghost p: Path<Node>, ghost t: Tree<Node>)
    returns (y: Node?)
    requires At(tree, p, t, null) && t.Bin? && x == t.id
    ensures At(tree, Down(p, t, bit), Child(t, bit), null) && y == Root(Child(t, bit))
  {
    Follow(tree, p, t, bit, null);
    AtChild(tree, p, t, bit, null);
    y := if bit then x.right else x.left;
    if y != null && x.bitpos >= y.bitpos {
      y := null;
    }
  }

  // ---- Comparing keys ----

  /** The first Compare: whole bytes first, then the remaining bits. */
  method Equal(a: Bits, b: Bits) returns (r: bool)
    ensures r == (a == b)
  {
    if |a| != |b| { return false; }
    var byteLen := |a| / 8;
    var pos := 0;
    while pos < byteLen
      invariant 0 <= pos <= byteLen
      invariant a[..8 * pos] == b[..8 * pos]
    {
      if a[8 * pos..8 * pos + 8] != b[8 * pos..8 * pos + 8] { return false; }
      assert a[..8 * (pos + 1)] == a[..8 * pos] + a[8 * pos..8 * pos + 8];
      assert b[..8 * (pos + 1)] == b[..8 * pos] + b[8 * pos..8 * pos + 8];
      pos := pos + 1;
    }
    pos := 8 * pos;
    while pos < |a|
      invariant pos <= |a| && a[..pos] == b[..pos]
    {
      if a[pos] != b[pos] { return false; }
      pos := pos + 1;
    }
    assert a == a[..pos] && b == b[..pos];
    r := true;
  }

  /** The second Compare restarts at a position before which the keys are known to agree. */
  method CompareFrom(a: Bits, b: Bits, start: nat) returns (equal: bool, pos: nat)
    requires start <= |a| && start <= |b| && a[..start] == b[..start]
    ensures equal == (a == b)
    ensures pos == Common(a, b)
  {
    var shortLen := if |a| < |b| then |a| else |b|;
    var byteLen := shortLen / 8;
    var i := start / 8;
    assert 8 * i <= start;
    assert a[..8 * i] == a[..start][..8 * i] && b[..8 * i] == b[..start][..8 * i];
    while i < byteLen
      invariant start / 8 <= i && 8 * i <= shortLen && a[..8 * i] == b[..8 * i]
    {
      if a[8 * i..8 * i + 8] != b[8 * i..8 * i + 8] { break; }
      assert a[..8 * (i + 1)] == a[..8 * i] + a[8 * i..8 * i + 8];
      assert b[..8 * (i + 1)] == b[..8 * i] + b[8 * i..8 * i + 8];
      i := i + 1;
    }
    pos := 8 * i;
    if pos < start { pos := start; }
    while pos < shortLen
      invariant pos <= shortLen && a[..pos] == b[..pos]
    {
      if a[pos] != b[pos] {
        CommonIs(a, b, pos);
        return false, pos;
      }
      pos := pos + 1;
    }
    CommonIs(a, b, pos);
    equal := |a| == |b|;
    assert equal ==> a == a[..pos] && b == b[..pos];
  }

  lemma CommonIs(a: Bits, b: Bits, n: nat)
    requires n <= |a| && n <= |b| && a[..n] == b[..n]
    requires n == |a| || n == |b| || a[n] != b[n]
    ensures Common(a, b) == n
  {
    CommonLonger(a, b, a[..n]);
    var m := Common(a, b);
    assert forall j {:trigger a[j]} :: 0 <= j < m ==> a[j] == a[..m][j] == b[..m][j] == b[j];
  }

  // ---- Threads ----

  ghost predicate RightSpine(p: Path<Node>) {
    p.Frame? ==> p.hole && RightSpine(p.up)
  }

  /** Only the last node of the right spine knows where the edge leads. */
  lemma {:induction false} SpineForgetsEdge(p: Path<Node>, sub: Node?, edge: Node?, other: Node?)
    requires RightSpine(p) && PathShape(p, sub, edge) && sub != null
    ensures PathShape(p, sub, other) && ThreadOf(p, other) == other
  {
    if p.Frame? { SpineForgetsEdge(p.up, p.id, edge, other); }
  }

  lemma {:induction false} SpineThread(p: Path<Node>, edge: Node?)
    requires RightSpine(p)
    ensures ThreadOf(p, edge) == edge
  {
    if p.Frame? { SpineThread(p.up, edge); }
  }

  /** RewireRightMost: the thread at the right edge of subtree x leads to q from now on. */
  method RewireRightMost(q: Node?, start: Node, ghost tree: Tree<Node>, ghost edge: Node?) returns (oldEdge: Node?)
    requires Wf(tree) && Distinct(tree) && Shape(tree, edge) && tree.Bin? && start == tree.id
    requires edge != null ==> edge.bitpos < |tree.bits| && edge !in Ids(tree)
    modifies Ids(tree)`right
    ensures Shape(tree, q) && oldEdge == edge
  {
    var x := start;
    ghost var p: Path<Node>, t := Top, tree;
    AtRoot(tree, edge);
    Follow(tree, p, t, true, edge);
    while x.right != null && x.right.bitpos > x.bitpos
      invariant At(tree, p, t, edge) && t.Bin? && x == t.id && RightSpine(p) && |tree.bits| <= |t.bits|
      invariant t.right.Bin? <==> x.right != null && x.right.bitpos > x.bitpos
      invariant t.right.Bin? ==> x.right == t.right.id
      decreases t
    {
      AtChild(tree, p, t, true, edge);
      x := x.right;
      p, t := Down(p, t, true), t.right;
      SpineThread(p, edge);
      Follow(tree, p, t, true, edge);
    }
    SpineThread(p, edge);
    oldEdge := x.right;
    PlugContents(p, t);
    SetThread(x, q, tree, p, t, edge);
  }

  method SetThread(
      x: Node, q: Node?, ghost tree: Tree<Node>, ghost p: Path<Node>, ghost t: Tree<Node>, ghost edge: Node?)
    requires At(tree, p, t, edge) && RightSpine(p) && t.Bin? && t.right.Nil? && x == t.id
    modifies x`right
    ensures Shape(tree, q)
  {
    x.right := q;
    assert Shape(t.left, x);
    SpineForgetsEdge(p, x, edge, q);
    ShapePlug(p, t, q);
  }

  // ---- Building the new subtree of an insertion ----

  ghost function LastNode(p: Path<Node>): Node? {
    if p.Top? then null else p.id
  }

  /** A node, not yet in the tree, takes the place of an empty subtree. */
  method HangLeaf(node: Node, p: Node?, ghost path: Path<Node>)
    requires PathShape(path, null, null) && DistinctPath(path) && p == LastNode(path)
    requires node !in PathIds(path) && !node.intnode && OnPath(path, node.key)
    modifies node
    ensures Shape(Bin(node, node.key, true, Nil, Nil), ThreadOf(path, null))
  {
    node.left, node.right, node.bitpos := null, null, |node.key|;
    if p != null {
      assert (path.bits + [path.hole])[|path.bits|] == node.key[|path.bits|];
      node.right := if node.GetBit(p.bitpos) then p.right else p;
    }
  }

  /** A node takes over the children of an internal node. */
  method TakeOver(node: Node, x: Node, ghost t: Tree<Node>, ghost edge: Node?)
    requires Wf(t) && Distinct(t) && Shape(t, edge) && t.Bin? && !t.data && x == t.id
    requires node !in Ids(t) && !node.intnode && node.key == t.bits
    modifies node, Ids(t.left)`right
    ensures Shape(Bin(node, node.key, true, t.left, t.right), edge)
  {
    node.left, node.right, node.bitpos := x.left, x.right, |node.key|;
    assert Shape(t, edge);
    assert Shape(t.left, x) && Shape(t.right, edge);
    IdsAllocated(t.right);
    var _ := RewireRightMost(node, x.left, t.left, x);
    assert Shape(t.right, edge);
  }

  /** A node becomes the parent of subtree x, on the side given by bit. */
  method HangAbove(node: Node, x: Node, bit: bool, ghost t: Tree<Node>, ghost edge: Node?)
    requires Wf(t) && Distinct(t) && Shape(t, edge) && t.Bin? && x == t.id
    requires edge != null ==> edge.bitpos < |t.bits| && edge !in Ids(t) && edge != node
    requires node !in Ids(t) && !node.intnode
    modifies node, Ids(t)`right
    ensures Shape(if bit then Bin(node, node.key, true, Nil, t) else Bin(node, node.key, true, t, Nil), edge)
  {
    node.left, node.right, node.bitpos := null, null, |node.key|;
    assert Shape(t, edge);
    if bit {
      node.right := x;
    } else {
      node.left := x;
      var right := RewireRightMost(node, x, t, edge);
      node.right := right;
    }
  }

  /** Internal node l branches between subtree x on the left and node on the right. */
  method BranchRight(node: Node, l: Node, x: Node, ghost t: Tree<Node>, ghost edge: Node?)
    requires Wf(t) && Distinct(t) && Shape(t, edge) && t.Bin? && x == t.id
    requires edge != null ==> edge.bitpos < |t.bits| && edge !in Ids(t) && edge != node && edge != l
    requires node !in Ids(t) && l !in Ids(t) && l != node && l.intnode && l.bitpos <= |node.key|
    requires NodeOk(node, node.key, true) && node.left == null
    modifies node`right, l`left, l`right, Ids(t)`right
    ensures Shape(Bin(l, node.key[..l.bitpos], false, t, Bin(node, node.key, true, Nil, Nil)), edge)
  {
    l.left, l.right := x, node;
    assert Shape(t, edge);
    var right := RewireRightMost(l, x, t, edge);
    node.right := right;
    assert Shape(t, l);
  }

  /** Internal node l branches between node on the left and subtree x on the right. */
  method BranchLeft(node: Node, l: Node, x: Node, ghost t: Tree<Node>, ghost edge: Node?)
    requires Shape(t, edge) && t.Bin? && x == t.id
    requires node !in Ids(t) && l !in Ids(t) && l != node && l.intnode && l.bitpos <= |node.key|
    requires NodeOk(node, node.key, true) && node.left == null
    modifies node`right, l`left, l`right
    ensures Shape(Bin(l, node.key[..l.bitpos], false, Bin(node, node.key, true, Nil, Nil), t), edge)
  {
    l.left, l.right := node, x;
    node.right := l;
    assert Shape(t, edge);
  }

  /** A new internal node branches between node and subtree x. */
  method Branch(node: Node, x: Node, i: nat, ghost t: Tree<Node>, ghost edge: Node?) returns (l: Node)
    requires Wf(t) && Distinct(t) && Shape(t, edge) && t.Bin? && x == t.id
    requires edge != null ==> edge.bitpos < |t.bits| && edge !in Ids(t) && edge != node
    requires node !in Ids(t) && !node.intnode && i < |node.key|
    modifies node, Ids(t)`right
    ensures fresh(l)
    ensures var leaf := Bin(node, node.key, true, Nil, Nil);
      Shape(if node.key[i] then Bin(l, node.key[..i], false, t, leaf) else Bin(l, node.key[..i], false, leaf, t), edge)
  {
    IdsAllocated(t);
    l := new Node([]);
    assert l !in Ids(t) && l != edge && l != node;
    l.bitpos, l.intnode := i, true;
    node.left, node.right, node.bitpos := null, null, |node.key|;
    assert Shape(t, edge);
    if node.GetBit(i) {
      BranchRight(node, l, x, t, edge);
    } else {
      BranchLeft(node, l, x, t, edge);
    }
  }

  lemma EdgeIsHigher(p: Path<Node>, t: Tree<Node>)
    requires WfPath(p) && PathShape(p, Root(t), null) && Fits(p, t) && t.Bin? && PathIds(p) !! Ids(t)
    ensures var y := ThreadOf(p, null);
      y != null ==> y in PathIds(p) && y.bitpos < |t.bits| && y !in Ids(t)
  {
    if p.Frame? { ThreadIsHigher(p, Root(t), null); }
  }

  /** The part of InsertNode that builds the new subtree; p is not yet linked to it. */
  method Hang(node: Node, p: Node?, x: Node?, l: Node?, i: nat, ghost path: Path<Node>, ghost t: Tree<Node>)
    returns (top: Node, ghost m: Node)
    requires l != null ==> !l.intnode
    requires Place(path, t, node.key, if l == null then [] else l.key, i)
    requires DistinctPath(path) && Distinct(t) && PathIds(path) !! Ids(t)
    requires PathShape(path, x, null) && Shape(t, ThreadOf(path, null))
    requires p == LastNode(path) && x == Root(t) && (x != null ==> l != null)
    requires node !in PathIds(path) && node !in Ids(t) && !node.intnode
    modifies node, Ids(t)
    ensures i <= |node.key| && (t.Bin? ==> i <= |t.bits|)
    ensures if NeedsBranch(t, node.key, i) then fresh(m) && top == m else m == node && top == node
    ensures Shape(Inserted(t, node.key, i, node, m), ThreadOf(path, null))
    ensures PathShape(path, x, null) && m !in Ids(t) && m !in PathIds(path)
  {
    PathAllocated(path);
    IdsAllocated(t);
    ghost var near := if l == null then [] else l.key;
    ghost var edge := ThreadOf(path, null);
    PlaceFacts(path, t, node.key, near, i);
    m := node;
    if x == null {
      HangLeaf(node, p, path);
      top := node;
    } else {
      EdgeIsHigher(path, t);
      if x.bitpos == i {
        TakeOver(node, x, t, edge);
        top := node;
      } else if i == |node.key| {
        HangAbove(node, x, l.GetBit(i), t, edge);
        top := node;
      } else {
        top := Branch(node, x, i, t, edge);
        m := top;
      }
    }
  }

  /** The same, with what the new subtree r means. */
  method Build(node: Node, p: Node?, x: Node?, l: Node?, i: nat, ghost path: Path<Node>, ghost t: Tree<Node>)
    returns (top: Node, ghost r: Tree<Node>, ghost m: Node)
    requires l != null ==> !l.intnode
    requires Place(path, t, node.key, if l == null then [] else l.key, i)
    requires DistinctPath(path) && Distinct(t) && PathIds(path) !! Ids(t)
    requires PathShape(path, x, null) && Shape(t, ThreadOf(path, null))
    requires p == LastNode(path) && x == Root(t) && (x != null ==> l != null)
    requires node !in PathIds(path) && node !in Ids(t) && !node.intnode
    modifies node, Ids(t)
    ensures Wf(r) && Fits(path, r) && Distinct(r) && r.Bin? && top == r.id
    ensures Keys(r) == Keys(t) + {node.key} && DataCount(r) == DataCount(t) + 1
    ensures node in Ids(r) && Ids(r) <= Ids(t) + {node, m} && (m == node || fresh(m))
    ensures PathIds(path) !! Ids(r) && PathShape(path, x, null)
    ensures Shape(r, ThreadOf(path, null))
    ensures InternalCount(r) == InternalCount(t) + Branches(t, node.key, i)
  {
    PlaceFacts(path, t, node.key, if l == null then [] else l.key, i);
    top, m := Hang(node, p, x, l, i, path, t);
    r := Inserted(t, node.key, i, node, m);
    InsertedOk(path, t, node.key, if l == null then [] else l.key, i, node, m);
    InsertedIds(t, node.key, i, node, m);
  }

  // ---- Building the subtree that is left by a removal ----

  /** A new internal node with the position and the children of x. */
  method CopyBranch(x: Node, ghost t: Tree<Node>, ghost edge: Node?) returns (m: Node)
    requires Shape(t, edge) && t.Bin? && x == t.id
    ensures fresh(m) && m !in Ids(t) && Shape(t, edge)
    ensures m.bitpos == x.bitpos && m.intnode && m.left == x.left && m.right == x.right
  {
    IdsAllocated(t);
    m := new Node([]);
    m.bitpos, m.intnode, m.left, m.right := x.bitpos, true, x.left, x.right;
  }

  /** A new internal node takes over both children of x. */
  method MakeBranch(x: Node, ghost t: Tree<Node>, ghost edge: Node?) returns (m: Node)
    requires Wf(t) && Distinct(t) && Shape(t, edge) && t.Bin? && x == t.id && t.left.Bin? && t.right.Bin?
    modifies Ids(t.left)`right
    ensures fresh(m) && Shape(Bin(m, t.bits, false, t.left, t.right), edge)
  {
    m := CopyBranch(x, t, edge);
    IdsAllocated(t.right);
    var _ := RewireRightMost(m, x.left, t.left, x);
    assert Shape(t.right, edge);
  }

  /** The left subtree of x moves up: its right edge leads where x led. */
  method RaiseLeft(x: Node, ghost t: Tree<Node>, ghost edge: Node?)
    requires Wf(t) && Distinct(t) && Shape(t, edge) && t.Bin? && x == t.id && t.left.Bin? && t.right.Nil?
    modifies Ids(t.left)`right
    ensures Shape(t.left, edge)
  {
    var _ := RewireRightMost(x.right, x.left, t.left, x);
  }

  lemma OneMore(a: set<Bits>, b: set<Bits>, k: Bits)
    ensures a + (b + {k}) == a + b + {k}
  {
  }

  lemma AtMost(a: set<Node>, b: set<Node>, n: Node, m: Node)
    ensures a + (b + {n, m}) == a + b + {n, m}
  {
  }

  class PatriciaTree {
    var root: Node?
    var nodes: nat
    var intNodes: nat
    ghost var tree: Tree<Node>
    ghost var repr: set<Node>

    ghost predicate Valid()
      reads this, repr
    {
      && repr == Ids(tree)
      && Wf(tree) && Distinct(tree) && Shape(tree, null) && root == Root(tree)
      && nodes == DataCount(tree) && intNodes == InternalCount(tree)
    }

    /** The stored keys. */
    ghost function Contents(): set<Bits>
      reads this
    {
      Keys(tree)
    }

    constructor ()
      ensures Valid() && Contents() == {} && repr == {}
    {
      root, nodes, intNodes := null, 0, 0;
      tree, repr := Nil, {};
    }

    /** The loop of FindNode and RemoveNode, and the comparison that follows it. */
    method Search(k: Bits) returns (pPrev: Node?, p: Node?, x: Node?, ghost path: Path<Node>, ghost t: Tree<Node>)
      requires Valid()
      ensures (x != null) == (k in Contents())
      ensures x != null ==>
        && At(tree, path, t, null) && t.Bin? && x == t.id && t.data && t.bits == k
        && p == LastNode(path) && (path.Frame? ==> pPrev == LastNode(path.up))
    {
      pPrev, p, x, path, t := null, null, root, Top, tree;
      AtRoot(tree, null);
      while x != null
        invariant At(tree, path, t, null) && x == Root(t)
        invariant p == LastNode(path) && (path.Frame? ==> pPrev == LastNode(path.up))
        invariant k in Keys(tree) <==> k in Keys(t)
        decreases t
      {
        if x.bitpos > |k| {
          if k in Keys(t) { KeysExtend(t, k); }
          x := null;
          return;
        } else if x.bitpos == |k| && !x.intnode {
          break;
        }
        StepKey(t, k);
        var bit := x.bitpos < |k| && k[x.bitpos];
        pPrev, p := p, x;
        x := Descend(p, bit, tree, path, t);
        path, t := Down(path, t, bit), Child(t, bit);
      }
      if x == null { return; }
      var same := Equal(k, x.key);
      if k in Keys(t) { KeysExtend(t, k); }
      PlugContents(path, t);
      if !same {
        x := null;
      }
    }

    /** FindNode. */
    method Find(k: Bits) returns (r: Node?)
      requires Valid()
      ensures (r != null) == (k in Contents())
      ensures r != null ==> r in repr && !r.intnode && r.key == k
    {
      var pPrev, p;
      ghost var path, t;
      pPrev, p, r, path, t := Search(k);
      if r != null { PlugContents(path, t); }
    }

    /** The first loop of InsertNode: the data node to compare with. */
    method FindNearest(k: Bits) returns (l: Node?)
      requires Valid()
      ensures (l == null) == tree.Nil?
      ensures l != null ==> l in repr && !l.intnode && l.key == Nearest(tree, k)
    {
      var p: Node? := null;
      var x := root;
      ghost var path: Path<Node>, t := Top, tree;
      AtRoot(tree, null);
      while x != null
        invariant At(tree, path, t, null) && x == Root(t)
        invariant tree.Bin? ==> t.Bin? && Nearest(tree, k) == Nearest(t, k)
        decreases t
      {
        if x.bitpos >= |k| && !x.intnode {
          break;
        }
        PlugContents(path, t);
        var bit := x.bitpos < |k| && k[x.bitpos];
        p := x;
        x := Descend(p, bit, tree, path, t);
        if x == null {
          return p;
        }
        path, t := Down(path, t, bit), Child(t, bit);
      }
      PlugContents(path, t);
      l := x;
    }

    /** The second loop of InsertNode: the place where k goes. */
    method FindPlace(k: Bits, i: nat) returns (p: Node?, x: Node?, ghost path: Path<Node>, ghost t: Tree<Node>)
      requires Valid() && tree.Bin? && Nearest(tree, k) != k && i == Common(k, Nearest(tree, k))
      ensures At(tree, path, t, null) && x == Root(t) && p == LastNode(path)
      ensures Place(path, t, k, Nearest(tree, k), i)
    {
      p, x, path, t := null, root, Top, tree;
      AtRoot(tree, null);
      ghost var near := Nearest(tree, k);
      while x != null && x.bitpos <= i && x.bitpos < |k|
        invariant At(tree, path, t, null) && x == Root(t) && p == LastNode(path)
        invariant OnPath(path, k) && (t.Bin? ==> Nearest(t, k) == near)
        decreases t
      {
        StepOnPath(t, k, near, i);
        var bit := k[x.bitpos];
        p := x;
        x := Descend(p, bit, tree, path, t);
        path, t := Down(path, t, bit), Child(t, bit);
      }
    }

    /** The parent p, or the root pointer, leads to top from now on. */
    method Link(p: Node?, bit: bool, top: Node?, ghost path: Path<Node>, ghost sub: Node?)
      requires PathShape(path, sub, null) && DistinctPath(path) && p == LastNode(path)
      requires path.Frame? ==> bit == path.hole
      requires top == null ==> path.Top? || !path.hole
      modifies this`root, if p == null then {} else {p}
      ensures PathShape(path, top, null)
      ensures root == if p == null then top else old(root)
    {
      if p == null {
        root := top;
      } else if bit {
        p.right := top;
      } else {
        p.left := top;
      }
    }

    /** InsertNode. */
    method Insert(node: Node) returns (inserted: bool)
      requires Valid() && !node.intnode
      modifies this, repr, node
      ensures Valid()
      ensures inserted == (node.key !in old(Contents()))
      ensures Contents() == old(Contents()) + {node.key}
      ensures !inserted ==> tree == old(tree) && unchanged(old(repr)) && unchanged(this)
      ensures inserted ==> node in repr && fresh(repr - old(repr) - {node})
    {
      var l := FindNearest(node.key);
      var same, i := false, 0;
      if l != null {
        same, i := CompareFrom(node.key, l.key, 0);
        if node.key in Keys(tree) { NearestIsKey(tree, node.key); }
      }
      inserted := !same;
      if inserted {
        InsertNew(node, l, i);
      }
    }

    /** The part of InsertNode for a key that is not there. */
    method InsertNew(node: Node, l: Node?, i: nat)
      requires Valid() && !node.intnode && node.key !in Contents()
      requires (l == null <==> tree.Nil?) && (l == null ==> i == 0)
      requires l != null ==> !l.intnode && l.key == Nearest(tree, node.key) && i == Common(node.key, l.key)
      modifies this, repr, node
      ensures Valid()
      ensures Contents() == old(Contents()) + {node.key}
      ensures node in repr && fresh(repr - old(repr) - {node})
    {
      var p: Node?, x: Node? := null, root;
      ghost var path: Path<Node>, t := Top, tree;
      AtRoot(tree, null);
      if l != null {
        p, x, path, t := FindPlace(node.key, i);
      }
      InsertAt(node, p, x, l, i, path, t);
    }

    method InsertAt(node: Node, p: Node?, x: Node?, l: Node?, i: nat, ghost path: Path<Node>, ghost t: Tree<Node>)
      requires Valid() && At(tree, path, t, null) && !node.intnode
      requires l != null ==> !l.intnode
      requires Place(path, t, node.key, if l == null then [] else l.key, i) && node.key !in Contents()
      requires p == LastNode(path) && x == Root(t) && (x != null ==> l != null)
      modifies this, repr, node
      ensures Valid()
      ensures Contents() == old(Contents()) + {node.key}
      ensures node in repr && fresh(repr - old(repr) - {node})
    {
      PlugContents(path, t);
      if node in repr { DataInKeys(tree, null, node); }
      ghost var m := Grow(node, p, x, l, i, path, t);
      OneMore(PathKeys(path), Keys(t), node.key);
      AtMost(PathIds(path), Ids(t), node, m);
    }

    /** Builds the new subtree and attaches it. */
    method Grow(node: Node, p: Node?, x: Node?, l: Node?, i: nat, ghost path: Path<Node>, ghost t: Tree<Node>)
      returns (ghost m: Node)
      requires l != null ==> !l.intnode
      requires Place(path, t, node.key, if l == null then [] else l.key, i)
      requires DistinctPath(path) && Distinct(t) && PathIds(path) !! Ids(t)
      requires PathShape(path, x, null) && Shape(t, ThreadOf(path, null))
      requires p == LastNode(path) && x == Root(t) && (x != null ==> l != null) && root == Root(Plug(path, t))
      requires node !in PathIds(path) && node !in Ids(t) && !node.intnode
      requires nodes == PathData(path) + DataCount(t) && intNodes == PathInternal(path) + InternalCount(t)
      modifies this, node, Ids(t), if p == null then {} else {p}
      ensures Valid() && Contents() == PathKeys(path) + (Keys(t) + {node.key})
      ensures node in repr && repr <= PathIds(path) + (Ids(t) + {node, m}) && (m == node || fresh(m))
    {
      assert path.Frame? ==> (path.bits + [path.hole])[|path.bits|] == node.key[|path.bits|];
      PlaceFacts(path, t, node.key, if l == null then [] else l.key, i);
      var branches := if x == null then 0 else if x.bitpos == i then -1 else if i != |node.key| then 1 else 0;
      var bit := p != null && node.GetBit(p.bitpos);
      var top: Node;
      ghost var r: Tree<Node>;
      top, r, m := Build(node, p, x, l, i, path, t);
      Attach(p, bit, top, 1, branches, path, t, r);
    }

    /** The last part of InsertNode and RemoveNode: subtree r takes the place of t. */
    method Attach(p: Node?, bit: bool, top: Node?, dataNodes: int, branchNodes: int,
                  ghost path: Path<Node>, ghost t: Tree<Node>, ghost r: Tree<Node>)
      requires WfPath(path) && Wf(r) && Fits(path, r)
      requires DistinctPath(path) && Distinct(r) && PathIds(path) !! Ids(r)
      requires PathShape(path, Root(t), null) && Shape(r, ThreadOf(path, null))
      requires p == LastNode(path) && top == Root(r) && root == Root(Plug(path, t))
      requires path.Frame? ==> bit == path.hole
      requires top == null ==> path.Top? || !path.hole
      requires nodes + dataNodes == PathData(path) + DataCount(r)
      requires intNodes + branchNodes == PathInternal(path) + InternalCount(r)
      modifies this, if p == null then {} else {p}
      ensures Valid() && Contents() == PathKeys(path) + Keys(r) && repr == PathIds(path) + Ids(r)
    {
      LinkTo(p, bit, top, dataNodes, branchNodes, path, t, r);
      Install(path, t, r);
    }

    /** Linking and counting the subtree does not change it. */
    method LinkTo(p: Node?, bit: bool, top: Node?, dataNodes: int, branchNodes: int,
                  ghost path: Path<Node>, ghost t: Tree<Node>, ghost r: Tree<Node>)
      requires DistinctPath(path) && PathIds(path) !! Ids(r) && PathShape(path, Root(t), null)
      requires Shape(r, ThreadOf(path, null)) && p == LastNode(path) && top == Root(r)
      requires path.Frame? ==> bit == path.hole
      requires top == null ==> path.Top? || !path.hole
      requires nodes + dataNodes >= 0 && intNodes + branchNodes >= 0
      modifies this`root, this`nodes, this`intNodes, if p == null then {} else {p}
      ensures PathShape(path, Root(r), null) && Shape(r, ThreadOf(path, null))
      ensures root == if p == null then top else old(root)
      ensures nodes == old(nodes) + dataNodes && intNodes == old(intNodes) + branchNodes
    {
      IdsAllocated(r);
      Link(p, bit, top, path, Root(t));
      nodes, intNodes := nodes + dataNodes, intNodes + branchNodes;
    }

    /** The ghost tree follows the pointers. */
    ghost method Install(path: Path<Node>, t: Tree<Node>, r: Tree<Node>)
      requires WfPath(path) && Wf(r) && Fits(path, r)
      requires DistinctPath(path) && Distinct(r) && PathIds(path) !! Ids(r)
      requires PathShape(path, Root(r), null) && Shape(r, ThreadOf(path, null))
      requires root == if path.Top? then Root(r) else Root(Plug(path, t))
      requires nodes == PathData(path) + DataCount(r) && intNodes == PathInternal(path) + InternalCount(r)
      modifies this`tree, this`repr
      ensures Valid() && Contents() == PathKeys(path) + Keys(r) && repr == PathIds(path) + Ids(r)
    {
      Assemble(path, t, r);
      tree := Plug(path, r);
      repr := Ids(tree);
    }

    /** RemoveNode. */
    method Remove(node: Node) returns (removed: bool)
      requires Valid() && !node.intnode
      modifies this, repr, node
      ensures Valid()
      ensures removed == (node.key in old(Contents()))
      ensures Contents() == old(Contents()) - {node.key}
      ensures !removed ==> unchanged(old(repr)) && unchanged(this)
      ensures removed ==> node !in repr && fresh(repr - old(repr))
    {
      var pPrev, p, x;
      ghost var path, t;
      pPrev, p, x, path, t := Search(node.key);
      if x == null {
        return false;
      }
      if node in repr { OnlyDataNode(tree, path, t, node); }
      RemoveAt(pPrev, p, x, path, t);
      Release(node);
      removed := true;
    }

    /** A node that is not in the tree gives up its pointers. */
    method Release(node: Node)
      requires Valid() && node !in repr
      modifies node`left, node`right
      ensures Valid()
    {
      IdsAllocated(tree);
      node.left, node.right := null, null;
    }

    /** All that is known about a place in the tree. */
    ghost predicate Open(path: Path<Node>, t: Tree<Node>)
      reads this, PathIds(path), Ids(t)
    {
      && WfPath(path) && Wf(t) && Fits(path, t)
      && DistinctPath(path) && Distinct(t) && PathIds(path) !! Ids(t)
      && PathShape(path, Root(t), null) && Shape(t, ThreadOf(path, null))
      && root == Root(Plug(path, t))
      && nodes == PathData(path) + DataCount(t) && intNodes == PathInternal(path) + InternalCount(t)
    }

    method RemoveAt(pPrev: Node?, p: Node?, x: Node, ghost path: Path<Node>, ghost t: Tree<Node>)
      requires Valid() && At(tree, path, t, null) && t.Bin? && t.data && x == t.id
      requires p == LastNode(path) && (path.Frame? ==> pPrev == LastNode(path.up))
      modifies this, repr
      ensures Valid() && Contents() == old(Contents()) - {t.bits}
      ensures x !in repr && fresh(repr - old(repr))
    {
      PlugContents(path, t);
      PlugWithoutRoot(path, t);
      Follow(tree, path, t, true, null);
      RemoveOpen(pPrev, p, x, path, t);
    }

    /** The four cases of RemoveNode. */
    method RemoveOpen(pPrev: Node?, p: Node?, x: Node, ghost path: Path<Node>, ghost t: Tree<Node>)
      requires Open(path, t) && t.Bin? && t.data && x == t.id
      requires p == LastNode(path) && (path.Frame? ==> pPrev == LastNode(path.up))
      requires x.right != null && x.bitpos < x.right.bitpos <==> t.right.Bin?
      modifies this, Ids(t), PathIds(path)
      ensures Valid() && Contents() == PathKeys(path) + (Keys(t.left) + Keys(t.right))
      ensures x !in repr && fresh(repr - PathIds(path) - Ids(t))
    {
      var bit := p != null && x.GetBit(p.bitpos);
      if x.left != null && x.right != null && x.bitpos < x.right.bitpos {
        RemoveTwo(p, bit, x, path, t);
      } else if x.left != null {
        RemoveLeft(p, bit, x, path, t);
      } else if x.right != null && x.bitpos < x.right.bitpos {
        RemoveRight(p, bit, x, path, t);
      } else {
        RemoveLeaf(pPrev, p, bit, x, path, t);
      }
    }

    /** x has two children: an internal node takes its place. */
    method RemoveTwo(p: Node?, bit: bool, x: Node, ghost path: Path<Node>, ghost t: Tree<Node>)
      requires Open(path, t) && t.Bin? && t.data && x == t.id && t.left.Bin? && t.right.Bin?
      requires p == LastNode(path) && (path.Frame? ==> bit == path.hole)
      modifies this, Ids(t), if p == null then {} else {p}
      ensures Valid() && Contents() == PathKeys(path) + (Keys(t.left) + Keys(t.right))
      ensures x !in repr && fresh(repr - PathIds(path) - Ids(t))
    {
      PathAllocated(path);
      IdsAllocated(t);
      var m := MakeBranch(x, t, ThreadOf(path, null));
      ghost var r := Bin(m, t.bits, false, t.left, t.right);
      BranchInPlace(path, t, m, r);
      assert PathShape(path, x, null);
      Attach(p, bit, m, -1, 1, path, t, r);
    }

    /** x has a left child only. */
    method RemoveLeft(p: Node?, bit: bool, x: Node, ghost path: Path<Node>, ghost t: Tree<Node>)
      requires Open(path, t) && t.Bin? && t.data && x == t.id && t.left.Bin? && t.right.Nil?
      requires p == LastNode(path) && (path.Frame? ==> bit == path.hole)
      modifies this, Ids(t), if p == null then {} else {p}
      ensures Valid() && Contents() == PathKeys(path) + (Keys(t.left) + Keys(t.right))
      ensures x !in repr && repr <= PathIds(path) + Ids(t)
    {
      PathAllocated(path);
      var left := x.left;
      RaiseLeft(x, t, ThreadOf(path, null));
      assert PathShape(path, x, null);
      assert DataCount(t.right) == 0 && InternalCount(t.right) == 0 && Keys(t.left) + Keys(t.right) == Keys(t.left);
      Attach(p, bit, left, -1, 0, path, t, t.left);
    }

    /** x has a right child only. */
    method RemoveRight(p: Node?, bit: bool, x: Node, ghost path: Path<Node>, ghost t: Tree<Node>)
      requires Open(path, t) && t.Bin? && t.data && x == t.id && t.left.Nil? && t.right.Bin?
      requires p == LastNode(path) && (path.Frame? ==> bit == path.hole)
      modifies this, if p == null then {} else {p}
      ensures Valid() && Contents() == PathKeys(path) + (Keys(t.left) + Keys(t.right))
      ensures x !in repr && repr <= PathIds(path) + Ids(t)
    {
      assert DataCount(t.left) == 0 && InternalCount(t.left) == 0;
      Attach(p, bit, x.right, -1, 0, path, t, t.right);
    }

    /** x has no child: an internal parent disappears with it. */
    method RemoveLeaf(pPrev: Node?, p: Node?, bit: bool, x: Node, ghost path: Path<Node>, ghost t: Tree<Node>)
      requires Open(path, t) && t.Bin? && t.data && x == t.id && t.left.Nil? && t.right.Nil?
      requires p == LastNode(path) && (path.Frame? ==> bit == path.hole && pPrev == LastNode(path.up))
      modifies this, PathIds(path)
      ensures Valid() && Contents() == PathKeys(path) + (Keys(t.left) + Keys(t.right))
      ensures x !in repr && repr <= PathIds(path) + Ids(t)
    {
      if p == null {
        Attach(null, false, null, -1, 0, path, t, Nil);
      } else if p.intnode {
        RemoveBranch(pPrev, p, bit, x, path, t);
      } else if bit {
        RemoveThreaded(p, x, path, t);
      } else {
        Attach(p, false, null, -1, 0, path, t, Nil);
      }
    }

    /** The leaf x on the right of a data node leaves its thread behind. */
    method RemoveThreaded(p: Node, x: Node, ghost path: Path<Node>, ghost t: Tree<Node>)
      requires Open(path, t) && t.Bin? && t.data && x == t.id && t.left.Nil? && t.right.Nil?
      requires path.Frame? && p == path.id && path.hole && path.data
      modifies this, p
      ensures Valid() && Contents() == PathKeys(path) + (Keys(t.left) + Keys(t.right))
      ensures x !in repr && repr <= PathIds(path) + Ids(t)
    {
      ghost var none: Tree<Node> := Nil;
      NothingInPlace(path, t, none);
      LeaveThread(p, x, path, t);
      nodes := nodes - 1;
      Install(path, t, none);
    }

    method LeaveThread(p: Node, x: Node, ghost path: Path<Node>, ghost t: Tree<Node>)
      requires path.Frame? && p == path.id && path.hole && path.data && DistinctPath(path) && PathShape(path, x, null)
      requires t.Bin? && t.right.Nil? && Shape(t, ThreadOf(path, null)) && x == t.id
      modifies p`right
      ensures PathShape(path, null, null)
    {
      p.right := x.right;
    }

    /** The leaf x and its internal parent p disappear: the sibling of x takes the place of p. */
    method RemoveBranch(pPrev: Node?, p: Node, bit: bool, x: Node, ghost path: Path<Node>, ghost t: Tree<Node>)
      requires Open(path, t) && t.Bin? && t.data && x == t.id && t.left.Nil? && t.right.Nil?
      requires path.Frame? && p == path.id && bit == path.hole && !path.data && pPrev == LastNode(path.up)
      modifies this, PathIds(path)
      ensures Valid() && Contents() == PathKeys(path) + (Keys(t.left) + Keys(t.right))
      ensures x !in repr && repr <= PathIds(path) + Ids(t)
    {
      ghost var up, other := path.up, path.other;
      PathAllocated(up);
      assert up.Frame? ==> (up.bits + [up.hole])[|up.bits|] == x.key[|up.bits|];
      var upBit := pPrev != null && x.GetBit(pPrev.bitpos);
      SiblingInPlace(path, t);
      var sibling := TakeSibling(p, bit, x, path, t);
      Attach(pPrev, upBit, sibling, -1, -1, up, Fill(path, t), other);
    }

    /** The sibling of x, whose right edge leads where that of p led. */
    method TakeSibling(p: Node, bit: bool, x: Node, ghost path: Path<Node>, ghost t: Tree<Node>) returns (y: Node)
      requires WfPath(path) && DistinctPath(path) && path.Frame? && path.other.Bin? && PathShape(path, x, null)
      requires t.Bin? && t.right.Nil? && Shape(t, ThreadOf(path, null)) && x == t.id
      requires p == path.id && bit == path.hole && !path.data
      modifies Ids(path.other)`right
      ensures y == path.other.id && PathShape(path.up, p, null) && Shape(path.other, ThreadOf(path.up, null))
    {
      PathAllocated(path.up);
      y := if bit then p.left else p.right;
      if bit {
        var _ := RewireRightMost(x.right, y, path.other, p);
      }
    }

    /** Size. */
    method Count() returns (n: nat)
      requires Valid()
      ensures n == |Contents()|
    {
      CountIsCardinality(tree);
      n := nodes;
    }

    /** FindBestMatchNode: the longest stored prefix of k. */
    method LPMFind(k: Bits) returns (l: Node?)
      requires Valid()
      ensures l == null ==> forall q {:trigger q in Contents()} :: q in Contents() ==> !(q <= k)
      ensures l != null ==> l in repr && !l.intnode && l.key in Contents() && l.key <= k
      ensures l != null ==> forall q {:trigger q in Contents()} :: q in Contents() && q <= k ==> |q| <= |l.key|
    {
      ghost var best;
      l, best := BestMatch(k);
    }

    /** The loop: nothing that is a prefix of k is longer than the best match. */
    method BestMatch(k: Bits) returns (l: Node?, ghost best: int)
      requires Valid()
      ensures Best(k, l, best) && Covered(Keys(tree), {}, k, best)
    {
      l, best := null, -1;
      var x := root;
      var i: nat := 0;
      ghost var path: Path<Node>, t := Top, tree;
      AtRoot(tree, null);
      while x != null
        invariant At(tree, path, t, null) && x == Root(t) && Agrees(t, k, i) && Best(k, l, best)
        invariant Covered(Keys(tree), Keys(t), k, best) && (t.Bin? ==> best < |t.bits|)
        decreases t
      {
        var same: bool;
        same, i, l, best := Consider(k, x, i, l, path, t, best);
        if same {
          return x, |k|;
        }
        if x.bitpos > |k| {
          LongerCovered(Keys(tree), t, k, best);
          return;
        }
        StepCovered(Keys(tree), t, k, best);
        var bit := x.bitpos < |k| && k[x.bitpos];
        AgreeBelow(t, bit, k, i);
        x := Descend(x, bit, tree, path, t);
        path, t := Down(path, t, bit), Child(t, bit);
      }
    }

    /** The key is known to agree with the bits of a subtree up to i. */
    ghost predicate Agrees(t: Tree<Node>, k: Bits, i: nat) {
      i <= |k| && (t.Bin? ==> i <= |t.bits| && t.bits[..i] == k[..i])
    }

    /** The best match so far, and the length of its key. */
    ghost predicate Best(k: Bits, l: Node?, best: int)
      reads this, repr
    {
      if l == null then best == -1
      else best == |l.key| && l in repr && !l.intnode && l.key in Keys(tree) && l.key <= k
    }

    /** Looks at a node on the way: its key is k, or it is a better match, or not. */
    method Consider(k: Bits, x: Node, start: nat, was: Node?, ghost path: Path<Node>, ghost t: Tree<Node>, ghost b: int)
      returns (same: bool, i: nat, l: Node?, ghost best: int)
      requires Valid() && At(tree, path, t, null) && t.Bin? && x == t.id && Agrees(t, k, start) && Best(k, was, b)
      requires b < |t.bits|
      ensures Valid() && At(tree, path, t, null) && (x.intnode <==> !t.data) && x.bitpos == |t.bits|
      ensures same ==> x in repr && !x.intnode && x.key == k && k in Keys(tree)
      ensures Agrees(t, k, i) && Best(k, l, best) && b <= best <= |t.bits|
      ensures t.data && t.bits <= k ==> |t.bits| <= best
    {
      PlugContents(path, t);
      same, i, l, best := false, start, was, b;
      if !x.intnode {
        same, i := Match(k, x, start, t);
        if i == x.bitpos {
          l, best := x, |x.key|;
        }
      }
    }

    /** Comparing k with data node x, from the position up to which they are known to agree. */
    method Match(k: Bits, x: Node, start: nat, ghost t: Tree<Node>) returns (same: bool, i: nat)
      requires t.Bin? && NodeOk(x, t.bits, true) && start <= |k| && start <= |t.bits| && t.bits[..start] == k[..start]
      ensures same == (k == t.bits) && (i == x.bitpos <==> t.bits <= k)
      ensures i <= |k| && i <= |t.bits| && t.bits[..i] == k[..i]
    {
      CommonIsPrefix(k, t.bits);
      same, i := CompareFrom(k, x.key, start);
    }

    /** GetNextNode: the data node listed after node, or the first one, found through the threads alone. */
    method GetNext(node: Node?, ghost j: int) returns (x: Node?)
      requires Valid()
      requires if node == null then j == -1 else 0 <= j < |Order(tree)| && Order(tree)[j] == node
      ensures x == if j + 1 < |Order(tree)| then Order(tree)[j + 1] else null
    {
      if root == null {
        return null;
      }
      x := root;
      ghost var path: Path<Node>, t := Top, tree;
      if node == null && !x.intnode {
        return;
      }
      if node != null {
        x := node;
        path, t := PlaceInOrder(node, j);
      } else {
        AtRoot(tree, null);
        assert Rest(path, t, false) == Order(tree);
      }
      ghost var rest := Order(tree)[j + 1..];
      x := NextAfter(x, path, t, rest);
    }

    lemma PlaceInOrder(node: Node, j: nat) returns (path: Path<Node>, t: Tree<Node>)
      requires Valid() && j < |Order(tree)| && Order(tree)[j] == node
      ensures At(tree, path, t, null) && t.Bin? && t.id == node && Rest(path, t, false) == Order(tree)[j + 1..]
    {
      OrderInIds(tree, j);
      path, t := PathTo(tree, node);
      AtPlace(tree, path, t, null);
      InPathIsData(path, t, j);
      ListedAfter(path, t, j);
    }

    lemma InPathIsData(path: Path<Node>, t: Tree<Node>, j: nat)
      requires Valid() && At(tree, path, t, null) && t.Bin? && j < |Order(tree)| && Order(tree)[j] == t.id
      ensures t.data
    {
      OrderNodesAreData(tree, null, j);
      assert !t.id.intnode;
    }

    /** The loop of GetNextNode, starting at a place whose rest of the list is given. */
    method NextAfter(start: Node, ghost startPath: Path<Node>, ghost startTree: Tree<Node>, ghost rest: seq<Node>)
      returns (x: Node?)
      requires Valid() && At(tree, startPath, startTree, null) && startTree.Bin? && start == startTree.id
      requires rest == Rest(startPath, startTree, false)
      ensures x == if rest == [] then null else rest[0]
    {
      x := start;
      var l: Node := start;
      ghost var path, t, up := startPath, startTree, false;
      while x != null
        invariant t.Bin? && (x != null ==> At(tree, path, t, null) && x == t.id)
        invariant x != null ==> up == (x.bitpos < l.bitpos) && rest == Rest(path, t, up)
        invariant x == null ==> rest == []
        decreases if x == null then 0 else 1, RestSize(path, t, up), Depth(path)
      {
        ghost var b := up || t.left.Nil?;
        Follow(tree, path, t, b, null);
        if x.bitpos < l.bitpos {
          l := x;
          x := l.right;
        } else {
          l := x;
          x := if l.left != null then l.left else l.right;
        }
        if x != null && x.bitpos > l.bitpos && !x.intnode {
          RestStartsWith(path, t, up, b);
          return;
        }
        path, t, up := Move(path, t, up, b, rest);
      }
    }

    /** Where the loop stands after it followed a pointer on side b that did not lead to a data child. */
    lemma Move(path: Path<Node>, t: Tree<Node>, up: bool, b: bool, rest: seq<Node>)
      returns (q: Path<Node>, s: Tree<Node>, climbed: bool)
      requires Valid() && At(tree, path, t, null) && t.Bin? && b == (up || t.left.Nil?) && rest == Rest(path, t, up)
      requires Child(t, b).Bin? ==> !Child(t, b).data
      ensures s.Bin?
      ensures var x := if b then t.id.right else t.id.left;
        if x == null then rest == []
        else
          && At(tree, q, s, null) && s.Bin? && x == s.id && rest == Rest(q, s, climbed)
          && climbed == (x.bitpos < t.id.bitpos)
          && (RestSize(q, s, climbed) < RestSize(path, t, up)
              || (RestSize(q, s, climbed) == RestSize(path, t, up) && Depth(q) < Depth(path)))
    {
      Follow(tree, path, t, b, null);
      q, s, climbed := path, t, false;
      if Child(t, b).Bin? {
        RestOfChild(path, t, up, b);
        AtChild(tree, path, t, b, null);
        q, s := Down(path, t, b), Child(t, b);
      } else if ThreadOf(path, null) == null {
        NoThreadNothingAfter(path);
      } else {
        ClimbFacts(path, t);
        q, s := Climb(path, t).0, Climb(path, t).1;
        AtPlace(tree, q, s, null);
        climbed := true;
      }
    }

    /** GetLastNode. */
    method GetLast() returns (x: Node?)
      requires Valid()
      ensures x == if Order(tree) == [] then null else Order(tree)[|Order(tree)| - 1]
    {
      if root == null {
        return null;
      }
      x := root;
      ghost var path: Path<Node>, t := Top, tree;
      AtRoot(tree, null);
      while true
        invariant At(tree, path, t, null) && t.Bin? && x == t.id && After(path) == []
        decreases t
      {
        Follow(tree, path, t, true, null);
        Follow(tree, path, t, false, null);
        if x.right == null || x.right.bitpos < x.bitpos {
          if x.left == null {
            LastInOrder(path, t);
            return;
          }
          AtChild(tree, path, t, false, null);
          x := x.left;
          path, t := Down(path, t, false), t.left;
        } else {
          AtChild(tree, path, t, true, null);
          x := x.right;
          path, t := Down(path, t, true), t.right;
        }
      }
    }

    lemma LastInOrder(path: Path<Node>, t: Tree<Node>)
      requires At(tree, path, t, null) && t.Bin? && t.left.Nil? && t.right.Nil? && After(path) == []
      ensures Order(tree) != [] && Order(tree)[|Order(tree)| - 1] == t.id
    {
      OrderPlug(path, t);
      assert Order(t) == [t.id];
    }

    /**
     * begin() to end(): every stored key is visited once, in lexicographic order with a prefix before its
     * extensions, and the walk ends at the node that GetLast returns.
     */
    method Iterate() returns (keys: seq<Bits>, last: Node?)
      requires Valid()
      ensures Sorted(keys) && |keys| == |Contents()|
      ensures forall k {:trigger k in keys} :: k in keys <==> k in Contents()
      ensures last == if Order(tree) == [] then null else Order(tree)[|Order(tree)| - 1]
    {
      keys, last := Visit();
      OrderHasKeys(tree);
      CountIsCardinality(tree);
      OrderIsSorted(tree);
    }

    /** The loop over GetNext. */
    method Visit() returns (keys: seq<Bits>, last: Node?)
      requires Valid()
      ensures keys == KeyOrder(tree)
      ensures last == if Order(tree) == [] then null else Order(tree)[|Order(tree)| - 1]
    {
      keys, last := [], null;
      OrderHasKeys(tree);
      ghost var ids, all := Order(tree), KeyOrder(tree);
      var x := GetNext(null, -1);
      while x != null
        invariant |keys| <= |ids| && keys == all[..|keys|]
        invariant x == if |keys| < |ids| then ids[|keys|] else null
        invariant last == if keys == [] then null else ids[|keys| - 1]
        decreases |ids| - |keys|
      {
        ghost var j := |keys|;
        NodeKeyInOrder(tree, null, j);
        last := x;
        keys := keys + [x.key];
        assert all[..j + 1] == all[..j] + [all[j]];
        x := GetNext(x, j);
      }
      assert all[..|all|] == all;
    }
  }
}
