/** The order in which a radix tree lists its keys. */
module RadixOrder {
  import opened RadixTree

  /** Lexicographic order with 0 before 1 and a prefix before its extensions. */
  predicate Less(a: Bits, b: Bits) {
    b != [] && (a == [] || (if a[0] == b[0] then Less(a[1..], b[1..]) else b[0]))
  }

  /** The data nodes in preorder. */
  ghost function Order<N>(t: Tree<N>): seq<N> {
    if t.Nil? then [] else (if t.data then [t.id] else []) + Order(t.left) + Order(t.right)
  }

  /** Their keys. */
  ghost function KeyOrder<N>(t: Tree<N>): seq<Bits> {
    if t.Nil? then [] else (if t.data then [t.bits] else []) + KeyOrder(t.left) + KeyOrder(t.right)
  }

  ghost predicate Sorted(s: seq<Bits>) {
    forall i, j {:trigger s[i], s[j]} :: 0 <= i < j < |s| ==> Less(s[i], s[j])
  }

  lemma {:induction false} PrefixIsLess(a: Bits, b: Bits)
    requires a <= b && |a| < |b|
    ensures Less(a, b)
  {
    if a != [] { PrefixIsLess(a[1..], b[1..]); }
  }

  lemma {:induction false} BranchIsLess(p: Bits, a: Bits, b: Bits)
    requires p <= a && |p| < |a| && !a[|p|]
    requires p <= b && |p| < |b| && b[|p|]
    ensures Less(a, b)
  {
    if p != [] { BranchIsLess(p[1..], a[1..], b[1..]); }
  }

  /** Every key is listed, and only keys are. */
  lemma {:induction false} OrderHasKeys<N>(t: Tree<N>)
    ensures forall k {:trigger k in KeyOrder(t)} {:trigger k in Keys(t)} :: k in KeyOrder(t) <==> k in Keys(t)
    ensures |Order(t)| == |KeyOrder(t)| == DataCount(t)
  {
    if t.Bin? {
      OrderHasKeys(t.left);
      OrderHasKeys(t.right);
    }
  }

  /** Preorder is lexicographic order. */
  lemma {:induction false} OrderIsSorted<N>(t: Tree<N>)
    requires Wf(t)
    ensures Sorted(KeyOrder(t))
  {
    if t.Bin? {
      OrderIsSorted(t.left);
      OrderIsSorted(t.right);
      OrderHasKeys(t.left);
      OrderHasKeys(t.right);
      var l, r := KeyOrder(t.left), KeyOrder(t.right);
      forall i | 0 <= i < |l| ensures Less(t.bits, l[i]) && |l[i]| > |t.bits| && !l[i][|t.bits|] && t.bits <= l[i] {
        assert l[i] in l;
        BranchBit(t.left, t.bits, false, l[i]);
        PrefixIsLess(t.bits, l[i]);
      }
      forall i | 0 <= i < |r| ensures Less(t.bits, r[i]) && |r[i]| > |t.bits| && r[i][|t.bits|] && t.bits <= r[i] {
        assert r[i] in r;
        BranchBit(t.right, t.bits, true, r[i]);
        PrefixIsLess(t.bits, r[i]);
      }
      forall i, j | 0 <= i < |l| && 0 <= j < |r| ensures Less(l[i], r[j]) {
        BranchIsLess(t.bits, l[i], r[j]);
      }
      SortedNode(t.bits, l, r);
      assert KeyOrder(t) == (if t.data then [t.bits] + l + r else l + r);
    }
  }

  lemma SortedNode(bits: Bits, l: seq<Bits>, r: seq<Bits>)
    requires Sorted(l) && Sorted(r)
    requires forall i {:trigger l[i]} :: 0 <= i < |l| ==> Less(bits, l[i])
    requires forall i {:trigger r[i]} :: 0 <= i < |r| ==> Less(bits, r[i])
    requires forall i, j {:trigger l[i], r[j]} :: 0 <= i < |l| && 0 <= j < |r| ==> Less(l[i], r[j])
    ensures Sorted(l + r) && Sorted([bits] + l + r)
  {
    SortedConcat(l, r);
    SortedConcat([bits], l + r);
    assert [bits] + l + r == [bits] + (l + r);
  }

  lemma SortedConcat(a: seq<Bits>, b: seq<Bits>)
    requires Sorted(a) && Sorted(b)
    requires forall i, j {:trigger a[i], b[j]} :: 0 <= i < |a| && 0 <= j < |b| ==> Less(a[i], b[j])
    ensures Sorted(a + b)
  {
  }

  // ---- Around a place ----

  /** The data nodes listed before and after the subtree that a path leads to. */
  ghost function Before<N>(p: Path<N>): seq<N> {
    if p.Top? then []
    else Before(p.up) + (if p.data then [p.id] else []) + (if p.hole then Order(p.other) else [])
  }

  ghost function After<N>(p: Path<N>): seq<N> {
    if p.Top? then [] else (if p.hole then [] else Order(p.other)) + After(p.up)
  }

  lemma {:induction false} OrderPlug<N>(p: Path<N>, t: Tree<N>)
    ensures Order(Plug(p, t)) == Before(p) + Order(t) + After(p)
  {
    if p.Frame? {
      OrderPlug(p.up, Fill(p, t));
      var own := if p.data then [p.id] else [];
      if p.hole {
        HoleOnRight(Before(p.up), own, Order(p.other), Order(t), After(p.up));
      } else {
        HoleOnLeft(Before(p.up), own, Order(t), Order(p.other), After(p.up));
      }
    }
  }

  lemma HoleOnRight<N>(b: seq<N>, own: seq<N>, l: seq<N>, t: seq<N>, a: seq<N>)
    ensures b + ((own + l) + t) + a == ((b + own) + l) + t + ([] + a)
  {
  }

  lemma HoleOnLeft<N>(b: seq<N>, own: seq<N>, t: seq<N>, r: seq<N>, a: seq<N>)
    ensures b + ((own + t) + r) + a == ((b + own) + []) + t + (r + a)
  {
  }

  /** The number of nodes of any kind. */
  ghost function Size<N>(t: Tree<N>): nat {
    if t.Nil? then 0 else 1 + Size(t.left) + Size(t.right)
  }

  ghost function SizeAfter<N>(p: Path<N>): nat {
    if p.Top? then 0 else (if p.hole then 0 else Size(p.other)) + SizeAfter(p.up)
  }

  ghost function Depth<N>(p: Path<N>): nat {
    if p.Top? then 0 else 1 + Depth(p.up)
  }

  lemma {:induction false} OrderInIds<N>(t: Tree<N>, i: nat)
    requires i < |Order(t)|
    ensures Order(t)[i] in Ids(t)
  {
    var own := if t.data then [t.id] else [];
    if i < |own| {
    } else if i < |own| + |Order(t.left)| {
      OrderInIds(t.left, i - |own|);
    } else {
      OrderInIds(t.right, i - |own| - |Order(t.left)|);
    }
  }

  /** Every node of a tree is at the end of some path. */
  lemma {:induction false} PathTo<N>(t: Tree<N>, n: N) returns (p: Path<N>, s: Tree<N>)
    requires n in Ids(t)
    ensures Plug(p, s) == t && s.Bin? && s.id == n
  {
    p, s := PathFrom(Top, t, n);
  }

  lemma {:induction false} PathFrom<N>(q: Path<N>, t: Tree<N>, n: N) returns (p: Path<N>, s: Tree<N>)
    requires n in Ids(t)
    ensures Plug(p, s) == Plug(q, t) && s.Bin? && s.id == n
    decreases t
  {
    if n == t.id {
      p, s := q, t;
    } else {
      var b := n in Ids(t.right);
      assert Plug(Down(q, t, b), Child(t, b)) == Plug(q, t);
      p, s := PathFrom(Down(q, t, b), Child(t, b), n);
    }
  }

  /** No node is listed twice. */
  lemma {:induction false} OrderDistinct<N>(t: Tree<N>, i: nat, j: nat)
    requires Distinct(t) && i < j < |Order(t)|
    ensures Order(t)[i] != Order(t)[j]
  {
    var own := if t.data then [t.id] else [];
    var l, r := Order(t.left), Order(t.right);
    var m, n := |own|, |own| + |l|;
    if m <= j < n { OrderInIds(t.left, j - m); }
    if n <= j { OrderInIds(t.right, j - n); }
    if m <= i < n {
      OrderInIds(t.left, i - m);
      if j < n { OrderDistinct(t.left, i - m, j - m); }
    } else if n <= i {
      OrderDistinct(t.right, i - n, j - n);
    }
  }

  /** What is listed after a data node, seen from its place. */
  lemma ListedAfter<N>(p: Path<N>, t: Tree<N>, j: nat)
    requires t.Bin? && t.data && Distinct(Plug(p, t)) && j < |Order(Plug(p, t))| && Order(Plug(p, t))[j] == t.id
    ensures Order(Plug(p, t))[j + 1..] == Order(t.left) + (Order(t.right) + After(p))
  {
    OrderPlug(p, t);
    var all, n := Order(Plug(p, t)), |Before(p)|;
    Regroup(Before(p), t.id, Order(t.left), Order(t.right), After(p));
    assert all[n] == t.id;
    if n < j { OrderDistinct(Plug(p, t), n, j); } else if j < n { OrderDistinct(Plug(p, t), j, n); }
  }

  lemma Regroup<N>(b: seq<N>, id: N, l: seq<N>, r: seq<N>, a: seq<N>)
    ensures var all := b + (([id] + l) + r) + a;
      |all| > |b| && all[|b|] == id && all[|b| + 1..] == l + (r + a)
  {
  }
}
