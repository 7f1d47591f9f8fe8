/** BitSet: finite sets of positions as vectors of 64-bit blocks that end with a block other than zero. */
module BitSets {
  import opened Options
  import opened Word

  type Blocks = seq<bv64>

  /** Blocks beyond the end count as zero. */
  function Get(b: Blocks, i: nat): bv64 {
    if i < |b| then b[i] else 0
  }

  predicate Member(b: Blocks, p: nat) {
    Has(Get(b, p / 64), p % 64)
  }

  /** The set a vector stands for. */
  function Set(b: Blocks): set<nat> {
    set p | 0 <= p < 64 * |b| && Member(b, p)
  }

  predicate Canonical(b: Blocks) {
    b != [] ==> b[|b| - 1] != 0
  }

  lemma InSet(b: Blocks, p: nat)
    ensures p in Set(b) <==> Member(b, p)
  {
    if p >= 64 * |b| {
      ZeroHas(Get(b, p / 64), p % 64);
    }
  }

  lemma Position(idx: nat, offset: nat)
    requires offset < 64
    ensures (idx * 64 + offset) / 64 == idx && (idx * 64 + offset) % 64 == offset
  {
  }

  /** A block that is not zero puts some position into the set. */
  lemma BlockHasMember(b: Blocks, idx: nat) returns (p: nat)
    requires idx < |b| && b[idx] != 0
    ensures p / 64 == idx && p in Set(b)
  {
    var i := LowestExists(b[idx]);
    p := idx * 64 + i;
    Position(idx, i);
    InSet(b, p);
  }

  /** Canonical vectors are equal exactly when they stand for the same set. */
  lemma CanonicalIsUnique(a: Blocks, b: Blocks)
    requires Canonical(a) && Canonical(b)
    ensures a == b <==> Set(a) == Set(b)
  {
    if Set(a) == Set(b) {
      NotLonger(a, b);
      NotLonger(b, a);
      forall idx | 0 <= idx < |a| ensures a[idx] == b[idx] {
        SameBlock(a, b, idx);
      }
    }
  }

  lemma NotLonger(a: Blocks, b: Blocks)
    requires Canonical(a) && Set(a) <= Set(b)
    ensures |a| <= |b|
  {
    if |a| > |b| {
      var p := BlockHasMember(a, |a| - 1);
    }
  }

  lemma SameBlock(a: Blocks, b: Blocks, idx: nat)
    requires Set(a) == Set(b) && idx < |a| && idx < |b|
    ensures a[idx] == b[idx]
  {
    forall i: nat | i < 64 ensures Has(a[idx], i) <==> Has(b[idx], i) {
      Position(idx, i);
      InSet(a, idx * 64 + i);
      InSet(b, idx * 64 + i);
    }
    SameBits(a[idx], b[idx]);
  }

  // ---- Blockwise operations ----

  lemma UnionOfBlocks(a: Blocks, b: Blocks, r: Blocks)
    requires forall i: nat {:trigger Get(r, i)} :: Get(r, i) == Or(Get(a, i), Get(b, i))
    ensures Set(r) == Set(a) + Set(b)
  {
    forall p: nat ensures p in Set(r) <==> p in Set(a) + Set(b) {
      InSet(r, p);
      InSet(a, p);
      InSet(b, p);
      OrHas(Get(a, p / 64), Get(b, p / 64), p % 64);
    }
    SameMembers(Set(r), Set(a) + Set(b));
  }

  /** The blocks of operator|: the last one is that of the longer operand, or the or of two. */
  lemma LongerUnion(a: Blocks, b: Blocks, r: Blocks)
    requires Canonical(a) && Canonical(b) && |r| == (if |a| < |b| then |b| else |a|)
    requires forall i {:trigger r[i]} :: 0 <= i < |r| ==>
      r[i] == if i < |a| && i < |b| then Or(a[i], b[i]) else if i < |a| then a[i] else b[i]
    ensures Canonical(r) && Set(r) == Set(a) + Set(b)
  {
    OrWithZero();
    UnionOfBlocks(a, b, r);
    if |a| == |b| > 0 {
      OrNonzero(a[|b| - 1], b[|b| - 1]);
    }
  }

  ghost predicate OrUpTo(r: Blocks, a: Blocks, b: Blocks, n: nat)
    requires n <= |r| && n <= |a| && n <= |b|
  {
    forall i {:trigger r[i]} :: 0 <= i < n ==> r[i] == Or(a[i], b[i])
  }

  lemma IntersectionOfBlocks(a: Blocks, b: Blocks, r: Blocks)
    requires forall i: nat {:trigger Get(r, i)} :: Get(r, i) == And(Get(a, i), Get(b, i))
    ensures Set(r) == Set(a) * Set(b)
  {
    forall p: nat ensures p in Set(r) <==> p in Set(a) * Set(b) {
      InSet(r, p);
      InSet(a, p);
      InSet(b, p);
      AndHas(Get(a, p / 64), Get(b, p / 64), p % 64);
    }
    SameMembers(Set(r), Set(a) * Set(b));
  }

  lemma DifferenceOfBlocks(a: Blocks, b: Blocks, r: Blocks)
    requires forall i: nat {:trigger Get(r, i)} :: Get(r, i) == AndNot(Get(a, i), Get(b, i))
    ensures Set(r) == Set(a) - Set(b)
  {
    forall p: nat ensures p in Set(r) <==> p in Set(a) - Set(b) {
      InSet(r, p);
      InSet(a, p);
      InSet(b, p);
      AndNotHas(Get(a, p / 64), Get(b, p / 64), p % 64);
    }
    SameMembers(Set(r), Set(a) - Set(b));
  }

  lemma SameMembers(x: set<nat>, y: set<nat>)
    requires forall p: nat {:trigger p in x} {:trigger p in y} :: p in x <==> p in y
    ensures x == y
  {
  }

  /** Vectors that agree on every block, zeros beyond the end included. */
  lemma SameBlocks(a: Blocks, b: Blocks)
    requires forall i: nat {:trigger Get(a, i)} :: Get(a, i) == Get(b, i)
    ensures Set(a) == Set(b)
  {
    forall p: nat ensures p in Set(a) <==> p in Set(b) {
      InSet(a, p);
      InSet(b, p);
    }
    SameMembers(Set(a), Set(b));
  }

  function Min(a: nat, b: nat): nat {
    if a < b then a else b
  }

  function Zeros(n: nat): (r: Blocks)
    ensures |r| == n && forall i {:trigger r[i]} :: 0 <= i < n ==> r[i] == 0
  {
    seq(n, i => 0)
  }

  lemma SetBlock(b: Blocks, pos: nat)
    requires pos / 64 < |b|
    ensures Set(b[pos / 64 := With(b[pos / 64], pos % 64)]) == Set(b) + {pos}
  {
    var r := b[pos / 64 := With(b[pos / 64], pos % 64)];
    forall p: nat ensures p in Set(r) <==> p in Set(b) + {pos} {
      InSet(r, p);
      InSet(b, p);
      WithHas(b[pos / 64], pos % 64, p % 64);
    }
    SameMembers(Set(r), Set(b) + {pos});
  }

  lemma ResetBlock(b: Blocks, pos: nat)
    requires pos / 64 < |b|
    ensures Set(b[pos / 64 := Without(b[pos / 64], pos % 64)]) == Set(b) - {pos}
  {
    var r := b[pos / 64 := Without(b[pos / 64], pos % 64)];
    forall p: nat ensures p in Set(r) <==> p in Set(b) - {pos} {
      InSet(r, p);
      InSet(b, p);
      WithoutHas(b[pos / 64], pos % 64, p % 64);
    }
    SameMembers(Set(r), Set(b) - {pos});
  }

  // ---- Counting ----

  /** The positions of one block. */
  ghost function BlockSet(w: bv64, idx: nat): set<nat> {
    set i | i in Bits(w) :: idx * 64 + i
  }

  lemma {:induction false} ShiftedSize(x: set<nat>, d: nat)
    ensures |set i | i in x :: d + i| == |x|
  {
    var y := set i | i in x :: d + i;
    if x != {} {
      var i :| i in x;
      var y1 := set j | j in x - {i} :: d + j;
      ShiftedSize(x - {i}, d);
      forall z | z in y ensures z in y1 + {d + i} {
        var j :| j in x && z == d + j;
        assert j == i || j in x - {i};
      }
      assert y == y1 + {d + i};
    }
  }

  lemma OneMoreBlock(b: Blocks, idx: nat)
    requires idx < |b|
    ensures |Set(b[..idx + 1])| == |Set(b[..idx])| + |Bits(b[idx])|
  {
    var low, high := Set(b[..idx]), BlockSet(b[idx], idx);
    forall p: nat ensures p in Set(b[..idx + 1]) <==> p in low + high {
      InSet(b[..idx + 1], p);
      InSet(b[..idx], p);
      InBlockSet(b[idx], idx, p);
      if p / 64 >= idx {
        ZeroHas(0, p % 64);
      }
    }
    SameMembers(Set(b[..idx + 1]), low + high);
    assert low !! high by {
      forall p: nat | p in low ensures p !in high {
        InBlockSet(b[idx], idx, p);
      }
    }
    ShiftedSize(Bits(b[idx]), idx * 64);
  }

  lemma InBlockSet(w: bv64, idx: nat, p: nat)
    ensures p in BlockSet(w, idx) <==> p / 64 == idx && Has(w, p % 64)
  {
    if p / 64 == idx && Has(w, p % 64) {
      assert p == idx * 64 + p % 64;
      assert p % 64 in Bits(w);
    }
    if p in BlockSet(w, idx) {
      var i :| i in Bits(w) && p == idx * 64 + i;
      HasAt(w, i);
      assert Has(w, i);
      Position(idx, i);
    }
  }

  // ---- Searching ----

  /** The least member from a position on, if any. */
  ghost predicate LeastFrom(x: set<nat>, from: nat, r: Option<nat>) {
    match r
    case None => forall p: nat {:trigger p in x} :: p >= from ==> p !in x
    case Some(m) => m in x && m >= from && forall p: nat {:trigger p in x} :: from <= p < m ==> p !in x
  }

  ghost predicate Greatest(x: set<nat>, r: Option<nat>) {
    match r
    case None => x == {}
    case Some(m) => m in x && forall p: nat {:trigger p in x} :: p in x ==> p <= m
  }

  /** The least position from a position on that is not a member. */
  ghost predicate LeastClear(x: set<nat>, from: nat, m: nat) {
    m !in x && m >= from && forall p: nat {:trigger p in x} :: from <= p < m ==> p in x
  }

  class BitSet {
    var blocks: Blocks

    ghost function View(): set<nat>
      reads this
    {
      Set(blocks)
    }

    constructor ()
      ensures blocks == [] && View() == {}
    {
      blocks := [];
    }

    /** set. */
    method Add(pos: nat)
      requires Canonical(blocks)
      modifies this
      ensures Canonical(blocks) && View() == old(View()) + {pos}
    {
      var idx := pos / 64;
      if idx >= |blocks| {
        SameBlocks(blocks, blocks + Zeros(idx + 1 - |blocks|));
        blocks := blocks + Zeros(idx + 1 - |blocks|);
      }
      SetBlock(blocks, pos);
      WithNonzero(blocks[idx], pos % 64);
      blocks := blocks[idx := With(blocks[idx], pos % 64)];
    }

    /** reset. */
    method Remove(pos: nat)
      requires Canonical(blocks)
      modifies this
      ensures Canonical(blocks) && View() == old(View()) - {pos}
    {
      var idx := pos / 64;
      if idx < |blocks| {
        ResetBlock(blocks, pos);
        blocks := blocks[idx := Without(blocks[idx], pos % 64)];
        Compact();
      } else {
        InSet(blocks, pos);
      }
    }

    method Test(pos: nat) returns (r: bool)
      ensures r <==> pos in View()
    {
      InSet(blocks, pos);
      var idx := pos / 64;
      if idx < |blocks| {
        TestedHas(blocks[idx], pos % 64);
        r := Tested(blocks[idx], pos % 64);
      } else {
        r := false;
      }
    }

    /** none; also empty and the negation of any. */
    method None() returns (r: bool)
      requires Canonical(blocks)
      ensures r <==> View() == {}
    {
      if blocks != [] {
        var p := BlockHasMember(blocks, |blocks| - 1);
      }
      r := |blocks| == 0;
    }

    /** Removes the zero blocks at the end. */
    method Compact()
      modifies this
      ensures Canonical(blocks) && View() == old(View())
    {
      if |blocks| == 0 {
        return;
      }
      var idx := |blocks| - 1;
      while idx > 0
        invariant 0 <= idx < |blocks| && blocks == old(blocks)
        invariant forall i {:trigger blocks[i]} :: idx < i < |blocks| ==> blocks[i] == 0
      {
        if blocks[idx] != 0 {
          SameBlocks(blocks, blocks[..idx + 1]);
          blocks := blocks[..idx + 1];
          return;
        }
        idx := idx - 1;
      }
      if blocks[0] != 0 {
        SameBlocks(blocks, blocks[..1]);
        blocks := blocks[..1];
        return;
      }
      SameBlocks(blocks, []);
      blocks := [];
    }

    method Count() returns (count: nat)
      ensures count == |View()|
    {
      count := 0;
      var idx := 0;
      assert blocks[..0] == [];
      while idx < |blocks|
        invariant idx <= |blocks| && count == |Set(blocks[..idx])|
      {
        var n := NumBitsSet(blocks[idx]);
        OneMoreBlock(blocks, idx);
        count := count + n;
        idx := idx + 1;
      }
      assert blocks[..idx] == blocks;
    }

    /** The first set bit in the blocks from idx on. */
    method FirstFromBlock(start: nat) returns (r: Option<nat>)
      ensures LeastFrom(View(), start * 64, r)
    {
      var idx := start;
      while idx < |blocks|
        invariant start <= idx
        invariant forall p: nat {:trigger p in Set(blocks)} :: start * 64 <= p < idx * 64 ==> p !in Set(blocks)
      {
        var bit := FindFirstSet64(blocks[idx]);
        if bit > 0 {
          FoundInBlock(blocks, idx, bit - 1);
          return Some(idx * 64 + bit - 1);
        }
        ZeroBlock(blocks, idx);
        idx := idx + 1;
      }
      NothingBeyond(blocks);
      return Option.None;
    }

    method FindFirst() returns (r: Option<nat>)
      ensures LeastFrom(View(), 0, r)
    {
      r := FirstFromBlock(0);
    }

    /** The next member after a position. */
    method FindNext(pos: nat) returns (r: Option<nat>)
      ensures LeastFrom(View(), pos + 1, r)
    {
      var idx := pos / 64;
      if idx >= |blocks| {
        NothingBeyond(blocks);
        return Option.None;
      }
      if pos % 64 < 63 {
        var temp := AndNot(blocks[idx], Low(pos % 64));
        var bit := FindFirstSet64(temp);
        if bit > 0 {
          FoundAfter(blocks, pos, temp, bit - 1);
          return Some(idx * 64 + bit - 1);
        }
        NothingAfter(blocks, pos, temp);
      }
      r := FirstFromBlock(idx + 1);
    }

    /** Only the last block is looked at. */
    method FindLast() returns (r: Option<nat>)
      requires Canonical(blocks)
      ensures Greatest(View(), r)
    {
      if |blocks| == 0 {
        return Option.None;
      }
      var idx := |blocks| - 1;
      var bit := FindLastSet64(blocks[idx]);
      LastInBlock(blocks, bit - 1);
      return Some(idx * 64 + bit - 1);
    }

    /** The first clear bit in the blocks from start on, which may be beyond the last block. */
    method ClearFromBlock(start: nat) returns (m: nat)
      requires start <= |blocks|
      ensures LeastClear(View(), start * 64, m)
    {
      var idx := start;
      while idx < |blocks|
        invariant start <= idx <= |blocks|
        invariant forall p: nat {:trigger p in Set(blocks)} :: start * 64 <= p < idx * 64 ==> p in Set(blocks)
      {
        var bit := FindFirstClear64(blocks[idx]);
        if bit > 0 {
          ClearInBlock(blocks, idx, bit - 1);
          return idx * 64 + bit - 1;
        }
        FullBlock(blocks, idx);
        idx := idx + 1;
      }
      NothingBeyond(blocks);
      return |blocks| * 64;
    }

    method FindFirstClear() returns (m: nat)
      ensures LeastClear(View(), 0, m)
    {
      m := ClearFromBlock(0);
    }

    /** The next position after a position that is not a member. */
    method FindNextClear(pos: nat) returns (m: nat)
      ensures LeastClear(View(), pos + 1, m)
    {
      var idx := pos / 64;
      if idx >= |blocks| {
        NothingBeyond(blocks);
        return pos + 1;
      }
      if pos % 64 < 63 {
        var temp := Or(blocks[idx], Low(pos % 64));
        var bit := FindFirstClear64(temp);
        if bit > 0 {
          ClearAfter(blocks, pos, temp, bit - 1);
          return idx * 64 + bit - 1;
        }
        FullAfter(blocks, pos, temp);
      }
      m := ClearFromBlock(idx + 1);
    }

    // ---- Set algebra; rhs is the vector of the other operand ----

    method Intersects(rhs: Blocks) returns (r: bool)
      ensures r <==> View() * Set(rhs) != {}
    {
      var idx := 0;
      while idx < Min(|blocks|, |rhs|)
        invariant idx <= Min(|blocks|, |rhs|)
        invariant forall i {:trigger blocks[i]} :: 0 <= i < idx ==> And(blocks[i], rhs[i]) == 0
      {
        if And(blocks[idx], rhs[idx]) != 0 {
          CommonMember(blocks, rhs, idx);
          return true;
        }
        idx := idx + 1;
      }
      NoCommonMember(blocks, rhs);
      return false;
    }

    /** Comparing the number of blocks first is fine because both vectors are canonical. */
    method Equals(rhs: Blocks) returns (r: bool)
      requires Canonical(blocks) && Canonical(rhs)
      ensures r <==> View() == Set(rhs)
    {
      CanonicalIsUnique(blocks, rhs);
      if |blocks| != |rhs| {
        return false;
      }
      var idx := 0;
      while idx < |blocks|
        invariant idx <= |blocks| && blocks[..idx] == rhs[..idx]
      {
        if blocks[idx] != rhs[idx] {
          return false;
        }
        assert blocks[..idx + 1] == blocks[..idx] + [blocks[idx]];
        assert rhs[..idx + 1] == rhs[..idx] + [rhs[idx]];
        idx := idx + 1;
      }
      assert blocks == blocks[..idx] && rhs == rhs[..idx];
      return true;
    }

    /** operator|: the common blocks, and those of the longer operand. */
    method Union(rhs: Blocks) returns (r: Blocks)
      requires Canonical(blocks) && Canonical(rhs)
      ensures Canonical(r) && Set(r) == View() + Set(rhs)
    {
      var min := Min(|blocks|, |rhs|);
      r := OrCommon(rhs, min, if |blocks| < |rhs| then |rhs| else |blocks|);
      r := CopyFrom(r, blocks, min);
      r := CopyFrom(r, rhs, min);
      LongerUnion(blocks, rhs, r);
    }

    /** The or of the first blocks, and zeros. */
    method OrCommon(rhs: Blocks, min: nat, max: nat) returns (r: Blocks)
      requires min <= |blocks| && min <= |rhs| && min <= max
      ensures |r| == max && OrUpTo(r, blocks, rhs, min)
    {
      r := Zeros(max);
      var idx := 0;
      while idx < min
        invariant idx <= min && |r| == max && OrUpTo(r, blocks, rhs, idx)
      {
        r := r[idx := Or(blocks[idx], rhs[idx])];
        idx := idx + 1;
      }
    }

    /** Takes over the blocks of a from position start on. */
    method CopyFrom(r: Blocks, a: Blocks, start: nat) returns (s: Blocks)
      requires start <= |a| <= |r|
      ensures |s| == |r| && forall i {:trigger s[i]} :: 0 <= i < |s| ==> s[i] == if start <= i < |a| then a[i] else r[i]
    {
      s := r;
      var idx := start;
      while idx < |a|
        invariant start <= idx <= |a| && |s| == |r|
        invariant forall i {:trigger s[i]} :: 0 <= i < |s| ==> s[i] == if start <= i < idx then a[i] else r[i]
      {
        s := s[idx := a[idx]];
        idx := idx + 1;
      }
    }

    /** operator|=, also Set. */
    method UnionWith(rhs: Blocks)
      requires Canonical(blocks) && Canonical(rhs)
      modifies this
      ensures Canonical(blocks) && View() == old(View()) + Set(rhs)
    {
      if |blocks| < |rhs| {
        blocks := blocks + Zeros(|rhs| - |blocks|);
      }
      ghost var a := blocks;
      SameBlocks(old(blocks), a);
      var idx := 0;
      while idx < |rhs|
        invariant idx <= |rhs| && |blocks| == |a|
        invariant forall i {:trigger blocks[i]} :: 0 <= i < idx ==> blocks[i] == Or(a[i], rhs[i])
        invariant forall i {:trigger blocks[i]} :: idx <= i < |a| ==> blocks[i] == a[i]
      {
        blocks := blocks[idx := Or(blocks[idx], rhs[idx])];
        idx := idx + 1;
      }
      OrWithZero();
      UnionOfBlocks(a, rhs, blocks);
      if |rhs| > 0 {
        OrNonzero(a[|rhs| - 1], rhs[|rhs| - 1]);
      }
    }

    /** operator&=. */
    method IntersectWith(rhs: Blocks)
      modifies this
      ensures Canonical(blocks) && View() == old(View()) * Set(rhs)
    {
      var minsize := Min(|blocks|, |rhs|);
      var idx := 0;
      while idx < minsize
        invariant idx <= minsize && |blocks| == |old(blocks)|
        invariant forall i {:trigger blocks[i]} :: 0 <= i < idx ==> blocks[i] == And(old(blocks)[i], rhs[i])
        invariant forall i {:trigger blocks[i]} :: idx <= i < |blocks| ==> blocks[i] == old(blocks)[i]
      {
        blocks := blocks[idx := And(blocks[idx], rhs[idx])];
        idx := idx + 1;
      }
      while idx < |blocks|
        invariant minsize <= idx <= |blocks| && |blocks| == |old(blocks)|
        invariant forall i {:trigger blocks[i]} :: 0 <= i < minsize ==> blocks[i] == And(old(blocks)[i], rhs[i])
        invariant forall i {:trigger blocks[i]} :: minsize <= i < idx ==> blocks[i] == 0
      {
        blocks := blocks[idx := 0];
        idx := idx + 1;
      }
      AndWithZero();
      IntersectionOfBlocks(old(blocks), rhs, blocks);
      Compact();
    }

    /** Reset of another bit set. */
    method Subtract(rhs: Blocks)
      requires Canonical(blocks)
      modifies this
      ensures Canonical(blocks) && View() == old(View()) - Set(rhs)
    {
      var idx := 0;
      while idx < Min(|blocks|, |rhs|)
        invariant idx <= Min(|blocks|, |rhs|) && |blocks| == |old(blocks)|
        invariant forall i {:trigger blocks[i]} :: 0 <= i < idx ==> blocks[i] == AndNot(old(blocks)[i], rhs[i])
        invariant forall i {:trigger blocks[i]} :: idx <= i < |blocks| ==> blocks[i] == old(blocks)[i]
      {
        blocks := blocks[idx := AndNot(blocks[idx], rhs[idx])];
        idx := idx + 1;
      }
      AndNotZero();
      DifferenceOfBlocks(old(blocks), rhs, blocks);
      Compact();
    }

    /** Builds the blocks in reverse order, so that the vector is sized once and needs no compaction. */
    method BuildIntersection(lhs: Blocks, rhs: Blocks)
      modifies this
      ensures Canonical(blocks) && View() == Set(lhs) * Set(rhs)
    {
      blocks := [];
      var idx := Min(|lhs|, |rhs|);
      while idx > 0
        invariant 0 <= idx <= Min(|lhs|, |rhs|) && Canonical(blocks)
        invariant blocks != [] ==> idx < |blocks| <= Min(|lhs|, |rhs|)
        invariant forall i {:trigger blocks[i]} :: 0 <= i < idx && i < |blocks| ==> blocks[i] == 0
        invariant forall i {:trigger And(lhs[i], rhs[i])} :: idx <= i < Min(|lhs|, |rhs|) ==>
          And(lhs[i], rhs[i]) == if i < |blocks| then blocks[i] else 0
      {
        idx := idx - 1;
        if And(lhs[idx], rhs[idx]) != 0 {
          if |blocks| == 0 {
            blocks := Zeros(idx + 1);
          }
          blocks := blocks[idx := And(lhs[idx], rhs[idx])];
        }
      }
      AndWithZero();
      IntersectionOfBlocks(lhs, rhs, blocks);
    }

    /** BuildComplement: the members of lhs that are not in rhs. */
    method BuildComplement(lhs: Blocks, rhs: Blocks)
      modifies this
      ensures Canonical(blocks) && View() == Set(lhs) - Set(rhs)
    {
      blocks := Zeros(|lhs|);
      var minsize := Min(|blocks|, |rhs|);
      var idx := 0;
      while idx < minsize
        invariant idx <= minsize && |blocks| == |lhs|
        invariant forall i {:trigger blocks[i]} :: 0 <= i < idx ==> blocks[i] == AndNot(lhs[i], rhs[i])
      {
        blocks := blocks[idx := AndNot(lhs[idx], rhs[idx])];
        idx := idx + 1;
      }
      while idx < |lhs|
        invariant minsize <= idx <= |lhs| && |blocks| == |lhs|
        invariant forall i {:trigger blocks[i]} :: 0 <= i < minsize ==> blocks[i] == AndNot(lhs[i], rhs[i])
        invariant forall i {:trigger blocks[i]} :: minsize <= i < idx ==> blocks[i] == lhs[i]
      {
        blocks := blocks[idx := lhs[idx]];
        idx := idx + 1;
      }
      AndNotZero();
      DifferenceOfBlocks(lhs, rhs, blocks);
      Compact();
    }

    method Contains(rhs: Blocks) returns (r: bool)
      requires Canonical(rhs)
      ensures r <==> Set(rhs) <= View()
    {
      if |blocks| < |rhs| {
        if Set(rhs) <= Set(blocks) {
          NotLonger(rhs, blocks);
        }
        return false;
      }
      var idx := 0;
      while idx < |rhs|
        invariant idx <= |rhs|
        invariant forall i {:trigger rhs[i]} :: 0 <= i < idx ==> AndNot(rhs[i], blocks[i]) == 0
      {
        if AndNot(rhs[idx], blocks[idx]) != 0 {
          MissingMember(blocks, rhs, idx);
          return false;
        }
        idx := idx + 1;
      }
      NoMissingMember(blocks, rhs);
      return true;
    }
  }

  lemma NothingBeyond(b: Blocks)
    ensures forall p: nat {:trigger p in Set(b)} :: p >= 64 * |b| ==> p !in Set(b)
  {
  }

  lemma ZeroBlock(b: Blocks, idx: nat)
    requires idx < |b| && b[idx] == 0
    ensures forall p: nat {:trigger p in Set(b)} :: idx * 64 <= p < (idx + 1) * 64 ==> p !in Set(b)
  {
    forall p: nat | idx * 64 <= p < (idx + 1) * 64 ensures p !in Set(b) {
      InSet(b, p);
      ZeroHas(b[idx], p % 64);
    }
  }

  lemma FoundInBlock(b: Blocks, idx: nat, i: nat)
    requires idx < |b| && Lowest(b[idx], i)
    ensures idx * 64 + i in Set(b)
    ensures forall p: nat {:trigger p in Set(b)} :: idx * 64 <= p < idx * 64 + i ==> p !in Set(b)
  {
    Position(idx, i);
    InSet(b, idx * 64 + i);
    forall p: nat | idx * 64 <= p < idx * 64 + i ensures p !in Set(b) {
      InSet(b, p);
      assert p / 64 == idx && p % 64 < i;
    }
  }

  lemma MaskedBit(w: bv64, off: nat, temp: bv64, i: nat)
    requires off < 63 && temp == AndNot(w, Low(off))
    ensures Has(temp, i) <==> Has(w, i) && i > off
  {
    AndNotHas(w, Low(off), i);
    LowHas(off, i);
  }

  lemma FoundAfter(b: Blocks, pos: nat, temp: bv64, i: nat)
    requires pos / 64 < |b| && pos % 64 < 63 && temp == AndNot(b[pos / 64], Low(pos % 64)) && Lowest(temp, i)
    ensures LeastFrom(Set(b), pos + 1, Some(pos / 64 * 64 + i))
  {
    var idx := pos / 64;
    MaskedBit(b[idx], pos % 64, temp, i);
    Position(idx, i);
    InSet(b, idx * 64 + i);
    forall p: nat | pos + 1 <= p < idx * 64 + i ensures p !in Set(b) {
      InSet(b, p);
      assert p / 64 == idx && p % 64 < i && p % 64 > pos % 64;
      MaskedBit(b[idx], pos % 64, temp, p % 64);
    }
  }

  lemma NothingAfter(b: Blocks, pos: nat, temp: bv64)
    requires pos / 64 < |b| && pos % 64 < 63 && temp == AndNot(b[pos / 64], Low(pos % 64)) && temp == 0
    ensures forall p: nat {:trigger p in Set(b)} :: pos < p < (pos / 64 + 1) * 64 ==> p !in Set(b)
  {
    forall p: nat | pos < p < (pos / 64 + 1) * 64 ensures p !in Set(b) {
      InSet(b, p);
      assert p / 64 == pos / 64 && p % 64 > pos % 64;
      MaskedBit(b[pos / 64], pos % 64, temp, p % 64);
      ZeroHas(temp, p % 64);
    }
  }

  lemma LastInBlock(b: Blocks, i: nat)
    requires b != [] && Highest(b[|b| - 1], i)
    ensures Greatest(Set(b), Some((|b| - 1) * 64 + i))
  {
    var idx := |b| - 1;
    Position(idx, i);
    InSet(b, idx * 64 + i);
    forall p: nat | p in Set(b) ensures p <= idx * 64 + i {
      InSet(b, p);
    }
  }

  lemma ClearInBlock(b: Blocks, idx: nat, i: nat)
    requires idx < |b| && i < 64 && !Has(b[idx], i)
    requires forall j: nat {:trigger Has(b[idx], j)} :: j < i ==> Has(b[idx], j)
    ensures idx * 64 + i !in Set(b)
    ensures forall p: nat {:trigger p in Set(b)} :: idx * 64 <= p < idx * 64 + i ==> p in Set(b)
  {
    Position(idx, i);
    InSet(b, idx * 64 + i);
    forall p: nat | idx * 64 <= p < idx * 64 + i ensures p in Set(b) {
      InSet(b, p);
      assert p / 64 == idx && p % 64 < i;
    }
  }

  lemma FullBlock(b: Blocks, idx: nat)
    requires idx < |b| && forall j: nat {:trigger Has(b[idx], j)} :: j < 64 ==> Has(b[idx], j)
    ensures forall p: nat {:trigger p in Set(b)} :: idx * 64 <= p < (idx + 1) * 64 ==> p in Set(b)
  {
    forall p: nat | idx * 64 <= p < (idx + 1) * 64 ensures p in Set(b) {
      InSet(b, p);
      assert p / 64 == idx;
    }
  }

  lemma FilledBit(w: bv64, off: nat, temp: bv64, i: nat)
    requires off < 63 && temp == Or(w, Low(off))
    ensures Has(temp, i) <==> Has(w, i) || i <= off
  {
    OrHas(w, Low(off), i);
    LowHas(off, i);
  }

  lemma ClearAfter(b: Blocks, pos: nat, temp: bv64, i: nat)
    requires pos / 64 < |b| && pos % 64 < 63 && temp == Or(b[pos / 64], Low(pos % 64))
    requires i < 64 && !Has(temp, i) && forall j: nat {:trigger Has(temp, j)} :: j < i ==> Has(temp, j)
    ensures LeastClear(Set(b), pos + 1, pos / 64 * 64 + i)
  {
    var idx := pos / 64;
    FilledBit(b[idx], pos % 64, temp, i);
    Position(idx, i);
    InSet(b, idx * 64 + i);
    forall p: nat | pos + 1 <= p < idx * 64 + i ensures p in Set(b) {
      InSet(b, p);
      assert p / 64 == idx && p % 64 < i && p % 64 > pos % 64;
      FilledBit(b[idx], pos % 64, temp, p % 64);
    }
  }

  lemma FullAfter(b: Blocks, pos: nat, temp: bv64)
    requires pos / 64 < |b| && pos % 64 < 63 && temp == Or(b[pos / 64], Low(pos % 64))
    requires forall j: nat {:trigger Has(temp, j)} :: j < 64 ==> Has(temp, j)
    ensures forall p: nat {:trigger p in Set(b)} :: pos < p < (pos / 64 + 1) * 64 ==> p in Set(b)
  {
    forall p: nat | pos < p < (pos / 64 + 1) * 64 ensures p in Set(b) {
      InSet(b, p);
      assert p / 64 == pos / 64 && p % 64 > pos % 64;
      FilledBit(b[pos / 64], pos % 64, temp, p % 64);
    }
  }

  // ---- Pairs of vectors ----

  lemma CommonMember(a: Blocks, b: Blocks, idx: nat)
    requires idx < |a| && idx < |b| && And(a[idx], b[idx]) != 0
    ensures Set(a) * Set(b) != {}
  {
    var i := LowestExists(And(a[idx], b[idx]));
    AndHas(a[idx], b[idx], i);
    Position(idx, i);
    InSet(a, idx * 64 + i);
    InSet(b, idx * 64 + i);
    assert idx * 64 + i in Set(a) * Set(b);
  }

  lemma NoCommonMember(a: Blocks, b: Blocks)
    requires forall i {:trigger a[i]} :: 0 <= i < Min(|a|, |b|) ==> And(a[i], b[i]) == 0
    ensures Set(a) * Set(b) == {}
  {
    forall p: nat | p in Set(a) && p in Set(b) ensures false {
      InSet(a, p);
      InSet(b, p);
      NothingBeyond(a);
      NothingBeyond(b);
      AndHas(a[p / 64], b[p / 64], p % 64);
      ZeroHas(And(a[p / 64], b[p / 64]), p % 64);
    }
  }

  lemma MissingMember(a: Blocks, b: Blocks, idx: nat)
    requires idx < |a| && idx < |b| && AndNot(b[idx], a[idx]) != 0
    ensures !(Set(b) <= Set(a))
  {
    var i := LowestExists(AndNot(b[idx], a[idx]));
    AndNotHas(b[idx], a[idx], i);
    Position(idx, i);
    InSet(a, idx * 64 + i);
    InSet(b, idx * 64 + i);
    assert idx * 64 + i in Set(b) && idx * 64 + i !in Set(a);
  }

  lemma NoMissingMember(a: Blocks, b: Blocks)
    requires |b| <= |a| && forall i {:trigger b[i]} :: 0 <= i < |b| ==> AndNot(b[i], a[i]) == 0
    ensures Set(b) <= Set(a)
  {
    forall p | p in Set(b) ensures p in Set(a) {
      InSet(a, p);
      InSet(b, p);
      NothingBeyond(b);
      AndNotHas(b[p / 64], a[p / 64], p % 64);
      ZeroHas(AndNot(b[p / 64], a[p / 64]), p % 64);
    }
  }
}
