/** SubsetGenerator: the splits of a container, enumerated with a stack of indices. */
module Subset {

  // ---- Index lists and their positions in the enumeration ----

  function Pow2(n: nat): (r: nat)
    ensures r > 0
  {
    if n == 0 then 1 else 2 * Pow2(n - 1)
  }

  /** Strictly increasing, from k on and below n. */
  predicate Increasing(t: seq<nat>, k: nat, n: nat) {
    && (forall i {:trigger t[i]} :: 0 <= i < |t| ==> k <= t[i] < n)
    && (forall i, j {:trigger t[i], t[j]} :: 0 <= i < j < |t| ==> t[i] < t[j])
  }

  lemma IncreasingTail(t: seq<nat>, k: nat, n: nat)
    requires Increasing(t, k, n) && t != []
    ensures Increasing(t[1..], t[0] + 1, n) && Increasing(t[1..], k + 1, n)
    ensures t[0] != k ==> Increasing(t, k + 1, n)
    ensures k < n
  {
    assert forall i {:trigger t[1..][i]} :: 0 <= i < |t[1..]| ==> t[1..][i] == t[i + 1] && t[i + 1] > t[0];
  }

  /** Number of increasing lists that come before t when a list comes before its extensions. */
  function Rank(t: seq<nat>, k: nat, n: nat): nat
    requires Increasing(t, k, n)
    decreases n - k
  {
    if t == [] then 0
    else
      IncreasingTail(t, k, n);
      if t[0] == k then 1 + Rank(t[1..], k + 1, n)
      else Pow2(n - k - 1) + Rank(t, k + 1, n)
  }

  function Unrank(r: nat, k: nat, n: nat): (t: seq<nat>)
    requires k <= n && r < Pow2(n - k)
    ensures Increasing(t, k, n)
    ensures r > 0 ==> t != []
    decreases n - k
  {
    if r == 0 then []
    else if r <= Pow2(n - k - 1) then [k] + Unrank(r - 1, k + 1, n)
    else Unrank(r - Pow2(n - k - 1), k + 1, n)
  }

  lemma {:induction false} UnrankRank(t: seq<nat>, k: nat, n: nat)
    requires Increasing(t, k, n) && k <= n
    ensures Rank(t, k, n) < Pow2(n - k) && Unrank(Rank(t, k, n), k, n) == t
    ensures t != [] ==> Rank(t, k, n) > 0
    decreases n - k
  {
    if t != [] {
      IncreasingTail(t, k, n);
      if t[0] == k {
        UnrankRank(t[1..], k + 1, n);
      } else {
        UnrankRank(t, k + 1, n);
      }
    }
  }

  lemma RankSkip(t: seq<nat>, k: nat, n: nat)
    requires Increasing(t, k + 1, n) && t != [] && k < n
    ensures Increasing(t, k, n) && Rank(t, k, n) == Pow2(n - k - 1) + Rank(t, k + 1, n)
  {
    assert t[0] != k;
  }

  lemma RankCons(t: seq<nat>, k: nat, n: nat)
    requires Increasing(t, k + 1, n) && k < n
    ensures Increasing([k] + t, k, n) && Rank([k] + t, k, n) == 1 + Rank(t, k + 1, n)
  {
    assert ([k] + t)[1..] == t;
  }

  lemma {:induction false} RankUnrank(r: nat, k: nat, n: nat)
    requires k <= n && r < Pow2(n - k)
    ensures Rank(Unrank(r, k, n), k, n) == r
    decreases n - k
  {
    if r > 0 {
      if r <= Pow2(n - k - 1) {
        RankUnrank(r - 1, k + 1, n);
        RankCons(Unrank(r - 1, k + 1, n), k, n);
      } else {
        RankUnrank(r - Pow2(n - k - 1), k + 1, n);
        RankSkip(Unrank(r - Pow2(n - k - 1), k + 1, n), k, n);
      }
    }
  }

  // ---- The moves of the stack ----

  /** Pushing the index after the last one is the next list. */
  lemma PushIncreasing(t: seq<nat>, k: nat, n: nat, x: nat)
    requires Increasing(t, k, n) && x == (if t == [] then k else t[|t| - 1] + 1) && x < n
    ensures Increasing(t + [x], k, n)
  {
  }

  lemma {:induction false} RankPush(t: seq<nat>, k: nat, n: nat, x: nat)
    requires Increasing(t, k, n) && x == (if t == [] then k else t[|t| - 1] + 1) && x < n
    ensures Increasing(t + [x], k, n) && Rank(t + [x], k, n) == Rank(t, k, n) + 1
    decreases n - k
  {
    PushIncreasing(t, k, n, x);
    if t != [] {
      IncreasingTail(t, k, n);
      assert (t + [x])[1..] == t[1..] + [x] && (t + [x])[0] == t[0];
      if t[0] == k {
        RankPush(t[1..], k + 1, n, x);
      } else {
        RankPush(t, k + 1, n, x);
      }
    } else {
      assert [] + [x] == [x];
      assert [x][1..] == [];
    }
  }

  lemma {:induction false} RankLast(k: nat, n: nat)
    requires k < n
    ensures Rank([n - 1], k, n) == Pow2(n - k) - 1
    decreases n - k
  {
    if k == n - 1 {
      assert [n - 1][1..] == [];
    } else {
      RankLast(k + 1, n);
    }
  }

  lemma RankStepCons(a: seq<nat>, b: seq<nat>, k: nat, n: nat)
    requires k < n && Increasing(a, k + 1, n) && Increasing(b, k + 1, n) && Rank(b, k + 1, n) == Rank(a, k + 1, n) + 1
    ensures Increasing([k] + a, k, n) && Increasing([k] + b, k, n) && Rank([k] + b, k, n) == Rank([k] + a, k, n) + 1
  {
    RankCons(a, k, n);
    RankCons(b, k, n);
  }

  lemma RankStepSkip(a: seq<nat>, b: seq<nat>, k: nat, n: nat)
    requires k < n && a != [] && b != [] && Increasing(a, k + 1, n) && Increasing(b, k + 1, n)
    requires Rank(b, k + 1, n) == Rank(a, k + 1, n) + 1
    ensures Increasing(a, k, n) && Increasing(b, k, n) && Rank(b, k, n) == Rank(a, k, n) + 1
  {
    RankSkip(a, k, n);
    RankSkip(b, k, n);
  }

  /** Popping the last index of the container and moving the one below is the next list. */
  lemma {:induction false} RankPop(u: seq<nat>, x: nat, k: nat, n: nat)
    requires n > 0 && Increasing(u + [x, n - 1], k, n)
    ensures Increasing(u + [x + 1], k, n)
    ensures Rank(u + [x + 1], k, n) == Rank(u + [x, n - 1], k, n) + 1
    decreases n - k
  {
    if u != [] && u[0] == k {
      PopHead(u, x, k, n);
      RankPop(u[1..], x, k + 1, n);
      RankPopCons(u, u[1..], x, k, n);
    } else if u == [] && x == k {
      PopIncreasing(u, x, k, n);
      assert u + [x, n - 1] == [k, n - 1] && u + [x + 1] == [k + 1];
      RankPopFirst(k, n);
    } else {
      PopTail(u, x, k, n);
      RankPop(u, x, k + 1, n);
      RankStepSkip(u + [x, n - 1], u + [x + 1], k, n);
    }
  }

  lemma PopHead(u: seq<nat>, x: nat, k: nat, n: nat)
    requires n > 0 && Increasing(u + [x, n - 1], k, n) && u != [] && u[0] == k
    ensures k < n && u == [k] + u[1..] && Increasing(u[1..] + [x, n - 1], k + 1, n)
  {
    var s := u + [x, n - 1];
    IncreasingTail(s, k, n);
    assert s[1..] == u[1..] + [x, n - 1];
  }

  lemma PopTail(u: seq<nat>, x: nat, k: nat, n: nat)
    requires n > 0 && Increasing(u + [x, n - 1], k, n) && (if u == [] then x else u[0]) != k
    ensures k < n && Increasing(u + [x, n - 1], k + 1, n)
  {
    var s := u + [x, n - 1];
    assert s[0] != k;
    IncreasingTail(s, k, n);
  }

  lemma RankPopCons(u: seq<nat>, v: seq<nat>, x: nat, k: nat, n: nat)
    requires 0 < n && k < n && u == [k] + v && Increasing(v + [x, n - 1], k + 1, n) && Increasing(v + [x + 1], k + 1, n)
    requires Rank(v + [x + 1], k + 1, n) == Rank(v + [x, n - 1], k + 1, n) + 1
    ensures Increasing(u + [x, n - 1], k, n) && Increasing(u + [x + 1], k, n)
    ensures Rank(u + [x + 1], k, n) == Rank(u + [x, n - 1], k, n) + 1
  {
    assert u + [x, n - 1] == [k] + (v + [x, n - 1]) && u + [x + 1] == [k] + (v + [x + 1]);
    RankStepCons(v + [x, n - 1], v + [x + 1], k, n);
  }

  lemma RankPopFirst(k: nat, n: nat)
    requires k < n - 1
    ensures Rank([k + 1], k, n) == Rank([k, n - 1], k, n) + 1
  {
    var s, t := [k, n - 1], [k + 1];
    RankLast(k + 1, n);
    assert s[1..] == [n - 1] && t[1..] == [];
    assert Rank(t, k, n) == Pow2(n - k - 1) + Rank(t, k + 1, n);
    assert Rank(t, k + 1, n) == 1;
    assert Rank(s, k, n) == 1 + Rank(s[1..], k + 1, n);
  }

  lemma PopIncreasing(u: seq<nat>, x: nat, k: nat, n: nat)
    requires n > 0 && Increasing(u + [x, n - 1], k, n)
    ensures x < n - 1 && Increasing(u + [x + 1], k, n)
  {
    var s, t := u + [x, n - 1], u + [x + 1];
    assert s[|u|] == x && s[|u| + 1] == n - 1;
    assert forall i {:trigger t[i]} :: 0 <= i < |u| ==> t[i] == s[i];
  }

  // ---- The splits ----

  function Range(a: nat, b: nat): (r: seq<nat>)
    ensures |r| == if a < b then b - a else 0
    ensures forall i {:trigger r[i]} :: 0 <= i < |r| ==> r[i] == a + i
    decreases b - a
  {
    if a < b then [a] + Range(a + 1, b) else []
  }

  /** An increasing list of n - k indices has them all. */
  lemma {:induction false} FullIsRange(t: seq<nat>, k: nat, n: nat)
    requires Increasing(t, k, n) && k <= n
    ensures |t| <= n - k
    ensures |t| == n - k ==> t == Range(k, n) && Rank(t, k, n) == n - k
    ensures |t| < n - k ==> Rank(t, k, n) != n - k
    decreases n - k
  {
    if t != [] {
      IncreasingTail(t, k, n);
      FullIsRange(t[1..], k + 1, n);
      if t[0] != k {
        FullIsRange(t, k + 1, n);
        PowLarge(n - k - 1);
        UnrankRank(t, k + 1, n);
      }
    }
  }

  lemma {:induction false} PowLarge(n: nat)
    ensures Pow2(n) > n
  {
    if n > 0 {
      PowLarge(n - 1);
    }
  }

  /** Number of splits of n elements. */
  function Splits(n: nat): nat {
    if n == 0 then 0 else Pow2(n - 1) - 1
  }

  /** The indices on the left of the p-th split: the list of rank n - 1, which has all indices, is left out. */
  function Split(p: nat, n: nat): (s: seq<nat>)
    requires p < Splits(n)
    ensures s != [] && s[0] == 0
  {
    [0] + Unrank(if p < n - 1 then p else p + 1, 1, n)
  }

  predicate ProperLeft(s: seq<nat>, n: nat) {
    s != [] && s[0] == 0 && Increasing(s, 0, n) && |s| < n
  }

  function Position(s: seq<nat>, n: nat): nat
    requires ProperLeft(s, n)
  {
    IncreasingTail(s, 0, n);
    FullIsRange(s[1..], 1, n);
    var r := Rank(s[1..], 1, n);
    if r < n - 1 then r else r - 1
  }

  /** Every proper subset with element 0 is the left side of exactly one split. */
  lemma SplitsAreAll(s: seq<nat>, n: nat)
    requires ProperLeft(s, n)
    ensures Position(s, n) < Splits(n) && Split(Position(s, n), n) == s
  {
    IncreasingTail(s, 0, n);
    TailRank(s[1..], n);
    assert [0] + s[1..] == s;
  }

  lemma TailRank(t: seq<nat>, n: nat)
    requires Increasing(t, 1, n) && |t| < n - 1
    ensures Rank(t, 1, n) < Pow2(n - 1) && Unrank(Rank(t, 1, n), 1, n) == t
    ensures Rank(t, 1, n) != n - 1 && Pow2(n - 1) > n - 1
  {
    UnrankRank(t, 1, n);
    PowLarge(n - 1);
    NotFullRank(t, n);
  }

  lemma NotFullRank(t: seq<nat>, n: nat)
    requires Increasing(t, 1, n) && |t| < n - 1
    ensures Rank(t, 1, n) != n - 1
  {
    FullIsRange(t, 1, n);
  }

  lemma SplitsAreProper(p: nat, n: nat)
    requires p < Splits(n)
    ensures ProperLeft(Split(p, n), n) && Position(Split(p, n), n) == p
  {
    var r := if p < n - 1 then p else p + 1;
    var t := Unrank(r, 1, n);
    RankUnrank(r, 1, n);
    FullIsRange(t, 1, n);
    var s := [0] + t;
    assert s[1..] == t;
    assert forall i {:trigger s[i]} :: 0 < i < |s| ==> s[i] == t[i - 1];
  }

  // ---- The generator ----

  function Pick<T>(c: seq<T>, w: seq<nat>): (r: seq<T>)
    requires forall i {:trigger w[i]} :: 0 <= i < |w| ==> w[i] < |c|
  {
    seq(|w|, i requires 0 <= i < |w| => c[w[i]])
  }

  /** The indices from prev on that are not in s. */
  function Rest(s: seq<nat>, prev: nat, n: nat): (r: seq<nat>)
    requires Increasing(s, prev, n)
    ensures forall i {:trigger r[i]} :: 0 <= i < |r| ==> prev <= r[i] < n
    decreases |s|
  {
    if s == [] then Range(prev, n)
    else
      IncreasingTail(s, prev, n);
      Range(prev, s[0]) + Rest(s[1..], s[0] + 1, n)
  }

  /** The right side has exactly the indices that the left side does not have, in order. */
  lemma {:induction false} RestIsComplement(s: seq<nat>, prev: nat, n: nat)
    requires Increasing(s, prev, n) && prev <= n
    ensures Increasing(Rest(s, prev, n), prev, n) && |s| + |Rest(s, prev, n)| == n - prev
    ensures forall x {:trigger x in s} {:trigger x in Rest(s, prev, n)} :: prev <= x < n ==>
      (x in s <==> x !in Rest(s, prev, n))
    decreases |s|
  {
    if s == [] {
      forall x | prev <= x < n ensures x in Range(prev, n) {
        assert Range(prev, n)[x - prev] == x;
      }
    } else {
      IncreasingTail(s, prev, n);
      RestIsComplement(s[1..], s[0] + 1, n);
      RestStep(s, prev, n);
    }
  }

  lemma RestStep(s: seq<nat>, prev: nat, n: nat)
    requires Increasing(s, prev, n) && s != [] && Increasing(s[1..], s[0] + 1, n)
    requires var r := Rest(s[1..], s[0] + 1, n);
      && Increasing(r, s[0] + 1, n) && |s[1..]| + |r| == n - (s[0] + 1)
      && forall x {:trigger x in s[1..]} {:trigger x in r} :: s[0] + 1 <= x < n ==> (x in s[1..] <==> x !in r)
    ensures Increasing(Rest(s, prev, n), prev, n) && |s| + |Rest(s, prev, n)| == n - prev
    ensures forall x {:trigger x in s} {:trigger x in Rest(s, prev, n)} :: prev <= x < n ==>
      (x in s <==> x !in Rest(s, prev, n))
  {
    var y, u := s[0], s[1..];
    var a, r := Range(prev, y), Rest(u, y + 1, n);
    var t := Rest(s, prev, n);
    HeadAndTail(s);
    RestRises(y, a, r, prev, n);
    assert t == a + r;
    forall x | prev <= x < n ensures x in s <==> x !in t {
      InOneSide(y, u, a, r, prev, n, x);
    }
  }

  lemma HeadAndTail(s: seq<nat>)
    requires s != []
    ensures s == [s[0]] + s[1..]
  {
  }

  lemma RestRises(y: nat, a: seq<nat>, r: seq<nat>, prev: nat, n: nat)
    requires prev <= y < n && a == Range(prev, y) && Increasing(r, y + 1, n)
    ensures Increasing(a + r, prev, n)
  {
  }

  lemma InOneSide(y: nat, u: seq<nat>, a: seq<nat>, r: seq<nat>, prev: nat, n: nat, x: nat)
    requires prev <= x < n && a == Range(prev, y)
    requires Increasing(u, y + 1, n) && Increasing(r, y + 1, n) && (y + 1 <= x ==> (x in u <==> x !in r))
    ensures x in [y] + u <==> x !in a + r
  {
    if x < y {
      assert a[x - prev] == x;
    }
  }

  class SubsetGenerator<T> {
    const container: seq<T>
    var stack: seq<nat>

    constructor (c: seq<T>)
      ensures container == c && stack == [0] && fresh(this)
    {
      container, stack := c, [0];
    }

    predicate HasNext()
      requires stack != []
      reads this
    {
      |container| > 1 && stack[0] < 1
    }

    /** The stack holds the left side of the next split, or there is none. */
    ghost predicate Ok()
      reads this
    {
      stack != [] && (HasNext() ==> ProperLeft(stack, |container|))
    }

    method AppendRange(w: seq<T>, a: nat, b: nat) returns (r: seq<T>)
      requires a <= b <= |container|
      ensures r == w + Pick(container, Range(a, b))
    {
      r := w;
      var m := a;
      while m < b
        invariant a <= m <= b && r == w + Pick(container, Range(a, m))
      {
        RangeGrows(a, m);
        r := r + [container[m]];
        m := m + 1;
      }
    }

    /** The two sides of the split on the stack. */
    method Emit() returns (lhs: seq<T>, rhs: seq<T>)
      requires Increasing(stack, 0, |container|)
      ensures lhs == Pick(container, stack) && rhs == Pick(container, Rest(stack, 0, |container|))
    {
      lhs, rhs := [], [];
      var prev := 0;
      var i := 0;
      assert stack[0..] == stack;
      while i < |stack|
        invariant i <= |stack| && prev <= |container| && Increasing(stack[i..], prev, |container|)
        invariant Sides(container, stack[i..], prev, lhs, rhs) == Sides(container, stack, 0, [], [])
      {
        var index := stack[i];
        NextIndex(stack, i, prev, |container|);
        rhs := AppendRange(rhs, prev, index);
        lhs := lhs + [container[index]];
        prev := index + 1;
        i := i + 1;
      }
      assert stack[i..] == [];
      rhs := AppendRange(rhs, prev, |container|);
      SidesAre(container, stack, 0, [], []);
    }

    /** Advances the stack to the next split. */
    method Move()
      requires |container| > 1 && ProperLeft(stack, |container|)
      modifies this
      ensures stack == NextStack(old(stack), |container|)
    {
      var n := |container|;
      var last := stack[|stack| - 1];
      if |stack| < n - 1 {
        last := last + 1;
        if last < n {
          stack := stack + [last];
          return;
        }
      }
      Carry();
    }

    /** Moves the last index on, and the one below it when the last was at the end of the container. */
    method Carry()
      requires |container| > 1 && ProperLeft(stack, |container|)
      modifies this
      ensures var n, s := |container|, old(stack);
        stack == if s[|s| - 1] == n - 1 then s[..|s| - 2] + [s[|s| - 2] + 1] else s[|s| - 1 := s[|s| - 1] + 1]
    {
      var n := |container|;
      ghost var s := stack;
      assert s[|s| - 1] == n - 1 ==> |s| > 1 && s[|s| - 2] < n - 1;
      while true
        invariant stack == s || (|s| > 1 && s[|s| - 1] == n - 1 && stack == s[..|s| - 1])
        decreases |stack|
      {
        stack := stack[|stack| - 1 := stack[|stack| - 1] + 1];
        if stack[|stack| - 1] < n {
          break;
        }
        if |stack| == 1 {
          break;
        }
        stack := stack[..|stack| - 1];
        assert stack == s[..|s| - 1];
      }
    }

    /** The next split: the elements at the indices on the stack, and the others. */
    method Next() returns (lhs: seq<T>, rhs: seq<T>)
      requires Ok() && HasNext()
      modifies this
      ensures lhs == Pick(container, old(stack)) && rhs == Pick(container, Rest(old(stack), 0, |container|))
      ensures Ok()
      ensures HasNext() <==> Position(old(stack), |container|) + 1 < Splits(|container|)
      ensures HasNext() ==> Position(stack, |container|) == Position(old(stack), |container|) + 1
    {
      lhs, rhs := Emit();
      NextStackMoves(stack, |container|);
      Move();
    }
  }

  /** The stack after the one with the left side s. */
  function NextStack(s: seq<nat>, n: nat): seq<nat>
    requires n > 1 && ProperLeft(s, n)
  {
    var last := s[|s| - 1];
    if |s| < n - 1 && last + 1 < n then s + [last + 1]
    else if last == n - 1 then
      LastIsNotFirst(s, n);
      s[..|s| - 2] + [s[|s| - 2] + 1]
    else s[|s| - 1 := last + 1]
  }

  lemma LastIsNotFirst(s: seq<nat>, n: nat)
    requires n > 1 && ProperLeft(s, n) && s[|s| - 1] == n - 1
    ensures |s| > 1 && s[|s| - 2] < n - 1
  {
  }

  /** The stacks go through the splits one by one, and leave 0 after the last. */
  lemma NextStackMoves(s: seq<nat>, n: nat)
    requires n > 1 && ProperLeft(s, n)
    ensures var t := NextStack(s, n);
      && t != [] && (t[0] < 1 <==> Position(s, n) + 1 < Splits(n))
      && (t[0] < 1 ==> ProperLeft(t, n) && Position(t, n) == Position(s, n) + 1)
  {
    var last := s[|s| - 1];
    if |s| < n - 1 && last + 1 < n {
      PushMoves(s, last + 1, n);
    } else if last == n - 1 {
      PopMoves(s, n);
    } else {
      SkipMoves(s, n);
    }
  }

  /** The p-th split of a container. */
  function Result<T>(c: seq<T>, p: nat): (seq<T>, seq<T>)
    requires p < Splits(|c|)
  {
    SplitsAreProper(p, |c|);
    (Pick(c, Split(p, |c|)), Pick(c, Rest(Split(p, |c|), 0, |c|)))
  }

  /** All results of a generator: one for each split, in order. */
  method All<T>(container: seq<T>) returns (results: seq<(seq<T>, seq<T>)>)
    ensures |results| == Splits(|container|)
    ensures forall p {:trigger results[p]} :: 0 <= p < |results| ==> results[p] == Result(container, p)
  {
    ghost var n := |container|;
    var generator := new SubsetGenerator(container);
    results := [];
    if n > 1 {
      FirstSplit(n);
    }
    while generator.HasNext()
      invariant generator.container == container && generator.Ok() && |results| <= Splits(n)
      invariant generator.HasNext() ==> Position(generator.stack, n) == |results| < Splits(n)
      invariant !generator.HasNext() ==> |results| == Splits(n)
      invariant forall p {:trigger results[p]} :: 0 <= p < |results| ==> results[p] == Result(container, p)
      decreases Splits(n) - |results|
    {
      ghost var s := generator.stack;
      SplitsAreAll(s, n);
      var lhs, rhs := generator.Next();
      assert (lhs, rhs) == Result(container, |results|);
      results := results + [(lhs, rhs)];
    }
  }

  lemma FirstSplit(n: nat)
    requires n > 1
    ensures ProperLeft([0], n) && Position([0], n) == 0 && Splits(n) > 0
  {
    assert [0][1..] == [];
    PowLarge(n - 1);
  }

  lemma RangeGrows(a: nat, b: nat)
    requires a <= b
    ensures Range(a, b + 1) == Range(a, b) + [b]
  {
  }

  /** The sides of the split, from position prev on, with the indices that are left. */
  function Sides<T>(c: seq<T>, s: seq<nat>, prev: nat, lhs: seq<T>, rhs: seq<T>): (seq<T>, seq<T>)
    requires prev <= |c| && Increasing(s, prev, |c|)
    decreases |s|
  {
    if s == [] then (lhs, rhs + Pick(c, Range(prev, |c|)))
    else
      IncreasingTail(s, prev, |c|);
      Sides(c, s[1..], s[0] + 1, lhs + [c[s[0]]], rhs + Pick(c, Range(prev, s[0])))
  }

  lemma NextIndex(s: seq<nat>, i: nat, prev: nat, n: nat)
    requires i < |s| && Increasing(s[i..], prev, n)
    ensures s[i..][0] == s[i] && s[i..][1..] == s[i + 1..] && prev <= s[i] < n && Increasing(s[i + 1..], s[i] + 1, n)
  {
    IncreasingTail(s[i..], prev, n);
    assert s[i..][1..] == s[i + 1..];
  }

  /** The left side has the elements at the indices, and the right side the others. */
  lemma {:induction false} SidesAre<T>(c: seq<T>, s: seq<nat>, prev: nat, lhs: seq<T>, rhs: seq<T>)
    requires prev <= |c| && Increasing(s, prev, |c|)
    ensures Sides(c, s, prev, lhs, rhs) == (lhs + Pick(c, s), rhs + Pick(c, Rest(s, prev, |c|)))
    decreases |s|
  {
    if s == [] {
      assert Pick(c, s) == [] && lhs + [] == lhs;
    } else {
      IncreasingTail(s, prev, |c|);
      var x, u := s[0], s[1..];
      var a, r := Range(prev, x), Rest(u, x + 1, |c|);
      SidesAre(c, u, x + 1, lhs + [c[x]], rhs + Pick(c, a));
      PickCons(c, s, x, u);
      Regroup(lhs, [c[x]], Pick(c, u));
      PickAppend(c, a, r);
      Regroup(rhs, Pick(c, a), Pick(c, r));
    }
  }

  lemma PickCons<T>(c: seq<T>, s: seq<nat>, x: nat, u: seq<nat>)
    requires s != [] && x == s[0] && u == s[1..] && forall i {:trigger s[i]} :: 0 <= i < |s| ==> s[i] < |c|
    requires forall i {:trigger u[i]} :: 0 <= i < |u| ==> u[i] < |c|
    ensures Pick(c, s) == [c[x]] + Pick(c, u)
  {
  }

  lemma PickAppend<T>(c: seq<T>, a: seq<nat>, r: seq<nat>)
    requires forall i {:trigger a[i]} :: 0 <= i < |a| ==> a[i] < |c|
    requires forall i {:trigger r[i]} :: 0 <= i < |r| ==> r[i] < |c|
    ensures Pick(c, a + r) == Pick(c, a) + Pick(c, r)
  {
  }

  lemma Regroup<T>(a: seq<T>, b: seq<T>, c: seq<T>)
    ensures a + (b + c) == (a + b) + c
  {
  }

  lemma NextPosition(s: seq<nat>, t: seq<nat>, n: nat)
    requires ProperLeft(s, n) && ProperLeft(t, n) && Increasing(s[1..], 1, n) && Increasing(t[1..], 1, n)
    requires var r := Rank(s[1..], 1, n);
      Rank(t[1..], 1, n) == r + 1 || (r == n - 2 && Rank(t[1..], 1, n) == n)
    ensures Position(t, n) == Position(s, n) + 1 < Splits(n)
  {
    FullIsRange(s[1..], 1, n);
    FullIsRange(t[1..], 1, n);
    SplitsAreAll(t, n);
  }

  lemma PushMoves(s: seq<nat>, x: nat, n: nat)
    requires ProperLeft(s, n) && |s| < n - 1 && x == s[|s| - 1] + 1 < n
    ensures ProperLeft(s + [x], n) && Position(s + [x], n) == Position(s, n) + 1 < Splits(n)
  {
    var t := s + [x];
    PushIncreasing(s, 0, n, x);
    IncreasingTail(s, 0, n);
    IncreasingTail(t, 0, n);
    assert t[1..] == s[1..] + [x];
    RankPush(s[1..], 1, n, x);
    NextPosition(s, t, n);
  }

  lemma PopMoves(s: seq<nat>, n: nat)
    requires ProperLeft(s, n) && s[|s| - 1] == n - 1
    ensures |s| > 1
    ensures |s| == 2 ==> Position(s, n) + 1 == Splits(n)
    ensures |s| > 2 ==> var t := s[..|s| - 2] + [s[|s| - 2] + 1];
      ProperLeft(t, n) && Position(t, n) == Position(s, n) + 1 < Splits(n)
  {
    IncreasingTail(s, 0, n);
    if |s| == 2 {
      assert s[1..] == [n - 1];
      RankLast(1, n);
      TailRank(s[1..], n);
    } else {
      PopDeep(s, n);
    }
  }

  lemma PopDeep(s: seq<nat>, n: nat)
    requires ProperLeft(s, n) && s[|s| - 1] == n - 1 && |s| > 2
    ensures var t := s[..|s| - 2] + [s[|s| - 2] + 1];
      ProperLeft(t, n) && Position(t, n) == Position(s, n) + 1 < Splits(n)
  {
    var h, x := s[..|s| - 2], s[|s| - 2];
    assert s == h + [x, n - 1];
    PopAt(h, x, n);
  }

  lemma PopAt(h: seq<nat>, x: nat, n: nat)
    requires n > 0 && h != [] && ProperLeft(h + [x, n - 1], n)
    ensures ProperLeft(h + [x + 1], n) && Position(h + [x + 1], n) == Position(h + [x, n - 1], n) + 1 < Splits(n)
  {
    var s, t := h + [x, n - 1], h + [x + 1];
    PopIncreasing(h, x, 0, n);
    IncreasingTail(s, 0, n);
    IncreasingTail(t, 0, n);
    assert s[1..] == h[1..] + [x, n - 1] && t[1..] == h[1..] + [x + 1];
    RankPop(h[1..], x, 1, n);
    NextPosition(s, t, n);
  }

  /** The list before the full one and the list after it. */
  lemma SkipRank(u: seq<nat>, n: nat)
    requires n > 2 && Increasing(u + [n - 2], 1, n) && |u| == n - 3
    ensures Rank(u + [n - 2], 1, n) == n - 2
    ensures Increasing(u + [n - 1], 1, n) && Rank(u + [n - 1], 1, n) == n
  {
    AllIndices(u, n);
    RankPop(u, n - 2, 1, n);
  }

  /** With the last index added the list has all indices. */
  lemma AllIndices(u: seq<nat>, n: nat)
    requires n > 2 && Increasing(u + [n - 2], 1, n) && |u| == n - 3
    ensures Increasing(u + [n - 2, n - 1], 1, n) && Rank(u + [n - 2, n - 1], 1, n) == n - 1
    ensures Rank(u + [n - 2], 1, n) == n - 2
  {
    var t := u + [n - 2];
    RankPush(t, 1, n, n - 1);
    FullIsRange(t + [n - 1], 1, n);
    assert t + [n - 1] == u + [n - 2, n - 1];
  }

  lemma FullStack(s: seq<nat>, n: nat)
    requires ProperLeft(s, n) && |s| == n - 1 && s[|s| - 1] < n - 1
    ensures Increasing(s, 0, n - 1) && s[|s| - 1] == n - 2
  {
    assert forall i {:trigger s[i]} :: 0 <= i < |s| ==> s[i] <= s[|s| - 1];
    FullIsRange(s, 0, n - 1);
  }

  lemma SkipMoves(s: seq<nat>, n: nat)
    requires ProperLeft(s, n) && |s| == n - 1 && s[|s| - 1] < n - 1
    ensures |s| == 1 ==> Position(s, n) + 1 == Splits(n)
    ensures |s| > 1 ==> var t := s[|s| - 1 := s[|s| - 1] + 1];
      ProperLeft(t, n) && Position(t, n) == Position(s, n) + 1 < Splits(n)
  {
    if |s| == 1 {
      FirstSplit(n);
      assert s == [0];
    } else {
      FullStack(s, n);
      var u := s[1..|s| - 1];
      var t := s[|s| - 1 := n - 1];
      assert s[1..] == u + [n - 2] && t[1..] == u + [n - 1];
      IncreasingTail(s, 0, n);
      SkipRank(u, n);
      assert Increasing(t, 0, n);
      NextPosition(s, t, n);
    }
  }
}
