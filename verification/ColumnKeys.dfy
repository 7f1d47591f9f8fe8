/** The lexicographic order of column keys, and the keys that share a prefix. */
module ColumnKeys {
  type Key = string

  predicate Less(a: Key, b: Key) {
    b != [] && (a == [] || a[0] < b[0] || (a[0] == b[0] && Less(a[1..], b[1..])))
  }

  predicate LessEq(a: Key, b: Key) {
    a == b || Less(a, b)
  }

  lemma {:induction false} Transitive(a: Key, b: Key, c: Key)
    requires Less(a, b) && Less(b, c)
    ensures Less(a, c)
    decreases |a|
  {
    if a != [] && a[0] == b[0] && b[0] == c[0] {
      Transitive(a[1..], b[1..], c[1..]);
    }
  }

  lemma {:induction false} Total(a: Key, b: Key)
    ensures a == b || Less(a, b) || Less(b, a)
    decreases |a|
  {
    if a != [] && b != [] && a[0] == b[0] {
      Total(a[1..], b[1..]);
      assert a == [a[0]] + a[1..] && b == [b[0]] + b[1..];
    }
  }

  lemma {:induction false} Irreflexive(a: Key, b: Key)
    requires Less(a, b)
    ensures a != b && !Less(b, a)
    decreases |a|
  {
    if a != [] && a[0] == b[0] {
      Irreflexive(a[1..], b[1..]);
    }
  }

  predicate HasPrefix(k: Key, p: Key) {
    |p| <= |k| && k[..|p|] == p
  }

  lemma PrefixTail(k: Key, p: Key)
    requires HasPrefix(k, p) && p != []
    ensures k != [] && k[0] == p[0] && HasPrefix(k[1..], p[1..])
  {
    assert k[1..][..|p| - 1] == k[..|p|][1..];
  }

  lemma PrefixCons(k: Key, p: Key)
    requires k != [] && p != [] && k[0] == p[0] && HasPrefix(k[1..], p[1..])
    ensures HasPrefix(k, p)
  {
    assert k[..|p|] == [k[0]] + k[1..][..|p| - 1];
    assert p == [p[0]] + p[1..];
  }

  /** Everything between two keys with a prefix has that prefix. */
  lemma {:induction false} Between(p: Key, a: Key, c: Key, b: Key)
    requires HasPrefix(a, p) && HasPrefix(b, p) && LessEq(a, c) && LessEq(c, b)
    ensures HasPrefix(c, p)
    decreases |p|
  {
    if p != [] {
      PrefixTail(a, p);
      PrefixTail(b, p);
      if a != c && c != b {
        assert c != [] && c[0] == p[0];
        Between(p[1..], a[1..], c[1..], b[1..]);
        PrefixCons(c, p);
      }
    }
  }

  /** A key comes after its proper prefixes. */
  lemma {:induction false} PrefixLess(p: Key, k: Key)
    requires HasPrefix(k, p) && |p| < |k|
    ensures Less(p, k)
    decreases |p|
  {
    if p != [] {
      PrefixTail(k, p);
      PrefixLess(p[1..], k[1..]);
    }
  }

  // ---- Colons ----

  /** Position of the first colon, |k| if there is none. */
  function FirstColon(k: Key): (i: nat)
    ensures i <= |k| && (i < |k| ==> k[i] == ':')
  {
    if k == [] || k[0] == ':' then 0 else 1 + FirstColon(k[1..])
  }

  /** Position of the last colon, |k| if there is none. */
  function LastColon(k: Key): (i: nat)
    ensures i <= |k| && (i < |k| ==> k[i] == ':')
    ensures i == |k| <==> ':' !in k
  {
    if k == [] then 0
    else if k[|k| - 1] == ':' then |k| - 1
    else if LastColon(k[..|k| - 1]) == |k| - 1 then |k|
    else LastColon(k[..|k| - 1])
  }

  lemma {:induction false} ColonOrder(k: Key, i: nat)
    requires i < |k| && k[i] == ':'
    ensures FirstColon(k) <= i <= LastColon(k) < |k|
    decreases |k|
  {
    if k[0] != ':' {
      assert k[1..][i - 1] == ':';
      FirstUpTo(k[1..], i - 1);
    }
    LastFrom(k, i);
  }

  lemma {:induction false} FirstUpTo(k: Key, i: nat)
    requires i < |k| && k[i] == ':'
    ensures FirstColon(k) <= i
    decreases |k|
  {
    if k[0] != ':' {
      FirstUpTo(k[1..], i - 1);
    }
  }

  lemma {:induction false} LastFrom(k: Key, i: nat)
    requires i < |k| && k[i] == ':'
    ensures i <= LastColon(k) < |k|
    decreases |k|
  {
    if k[|k| - 1] != ':' {
      LastFrom(k[..|k| - 1], i);
    }
  }

  lemma {:induction false} FirstColonAt(u: Key, v: Key)
    requires ':' !in u
    ensures FirstColon(u + ":" + v) == |u|
    decreases |u|
  {
    var k := u + ":" + v;
    if u != [] {
      assert k[1..] == u[1..] + ":" + v;
      FirstColonAt(u[1..], v);
    }
  }

  lemma {:induction false} LastColonAt(u: Key, v: Key)
    requires ':' !in v
    ensures LastColon(u + ":" + v) == |u|
    decreases |v|
  {
    var k := u + ":" + v;
    if v != [] {
      var w := v[..|v| - 1];
      assert k[..|k| - 1] == u + ":" + w;
      LastColonAt(u, w);
      assert k[|k| - 1] == v[|v| - 1];
    }
  }
}
