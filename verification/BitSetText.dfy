/** The text forms of a bit set: a string of digits, and a list of runs. */
module BitSetText {
  import opened Options
  import opened BitSets

  // ---- Binary digits ----

  /** The positions of the ones. */
  function Ones(s: string): set<nat> {
    set i | 0 <= i < |s| && s[i] == '1'
  }

  /** One digit for each position up to the greatest member. */
  ghost predicate Digits(x: set<nat>, s: string) {
    && (forall i {:trigger s[i]} :: 0 <= i < |s| ==> s[i] == if i in x then '1' else '0')
    && (s != [] ==> s[|s| - 1] == '1')
    && Ones(s) == x
  }

  method ToString(b: BitSet) returns (s: string)
    requires Canonical(b.blocks)
    ensures Digits(b.View(), s)
  {
    var last := b.FindLast();
    if last.None? {
      return "";
    }
    s := seq(last.value + 1, i => '0');
    var pos := b.FindFirst();
    var seen := 0;
    while pos.Some?
      invariant LeastFrom(b.View(), seen, pos) && seen <= last.value + 1
      invariant |s| == last.value + 1
      invariant forall i {:trigger s[i]} :: 0 <= i < |s| ==> s[i] == if i < seen && i in b.View() then '1' else '0'
      decreases last.value + 1 - seen
    {
      var p := pos.value;
      s := s[p := '1'];
      seen := p + 1;
      pos := b.FindNext(p);
    }
    assert forall i {:trigger i in b.View()} :: i in b.View() ==> i < |s|;
  }

  /** Goes through the string backwards, so that the vector is sized once. */
  method FromString(b: BitSet, s: string)
    modifies b
    ensures Canonical(b.blocks) && b.View() == Ones(s)
  {
    b.blocks := [];
    var i := |s|;
    while i > 0
      invariant 0 <= i <= |s| && Canonical(b.blocks)
      invariant b.View() == set p | i <= p < |s| && s[p] == '1'
    {
      i := i - 1;
      if s[i] == '1' {
        b.Add(i);
      }
    }
  }

  /** Reading what was written gives the same set, in the same blocks. */
  method RoundTrip(b: BitSet, c: BitSet)
    requires Canonical(b.blocks) && b != c
    modifies c
    ensures c.blocks == b.blocks
  {
    var s := ToString(b);
    FromString(c, s);
    CanonicalIsUnique(b.blocks, c.blocks);
  }

  // ---- Runs ----

  datatype Run = Run(lo: nat, hi: nat)

  function Decimal(n: nat): string {
    if n < 10 then [DIGITS[n]] else Decimal(n / 10) + [DIGITS[n % 10]]
  }

  const DIGITS: string := "0123456789"

  function Item(r: Run): string {
    if r.lo == r.hi then Decimal(r.lo) else Decimal(r.lo) + "-" + Decimal(r.hi)
  }

  /** All items with a comma behind each. */
  function Items(w: seq<Run>): string {
    if w == [] then "" else Items(w[..|w| - 1]) + Item(w[|w| - 1]) + ","
  }

  function Render(w: seq<Run>): string {
    if w == [] then "-" else Items(w[..|w| - 1]) + Item(w[|w| - 1])
  }

  // ---- Reading the text of runs ----

  predicate IsDigit(c: char) {
    '0' <= c <= '9'
  }

  function DigitValue(c: char): nat {
    if IsDigit(c) then c as int - '0' as int else 0
  }

  function ReadDecimal(s: string): nat {
    if s == "" then 0 else 10 * ReadDecimal(s[..|s| - 1]) + DigitValue(s[|s| - 1])
  }

  lemma DigitAt(n: nat)
    requires n < 10
    ensures IsDigit(DIGITS[n]) && DigitValue(DIGITS[n]) == n
  {
    if n == 0 {
    } else if n == 1 {
    } else if n == 2 {
    } else if n == 3 {
    } else if n == 4 {
    } else if n == 5 {
    } else if n == 6 {
    } else if n == 7 {
    } else if n == 8 {
    }
  }

  predicate AllDigits(s: string) {
    forall i {:trigger s[i]} :: 0 <= i < |s| ==> IsDigit(s[i])
  }

  lemma ReadLast(d: string, c: char)
    ensures ReadDecimal(d + [c]) == 10 * ReadDecimal(d) + DigitValue(c)
  {
    assert (d + [c])[..|d|] == d;
  }

  /** A number is written in decimal digits, without leading zeros. */
  lemma {:induction false} DecimalDigits(n: nat)
    ensures Decimal(n) != "" && AllDigits(Decimal(n)) && (Decimal(n)[0] == '0' <==> n == 0)
  {
    DigitAt(n % 10);
    if n >= 10 {
      DecimalDigits(n / 10);
    } else {
      assert DigitValue('0') == 0;
    }
  }

  /** Reading the digits gives the number. */
  lemma {:induction false} DecimalRoundTrip(n: nat)
    ensures ReadDecimal(Decimal(n)) == n
  {
    DigitAt(n % 10);
    if n >= 10 {
      DecimalRoundTrip(n / 10);
      ReadLast(Decimal(n / 10), DIGITS[n % 10]);
    } else {
      ReadLast("", DIGITS[n]);
      assert "" + [DIGITS[n]] == [DIGITS[n]];
    }
  }

  /** The first position of a character, the length if there is none. */
  function FirstAt(s: string, c: char): (i: nat)
    ensures i <= |s| && (i < |s| ==> s[i] == c) && (i == |s| <==> c !in s)
  {
    if s == "" || s[0] == c then 0 else 1 + FirstAt(s[1..], c)
  }

  lemma {:induction false} FirstAfter(u: string, c: char, v: string)
    requires c !in u
    ensures FirstAt(u + [c] + v, c) == |u|
    decreases |u|
  {
    var s := u + [c] + v;
    if u != "" {
      assert s[1..] == u[1..] + [c] + v;
      FirstAfter(u[1..], c, v);
    }
  }

  /** A number, or the two ends of a run. */
  function ReadItem(s: string): Run {
    var i := FirstAt(s, '-');
    if i == |s| then Run(ReadDecimal(s), ReadDecimal(s)) else Run(ReadDecimal(s[..i]), ReadDecimal(s[i + 1..]))
  }

  function ReadItems(s: string): seq<Run>
    decreases |s|
  {
    var i := FirstAt(s, ',');
    if i == |s| then [ReadItem(s)] else [ReadItem(s[..i])] + ReadItems(s[i + 1..])
  }

  function ReadRuns(s: string): seq<Run> {
    if s == "-" then [] else ReadItems(s)
  }

  lemma NumberText(n: nat)
    ensures Decimal(n) != "" && '-' !in Decimal(n) && ',' !in Decimal(n)
  {
    DecimalDigits(n);
  }

  lemma ItemText(r: Run)
    ensures ',' !in Item(r) && Item(r) != "" && Item(r)[0] != '-'
  {
    NumberText(r.lo);
    NumberText(r.hi);
  }

  lemma ItemRoundTrip(r: Run)
    ensures ReadItem(Item(r)) == r
  {
    NumberText(r.lo);
    DecimalRoundTrip(r.lo);
    if r.lo != r.hi {
      RangeRoundTrip(r, Decimal(r.lo), Decimal(r.hi), Item(r));
    }
  }

  lemma RangeRoundTrip(r: Run, lo: string, hi: string, s: string)
    requires lo == Decimal(r.lo) && hi == Decimal(r.hi) && s == lo + "-" + hi && '-' !in lo
    ensures ReadItem(s) == r
  {
    DecimalRoundTrip(r.lo);
    DecimalRoundTrip(r.hi);
    FirstAfter(lo, '-', hi);
    assert s == lo + ['-'] + hi;
    assert s[..|lo|] == lo && s[|lo| + 1..] == hi;
  }

  lemma OneItem(r: Run, item: string, rest: string, s: string)
    requires item == Item(r) && s == item + "," + rest
    ensures ReadItems(s) == [r] + ReadItems(rest)
  {
    ItemText(r);
    ItemRoundTrip(r);
    FirstAfter(item, ',', rest);
    assert s == item + [','] + rest;
    assert s[..|item|] == item && s[|item| + 1..] == rest;
  }

  lemma LastItem(r: Run, s: string)
    requires s == Item(r)
    ensures ReadItems(s) == [r]
  {
    ItemText(r);
    ItemRoundTrip(r);
  }

  lemma {:induction false} ItemsRoundTrip(w: seq<Run>, rest: string, s: string)
    requires s == Items(w) + rest
    ensures ReadItems(s) == w + ReadItems(rest)
    decreases |w|
  {
    if w == [] {
      assert s == rest;
    } else {
      var u, r := w[..|w| - 1], w[|w| - 1];
      var text := Item(r) + "," + rest;
      Regroup(Items(u), Item(r), ",", rest);
      ItemsRoundTrip(u, text, s);
      OneItem(r, Item(r), rest, text);
      LastRun(w, ReadItems(rest));
    }
  }

  lemma LastRun(w: seq<Run>, v: seq<Run>)
    requires w != []
    ensures w[..|w| - 1] + ([w[|w| - 1]] + v) == w + v
  {
  }

  /** Reading the text of runs gives the runs, so that the text determines the set. */
  lemma RenderRoundTrip(w: seq<Run>, s: string)
    requires s == Render(w)
    ensures ReadRuns(s) == w
  {
    if w != [] {
      NotDash(w[..|w| - 1], w[|w| - 1], s);
      SplitLast(w);
      AllItems(w, w[..|w| - 1], w[|w| - 1], Item(w[|w| - 1]), s);
    }
  }

  lemma SplitLast(w: seq<Run>)
    requires w != []
    ensures w == w[..|w| - 1] + [w[|w| - 1]]
  {
  }

  lemma AllItems(w: seq<Run>, u: seq<Run>, r: Run, item: string, s: string)
    requires w == u + [r] && item == Item(r) && s == Items(u) + item
    ensures ReadItems(s) == w
  {
    LastItem(r, item);
    ItemsRoundTrip(u, item, s);
  }

  lemma NotDash(u: seq<Run>, r: Run, s: string)
    requires s == Items(u) + Item(r)
    ensures s != "-"
  {
    ItemText(r);
    if u == [] {
      assert s[0] == Item(r)[0];
    } else {
      assert Items(u)[|Items(u)| - 1] == ',';
      assert |s| >= 2;
    }
  }

  /** Runs in increasing order that do not touch each other. */
  ghost predicate Separate(w: seq<Run>) {
    && (forall i {:trigger w[i]} :: 0 <= i < |w| ==> w[i].lo <= w[i].hi)
    && (forall i, j {:trigger w[i], w[j]} :: 0 <= i < j < |w| ==> w[i].hi + 1 < w[j].lo)
  }

  ghost predicate InRuns(w: seq<Run>, p: nat) {
    exists i {:trigger w[i]} :: 0 <= i < |w| && w[i].lo <= p <= w[i].hi
  }

  /** The maximal runs of the members below n. */
  ghost predicate RunsBelow(x: set<nat>, w: seq<Run>, n: nat) {
    && Separate(w)
    && (forall p: nat {:trigger InRuns(w, p)} :: InRuns(w, p) <==> p in x && p < n)
    && (w != [] ==> w[|w| - 1].hi < n)
  }

  /** The maximal runs of a set. */
  ghost predicate RunsOf(x: set<nat>, w: seq<Run>) {
    Separate(w) && forall p: nat {:trigger InRuns(w, p)} :: InRuns(w, p) <==> p in x
  }

  /** The next member extends the last run or starts a new one. */
  ghost function Extend(w: seq<Run>, p: nat): seq<Run> {
    if w != [] && p == w[|w| - 1].hi + 1 then w[|w| - 1 := Run(w[|w| - 1].lo, p)] else w + [Run(p, p)]
  }

  lemma ExtendHas(w: seq<Run>, p: nat, q: nat)
    requires Separate(w) && (w != [] ==> w[|w| - 1].hi < p)
    ensures InRuns(Extend(w, p), q) <==> InRuns(w, q) || q == p
  {
    var v := Extend(w, p);
    if InRuns(w, q) {
      var i :| 0 <= i < |w| && w[i].lo <= q <= w[i].hi;
      assert v[i].lo <= q <= v[i].hi;
    }
    if q == p {
      assert v[|v| - 1].lo <= q <= v[|v| - 1].hi;
    }
    if InRuns(v, q) && q != p {
      var i :| 0 <= i < |v| && v[i].lo <= q <= v[i].hi;
      assert w[i].lo <= q <= w[i].hi;
    }
  }

  lemma ExtendRuns(x: set<nat>, w: seq<Run>, n: nat, p: nat)
    requires RunsBelow(x, w, n) && LeastFrom(x, n, Some(p))
    ensures RunsBelow(x, Extend(w, p), p + 1)
  {
    var v := Extend(w, p);
    assert Separate(v) by {
      assert forall i {:trigger w[i]} :: 0 <= i < |w| ==> w[i].hi <= w[|w| - 1].hi;
      if w != [] {
        LastNotNext(x, w, n, p);
      }
    }
    forall q: nat ensures InRuns(v, q) <==> q in x && q < p + 1 {
      ExtendHas(w, p, q);
    }
  }

  lemma LastNotNext(x: set<nat>, w: seq<Run>, n: nat, p: nat)
    requires RunsBelow(x, w, n) && LeastFrom(x, n, Some(p)) && w != []
    ensures w[|w| - 1].hi < p
  {
  }

  /** The text of the runs while the end of the last one is not known. */
  function Open(w: seq<Run>): string
    requires w != []
  {
    Items(w[..|w| - 1]) + Decimal(w[|w| - 1].lo)
  }

  lemma OpenExtend(w: seq<Run>, p: nat)
    requires w != []
    ensures p == w[|w| - 1].hi + 1 ==> Open(Extend(w, p)) == Open(w)
    ensures p != w[|w| - 1].hi + 1 ==> Open(Extend(w, p)) == Items(w[..|w| - 1]) + Item(w[|w| - 1]) + "," + Decimal(p)
  {
    var v := Extend(w, p);
    if p == w[|w| - 1].hi + 1 {
      assert v[..|v| - 1] == w[..|w| - 1];
    } else {
      assert v[..|v| - 1] == w;
    }
  }

  lemma Closed(w: seq<Run>)
    requires w != []
    ensures w[|w| - 1].lo == w[|w| - 1].hi ==> Open(w) == Items(w[..|w| - 1]) + Item(w[|w| - 1])
    ensures w[|w| - 1].lo != w[|w| - 1].hi ==>
      Open(w) + "-" + Decimal(w[|w| - 1].hi) == Items(w[..|w| - 1]) + Item(w[|w| - 1])
  {
    var r := w[|w| - 1];
    Regroup(Items(w[..|w| - 1]), Decimal(r.lo), "-", Decimal(r.hi));
  }

  lemma Regroup(a: string, b: string, c: string, d: string)
    ensures a + (b + c + d) == a + b + c + d
  {
  }

  /** The numbered string lists exactly the maximal runs, in order. */
  method ToNumberedString(b: BitSet) returns (s: string, ghost runs: seq<Run>)
    requires Canonical(b.blocks)
    ensures RunsOf(b.View(), runs) && s == Render(runs) && ReadRuns(s) == runs
  {
    runs := [];
    var none := b.None();
    if none {
      RenderRoundTrip([], "-");
      return "-", [];
    }
    s := "";
    var range := false;
    var last := 0;
    var first := true;
    var pos := b.FindFirst();
    while pos.Some?
      invariant LeastFrom(b.View(), if first then 0 else last + 1, pos)
      invariant RunsBelow(b.View(), runs, if first then 0 else last + 1)
      invariant first <==> runs == []
      invariant first ==> pos.Some?
      invariant !first ==> runs[|runs| - 1].hi == last && s == Open(runs)
      invariant range <==> !first && runs[|runs| - 1].lo < last
      decreases if pos.Some? then 64 * |b.blocks| - pos.value else 0
    {
      var p := pos.value;
      ExtendRuns(b.View(), runs, if first then 0 else last + 1, p);
      if first {
        s := Decimal(p);
      } else {
        OpenExtend(runs, p);
        if p == last + 1 {
          range := true;
        } else {
          Closed(runs);
          if range {
            s := s + "-" + Decimal(last);
            s := s + "," + Decimal(p);
            range := false;
          } else {
            s := s + "," + Decimal(p);
          }
        }
      }
      runs := Extend(runs, p);
      first := false;
      last := p;
      pos := b.FindNext(p);
    }
    Closed(runs);
    if range {
      s := s + "-" + Decimal(last);
    }
    RenderRoundTrip(runs, s);
  }
}
