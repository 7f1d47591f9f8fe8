/** The walks over defer queues leave nothing asleep and start entries in the order of their keys. */
module TaskWalks {
  import opened Options
  import opened TaskPolicy
  import opened TaskState
  import opened TaskInvariant
  import opened TaskSteps

  /** How far iterator it still has to go. */
  function Distance(s: State, it: Option<EntryId>): int {
    if it.Some? then s.seqno + 1 - Key(s, it.value) else 0
  }

  /** The loop of RunCombinedDeferQ over the group's queue g and the entry's queue q. */
  function WalkBoth(p: Policy, s: State, g: Owner, git: Option<EntryId>, q: Owner, qit: Option<EntryId>): (r: State)
    requires Core(p, s) && AllQueued(s) && g != q
    requires git.Some? ==> git.value in DeferQ(s, g)
    requires qit.Some? ==> qit.value in DeferQ(s, q)
    ensures Core(p, r) && AllQueued(r)
    decreases Distance(s, git) + Distance(s, qit)
  {
    if git.Some? && qit.Some? then
      KeyInRange(p, s, g, git.value);
      KeyInRange(p, s, q, qit.value);
      if Key(s, git.value) < Key(s, qit.value) then
        var (s1, next) := Advance(p, s, g, git.value);
        VisitKeepsCursor(p, s, g, git.value, q, qit.value);
        WalkBoth(p, s1, g, next, q, qit)
      else
        assert git.value != qit.value;
        var (s1, next) := Advance(p, s, q, qit.value);
        VisitKeepsCursor(p, s, q, qit.value, g, git.value);
        WalkBoth(p, s1, g, git, q, next)
    else if git.Some? then RunDeferQ(p, s, g)
    else if qit.Some? then RunDeferQ(p, s, q)
    else s
  }

  /** The state in front of an iteration of the loop. */
  ghost predicate Cursors(p: Policy, s: State, g: Owner, git: Option<EntryId>, q: Owner, qit: Option<EntryId>) {
    && Core(p, s) && AllQueued(s) && g != q
    && (git.Some? ==> git.value in DeferQ(s, g))
    && (qit.Some? ==> qit.value in DeferQ(s, q))
  }

  ghost function Left(p: Policy, s: State, g: Owner, git: Option<EntryId>, q: Owner, qit: Option<EntryId>): nat
    requires Cursors(p, s, g, git, q, qit)
  {
    if git.Some? then KeyInRange(p, s, g, git.value);
      if qit.Some? then KeyInRange(p, s, q, qit.value); Distance(s, git) + Distance(s, qit) else Distance(s, git)
    else if qit.Some? then KeyInRange(p, s, q, qit.value); Distance(s, qit)
    else 0
  }

  lemma GroupFirst(p: Policy, s: State, g: Owner, n: EntryId, q: Owner, m: EntryId, r: State, next: Option<EntryId>)
    requires Cursors(p, s, g, Some(n), q, Some(m)) && Key(s, n) < Key(s, m) && (r, next) == Advance(p, s, g, n)
    ensures Cursors(p, r, g, next, q, Some(m))
    ensures WalkBoth(p, r, g, next, q, Some(m)) == WalkBoth(p, s, g, Some(n), q, Some(m))
    ensures Left(p, r, g, next, q, Some(m)) < Left(p, s, g, Some(n), q, Some(m))
  {
    KeyInRange(p, s, g, n);
    VisitKeepsCursor(p, s, g, n, q, m);
  }

  lemma EntryFirst(p: Policy, s: State, g: Owner, n: EntryId, q: Owner, m: EntryId, r: State, next: Option<EntryId>)
    requires Cursors(p, s, g, Some(n), q, Some(m)) && Key(s, m) <= Key(s, n) && (r, next) == Advance(p, s, q, m)
    ensures Cursors(p, r, g, Some(n), q, next)
    ensures WalkBoth(p, r, g, Some(n), q, next) == WalkBoth(p, s, g, Some(n), q, Some(m))
    ensures Left(p, r, g, Some(n), q, next) < Left(p, s, g, Some(n), q, Some(m))
  {
    KeyInRange(p, s, q, m);
    VisitKeepsCursor(p, s, q, m, g, n);
  }

  /** RunCombinedDeferQ of entry e. */
  function RunCombinedDeferQ(p: Policy, s: State, e: EntryId): (r: State)
    requires Core(p, s) && AllQueued(s)
    ensures Core(p, r) && AllQueued(r)
  {
    var g, q := GroupOwner(e.group), EntryOwner(e);
    QueueKeysDistinct(p, s, g);
    QueueKeysDistinct(p, s, q);
    WalkBoth(p, s, g, Least(s, DeferQ(s, g)), q, Least(s, DeferQ(s, q)))
  }

  // ---- What is still to be visited ----

  predicate Pending(s: State, o: Owner, it: Option<EntryId>, f: EntryId) {
    f in s.home && s.home[f] == o && it.Some? && Key(s, it.value) <= Key(s, f)
  }

  /** Whatever is not ahead of an iterator has an owner that runs. */
  ghost predicate NoneAsleep(s: State, o: Owner, it: Option<EntryId>, q: Owner, jt: Option<EntryId>) {
    forall f {:trigger f in s.home} :: f in s.home ==>
      Waking(s, s.home[f]) || Pending(s, o, it, f) || Pending(s, q, jt, f)
  }

  /** Whatever is ahead of an iterator and could start has a larger key than what was started last. */
  ghost predicate NoneLate(
      p: Policy, s: State, o: Owner, it: Option<EntryId>, q: Owner, jt: Option<EntryId>, last: nat)
  {
    forall f {:trigger f in s.home} {:trigger Runnable(p, s, f)} ::
      (Pending(s, o, it, f) || Pending(s, q, jt, f)) && Runnable(p, s, f) ==> last < Key(s, f)
  }

  lemma OwnerBlocks(p: Policy, s: State, e: EntryId)
    requires QueuesOk(p, s) && e in s.home && OwnerRuns(s, s.home[e]) && EntryRun(s, STOP) == 0
    ensures !Runnable(p, s, e)
  {
  }

  lemma StillNotRunnable(p: Policy, s: State, e: EntryId, r: State, f: EntryId)
    requires Framed(s, e, r) && Runnable(p, r, f)
    ensures Runnable(p, s, f)
  {
    forall g | g in GroupRules(p, f.group) ensures GroupRun(s, g) == 0 { assert GroupRun(r, g) == 0; }
    forall h | h in EntryRules(p, f) ensures EntryRun(s, h) == 0 { assert EntryRun(r, h) == 0; }
  }

  lemma StillWaking(s: State, e: EntryId, r: State, o: Owner)
    requires Framed(s, e, r) && Waking(s, o)
    ensures Waking(r, o)
  {
    match o
    case GroupOwner(g) => assert GroupRun(r, g) >= GroupRun(s, g);
    case EntryOwner(f) => assert EntryRun(r, f) >= EntryRun(s, f);
  }

  lemma AdvanceAsleep(p: Policy, s: State, o: Owner, e: EntryId, q: Owner, jt: Option<EntryId>)
    requires Core(p, s) && AllQueued(s) && e in DeferQ(s, o)
    requires jt.Some? ==> jt.value in DeferQ(s, q) && jt.value != e
    requires NoneAsleep(s, o, Some(e), q, jt)
    ensures var (r, next) := Advance(p, s, o, e); NoneAsleep(r, o, next, q, jt)
  {
    var (r, next) := Advance(p, s, o, e);
    VisitReleases(p, s, o, e);
    if jt.Some? { VisitKeepsCursor(p, s, o, e, q, jt.value); }
    forall f | f in r.home ensures Waking(r, r.home[f]) || Pending(r, o, next, f) || Pending(r, q, jt, f) {
      if f != e {
        assert WaitQ(r, f) == WaitQ(s, f);
        if Waking(s, s.home[f]) {
          StillWaking(s, e, r, s.home[f]);
        } else if Pending(s, o, Some(e), f) {
          QueueKeysDistinct(p, s, o);
          assert f in DeferQ(s, o);
        }
      }
    }
  }

  /** The batch that e starts, if it starts one. */
  predicate Starts(s: State, r: State) { |r.started| > |s.started| }

  lemma AdvanceLate(p: Policy, s: State, o: Owner, e: EntryId, q: Owner, jt: Option<EntryId>, last: nat)
    requires Core(p, s) && AllQueued(s) && e in DeferQ(s, o)
    requires jt.Some? ==> jt.value in DeferQ(s, q) && Key(s, e) < Key(s, jt.value)
    requires NoneLate(p, s, o, Some(e), q, jt, last)
    ensures
      var (r, next) := Advance(p, s, o, e);
      && (Starts(s, r) ==> last < Key(s, e))
      && NoneLate(p, r, o, next, q, jt, if Starts(s, r) then Key(s, e) else last)
  {
    var (r, next) := Advance(p, s, o, e);
    VisitReleases(p, s, o, e);
    assert e in s.home;
    if Starts(s, r) { assert Runnable(p, s, e); }
    if jt.Some? { VisitKeepsCursor(p, s, o, e, q, jt.value); }
    StopIsIdle(r);
    ReleasedLate(p, s, o, e, q, jt, last, r, next);
  }

  lemma ReleasedLate(p: Policy, s: State, o: Owner, e: EntryId, q: Owner, jt: Option<EntryId>, last: nat,
                     r: State, next: Option<EntryId>)
    requires Released(p, s, e, r) && QueuesOk(p, r) && EntryRun(r, STOP) == 0 && NoneLate(p, s, o, Some(e), q, jt, last)
    requires next.Some? ==> Key(s, e) < Key(r, next.value)
    requires jt.Some? ==> Key(s, e) < Key(s, jt.value) == Key(r, jt.value)
    ensures NoneLate(p, r, o, next, q, jt, if Starts(s, r) then Key(s, e) else last)
  {
    forall f | (Pending(r, o, next, f) || Pending(r, q, jt, f)) && Runnable(p, r, f)
      ensures last < Key(r, f) && Key(s, e) < Key(r, f)
    {
      StillNotRunnable(p, s, e, r, f);
      if f == e {
        OwnerBlocks(p, r, e);
        assert false;
      } else {
        assert WaitQ(r, f) == WaitQ(s, f) && f in s.home;
      }
    }
  }

  // ---- The order of the batches ----

  /** Non-empty batches whose first tasks have increasing sequence numbers above last. */
  ghost predicate Rising(bs: seq<seq<Task>>, last: nat) {
    && (forall i {:trigger bs[i]} :: 0 <= i < |bs| ==> bs[i] != [] && last < bs[i][0].seqno)
    && (forall i, j {:trigger bs[i], bs[j]} :: 0 <= i < j < |bs| ==>
          bs[i] != [] && bs[j] != [] && bs[i][0].seqno < bs[j][0].seqno)
  }

  /** Between s and r, batches were started in rising order, after last. */
  ghost predicate InOrder(s: State, r: State, last: nat) {
    s.started <= r.started && Rising(r.started[|s.started|..], last)
  }

  // ---- The history of starts ----

  /** Tasks of one entry that occur in a and in b have smaller numbers in a. */
  ghost predicate Before(a: seq<Task>, b: seq<Task>) {
    forall i, j {:trigger a[i], b[j]} :: 0 <= i < |a| && 0 <= j < |b| && EntryOf(a[i]) == EntryOf(b[j]) ==>
      a[i].seqno < b[j].seqno
  }

  ghost predicate Ascending(a: seq<Task>) {
    forall i, j {:trigger a[i], a[j]} :: 0 <= i < j < |a| ==> a[i].seqno < a[j].seqno
  }

  /** The tasks of every entry started in enqueue order, and before those that still wait. */
  ghost predicate History(s: State) {
    && (forall i {:trigger s.started[i]} :: 0 <= i < |s.started| ==> Ascending(s.started[i]))
    && (forall i, j {:trigger s.started[i], s.started[j]} :: 0 <= i < j < |s.started| ==>
          Before(s.started[i], s.started[j]))
    && (forall i, e {:trigger Before(s.started[i], WaitQ(s, e))} :: 0 <= i < |s.started| ==>
          Before(s.started[i], WaitQ(s, e)))
    && (forall i, k {:trigger s.started[i][k]} :: 0 <= i < |s.started| && 0 <= k < |s.started[i]| ==>
          s.started[i][k].seqno <= s.seqno)
  }

  lemma BeforePart(a: seq<Task>, w: seq<Task>, b: seq<Task>, c: seq<Task>)
    requires Before(a, w) && b + c == w
    ensures Before(a, b) && Before(a, c)
  {
    assert forall j {:trigger b[j]} :: 0 <= j < |b| ==> b[j] == w[j];
    assert forall j {:trigger c[j]} :: 0 <= j < |c| ==> c[j] == w[|b| + j];
  }

  lemma SplitQueue(w: seq<Task>, e: EntryId, running: set<Task>, last: nat, b: seq<Task>, c: seq<Task>)
    requires QueueOk(w, e, running, last) && b + c == w
    ensures Ascending(b) && Before(b, c)
    ensures forall k :: 0 <= k < |b| ==> b[k].seqno <= last && EntryOf(b[k]) == e
  {
    assert forall j {:trigger b[j]} :: 0 <= j < |b| ==> b[j] == w[j];
    assert forall j {:trigger c[j]} :: 0 <= j < |c| ==> c[j] == w[|b| + j];
  }

  lemma StartedHistory(p: Policy, s: State, e: EntryId, r: State)
    requires Framed(s, e, r) && Started(p, s, e, r) && WaitingOk(s) && History(s)
    ensures History(r)
  {
    var n := |s.started|;
    var b := r.started[n];
    var w := WaitQ(s, e);
    SplitQueue(w, e, s.running, s.seqno, b, WaitQ(r, e));
    assert forall i {:trigger r.started[i]} :: 0 <= i < n ==> r.started[i] == s.started[i];
    forall i, f | 0 <= i < |r.started| ensures Before(r.started[i], WaitQ(r, f)) {
      if i < n {
        assert Before(s.started[i], WaitQ(s, f));
        if f == e { BeforePart(s.started[i], w, b, WaitQ(r, e)); }
      } else if f != e {
        assert QueueOk(WaitQ(s, f), f, s.running, s.seqno);
      }
    }
    forall i, j | 0 <= i < j < |r.started| ensures Before(r.started[i], r.started[j]) {
      if j == n {
        assert Before(s.started[i], w);
        BeforePart(s.started[i], w, b, WaitQ(r, e));
      }
    }
  }

  lemma ReleasedHistory(p: Policy, s: State, e: EntryId, r: State)
    requires Released(p, s, e, r) && WaitingOk(s) && History(s)
    ensures History(r)
  {
    if Started(p, s, e, r) {
      StartedHistory(p, s, e, r);
    } else {
      forall i, f | 0 <= i < |r.started| ensures Before(r.started[i], WaitQ(r, f)) {
        assert WaitQ(r, f) == WaitQ(s, f) && Before(s.started[i], WaitQ(s, f));
      }
    }
  }

  // ---- What a whole walk achieves ----

  /** Nothing sleeps afterwards, starts are in order, and tasks only moved from waiting to running. */
  ghost predicate Walked(s: State, r: State, last: nat) {
    && AllWaking(r) && InOrder(s, r, last) && SameLive(s, r)
    && (History(s) ==> History(r))
    && r.seqno == s.seqno && r.on == s.on
  }

  lemma InOrderStep(p: Policy, s: State, e: EntryId, s1: State, r: State, last: nat)
    requires Released(p, s, e, s1)
    requires Starts(s, s1) ==> last < Key(s, e)
    requires InOrder(s1, r, if Starts(s, s1) then Key(s, e) else last)
    ensures InOrder(s, r, last)
  {
    var n := |s.started|;
    var bs := r.started[n..];
    if Starts(s, s1) {
      assert s.started <= s1.started;
      assert bs == [s1.started[n]] + r.started[n + 1..];
      assert (s1.started[n] + WaitQ(s1, e))[0] == WaitQ(s, e)[0];
    }
  }

  lemma WalkedStep(p: Policy, s: State, e: EntryId, s1: State, r: State, last: nat)
    requires WaitingOk(s) && Released(p, s, e, s1)
    requires Starts(s, s1) ==> last < Key(s, e)
    requires Walked(s1, r, if Starts(s, s1) then Key(s, e) else last)
    ensures Walked(s, r, last)
  {
    InOrderStep(p, s, e, s1, r, last);
    if History(s) { ReleasedHistory(p, s, e, s1); }
    forall t ensures Live(r, t) <==> Live(s, t) { assert Live(s1, t) <==> Live(s, t); }
  }

  /** Walking one queue from it on leaves nothing asleep and starts entries in the order of their keys. */
  lemma {:induction false} WalkWakesInOrder(p: Policy, s: State, o: Owner, it: Option<EntryId>, last: nat)
    requires Core(p, s) && AllQueued(s)
    requires it.Some? ==> it.value in DeferQ(s, o)
    requires NoneAsleep(s, o, it, o, None) && NoneLate(p, s, o, it, o, None, last)
    ensures Walked(s, Walk(p, s, o, it), last)
    decreases if it.Some? then s.seqno + 1 - Key(s, it.value) else -1
  {
    if it.Some? {
      var e := it.value;
      var (s1, next) := Advance(p, s, o, e);
      AdvanceAsleep(p, s, o, e, o, None);
      AdvanceLate(p, s, o, e, o, None, last);
      VisitReleases(p, s, o, e);
      KeyInRange(p, s, o, e);
      WalkWakesInOrder(p, s1, o, next, if Starts(s, s1) then Key(s, e) else last);
      WalkedStep(p, s, e, s1, Walk(p, s, o, it), last);
    }
  }

  lemma RunDeferQWakesInOrder(p: Policy, s: State, o: Owner, it: Option<EntryId>, q: Owner, last: nat)
    requires Core(p, s) && AllQueued(s) && (o == EntryOwner(STOP) ==> s.on)
    requires NoneAsleep(s, o, it, q, None) && NoneLate(p, s, o, it, q, None, last)
    ensures Walked(s, RunDeferQ(p, s, o), last)
  {
    QueueKeysDistinct(p, s, o);
    var first := Least(s, DeferQ(s, o));
    StopIsIdle(s);
    FromTheStart(p, s, o, it, q, last, first);
    WalkWakesInOrder(p, s, o, first, last);
  }

  /** Going back to the beginning of a queue loses nothing that was ahead. */
  lemma FromTheStart(p: Policy, s: State, o: Owner, it: Option<EntryId>, q: Owner, last: nat, first: Option<EntryId>)
    requires QueuesOk(p, s) && EntryRun(s, STOP) == 0 && (o == EntryOwner(STOP) ==> s.on)
    requires forall f :: f in DeferQ(s, o) ==> first.Some? && Key(s, first.value) <= Key(s, f)
    requires NoneAsleep(s, o, it, q, None) && NoneLate(p, s, o, it, q, None, last)
    ensures NoneAsleep(s, o, first, o, None) && NoneLate(p, s, o, first, o, None, last)
  {
    forall f | f in s.home ensures Waking(s, s.home[f]) || Pending(s, o, first, f) {
      assert s.home[f] == o ==> f in DeferQ(s, o);
    }
    forall f | Pending(s, o, first, f) && Runnable(p, s, f) ensures last < Key(s, f) {
      if OwnerRuns(s, o) { OwnerBlocks(p, s, f); }
    }
  }

  lemma {:induction false} WalkBothWakesInOrder(p: Policy, s: State, g: Owner, git: Option<EntryId>,
                                                q: Owner, qit: Option<EntryId>, last: nat)
    requires Core(p, s) && AllQueued(s) && g != q && g != EntryOwner(STOP) && q != EntryOwner(STOP)
    requires git.Some? ==> git.value in DeferQ(s, g)
    requires qit.Some? ==> qit.value in DeferQ(s, q)
    requires NoneAsleep(s, g, git, q, qit) && NoneLate(p, s, g, git, q, qit, last)
    ensures Walked(s, WalkBoth(p, s, g, git, q, qit), last)
    decreases Distance(s, git) + Distance(s, qit)
  {
    if git.Some? && qit.Some? {
      KeyInRange(p, s, g, git.value);
      KeyInRange(p, s, q, qit.value);
      if Key(s, git.value) < Key(s, qit.value) {
        BothStep(p, s, g, git.value, q, qit.value, last);
        var (s1, next) := Advance(p, s, g, git.value);
        WalkBothWakesInOrder(p, s1, g, next, q, qit, if Starts(s, s1) then Key(s, git.value) else last);
        WalkedStep(p, s, git.value, s1, WalkBoth(p, s, g, git, q, qit), last);
      } else {
        HeadsDiffer(s, git.value, qit.value);
        Swap(p, s, g, git, q, qit, last);
        BothStep(p, s, q, qit.value, g, git.value, last);
        var (s1, next) := Advance(p, s, q, qit.value);
        Swap(p, s1, q, next, g, git, if Starts(s, s1) then Key(s, qit.value) else last);
        WalkBothWakesInOrder(p, s1, g, git, q, next, if Starts(s, s1) then Key(s, qit.value) else last);
        WalkedStep(p, s, qit.value, s1, WalkBoth(p, s, g, git, q, qit), last);
      }
    } else if git.Some? {
      RunDeferQWakesInOrder(p, s, g, git, q, last);
    } else if qit.Some? {
      Swap(p, s, g, git, q, qit, last);
      RunDeferQWakesInOrder(p, s, q, qit, g, last);
    }
  }

  lemma Swap(p: Policy, s: State, g: Owner, git: Option<EntryId>, q: Owner, qit: Option<EntryId>, last: nat)
    requires NoneAsleep(s, g, git, q, qit) && NoneLate(p, s, g, git, q, qit, last)
    ensures NoneAsleep(s, q, qit, g, git) && NoneLate(p, s, q, qit, g, git, last)
  {
  }

  lemma BothStep(p: Policy, s: State, o: Owner, e: EntryId, q: Owner, n: EntryId, last: nat)
    requires Core(p, s) && AllQueued(s) && o != q
    requires e in DeferQ(s, o) && n in DeferQ(s, q) && Key(s, e) < Key(s, n)
    requires NoneAsleep(s, o, Some(e), q, Some(n)) && NoneLate(p, s, o, Some(e), q, Some(n), last)
    ensures
      var (r, next) := Advance(p, s, o, e);
      && Released(p, s, e, r) && r.on == s.on
      && NoneAsleep(r, o, next, q, Some(n))
      && (Starts(s, r) ==> last < Key(s, e))
      && NoneLate(p, r, o, next, q, Some(n), if Starts(s, r) then Key(s, e) else last)
      && n in DeferQ(r, q) && Key(r, n) == Key(s, n)
  {
    AdvanceAsleep(p, s, o, e, q, Some(n));
    AdvanceLate(p, s, o, e, q, Some(n), last);
    VisitReleases(p, s, o, e);
    VisitKeepsCursor(p, s, o, e, q, n);
  }
}
