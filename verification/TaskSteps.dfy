/** Releasing deferred entries: RunDeferEntry and the walks over the defer queues. */
module TaskSteps {
  import opened Options
  import opened TaskPolicy
  import opened TaskState
  import opened TaskInvariant

  /** The loop of RunWaitQ for instance -1: one policy check has been made, then the whole queue runs. */
  function StartAll(p: Policy, s: State, e: EntryId): (r: State)
    requires Core(p, s) && AllQueuedBut(s, e) && Free(p, s, e) && e.instance == -1
    ensures Core(p, r) && AllQueuedBut(r, e) && WaitQ(r, e) == []
    decreases |WaitQ(s, e)|
  {
    if WaitQ(s, e) == [] then s
    else
      StartHeadKeeps(p, s, e);
      StartAll(p, StartHead(s, e), e)
  }

  /** RunWaitQ: a numbered instance starts one task and defers the others on itself. */
  function RunWaitQ(p: Policy, s: State, e: EntryId): (r: State)
    requires Core(p, s) && AllQueuedBut(s, e) && Free(p, s, e) && WaitQ(s, e) != []
    ensures Core(p, r) && AllQueued(r)
  {
    if e.instance != -1 then
      StartHeadKeeps(p, s, e);
      var s1 := StartHead(s, e).(started := s.started + [[WaitQ(s, e)[0]]]);
      LogKeeps(p, StartHead(s, e), s1);
      if WaitQ(s1, e) != [] then
        EntryRulesSymmetric(p);
        AddToDeferQKeeps(p, s1, EntryOwner(e), e);
        AddToDeferQ(s1, EntryOwner(e), e)
      else s1
    else
      var s1 := StartAll(p, s, e);
      var s2 := s1.(started := s.started + [WaitQ(s, e)]);
      LogKeeps(p, s1, s2);
      s2
  }

  /** The list of started batches is not read by the invariant. */
  lemma LogKeeps(p: Policy, s: State, r: State)
    requires Core(p, s)
    requires r == s.(started := r.started)
    ensures Core(p, r)
    ensures forall e {:trigger AllQueuedBut(r, e)} :: AllQueuedBut(s, e) ==> AllQueuedBut(r, e)
    ensures forall e {:trigger WaitQ(r, e)} :: WaitQ(r, e) == WaitQ(s, e)
  {
    SameRuns(p, s, r);
    assert forall o {:trigger DeferQ(r, o)} :: DeferQ(r, o) == DeferQ(s, o);
    assert forall e {:trigger WaitQ(r, e)} :: WaitQ(r, e) == WaitQ(s, e);
  }

  /** RunDeferEntry: the entry is deferred again or its wait queue runs. */
  function RunDeferEntry(p: Policy, s: State, e: EntryId): (r: State)
    requires Core(p, s) && AllQueuedBut(s, e) && WaitQ(s, e) != []
    ensures Core(p, r) && AllQueued(r)
  {
    var b := BlockedBy(p, s, e);
    if b.Some? then
      AddToDeferQKeeps(p, s, b.value, e);
      AddToDeferQ(s, b.value, e)
    else
      RunnableIsFree(p, s, e);
      RunWaitQ(p, s, e)
  }

  // ---- What releasing one entry changes ----

  /** Only entry e moves; run counts do not fall; no task appears or disappears. */
  ghost predicate Framed(s: State, e: EntryId, r: State) {
    && r.seqno == s.seqno && r.on == s.on
    && (forall f {:trigger WaitQ(r, f)} :: f != e ==> WaitQ(r, f) == WaitQ(s, f))
    && (forall f {:trigger f in r.home} :: f != e ==>
          (f in r.home <==> f in s.home) && (f in s.home ==> r.home[f] == s.home[f]))
    && (forall f {:trigger EntryRun(r, f)} :: EntryRun(s, f) <= EntryRun(r, f))
    && (forall g {:trigger GroupRun(r, g)} :: GroupRun(s, g) <= GroupRun(r, g))
    && SameLive(s, r)
  }

  ghost predicate SameLive(s: State, r: State) {
    forall t {:trigger Live(r, t)} {:trigger Live(s, t)} :: Live(r, t) <==> Live(s, t)
  }

  /** The entry stays as it is, behind an owner that runs. */
  ghost predicate Deferred(p: Policy, s: State, e: EntryId, r: State) {
    && !Runnable(p, s, e)
    && WaitQ(r, e) == WaitQ(s, e) && e in r.home && OwnerRuns(r, r.home[e])
    && r.started == s.started
  }

  /** A non-empty prefix of the wait queue started; what is left waits for the entry itself. */
  ghost predicate Started(p: Policy, s: State, e: EntryId, r: State) {
    && Runnable(p, s, e)
    && WaitQ(s, e) != []
    && |r.started| == |s.started| + 1 && r.started[..|s.started|] == s.started
    && var batch := r.started[|s.started|];
    && batch != [] && batch + WaitQ(r, e) == WaitQ(s, e)
    && EntryRun(r, e) > 0
    && (e in r.home ==> r.home[e] == EntryOwner(e))
  }

  ghost predicate Released(p: Policy, s: State, e: EntryId, r: State) {
    Framed(s, e, r) && (Deferred(p, s, e, r) || Started(p, s, e, r))
  }

  lemma StartHeadFrame(s: State, e: EntryId)
    requires WaitQ(s, e) != [] && EntryOf(WaitQ(s, e)[0]) == e
    requires e.instance != -1 ==> e !in s.runTask && EntryRun(s, e) == 0
    ensures Framed(s, e, StartHead(s, e)) && EntryRun(StartHead(s, e), e) > 0
    ensures StartHead(s, e).home == s.home && StartHead(s, e).started == s.started
    ensures WaitQ(StartHead(s, e), e) == WaitQ(s, e)[1..]
  {
    assert WaitQ(s, e) == [WaitQ(s, e)[0]] + WaitQ(s, e)[1..];
  }

  lemma FrameTransitive(s: State, e: EntryId, s1: State, r: State)
    requires Framed(s, e, s1) && Framed(s1, e, r)
    ensures Framed(s, e, r)
  {
    forall f ensures EntryRun(s, f) <= EntryRun(r, f) { assert EntryRun(s1, f) <= EntryRun(r, f); }
    forall g ensures GroupRun(s, g) <= GroupRun(r, g) { assert GroupRun(s1, g) <= GroupRun(r, g); }
    forall t ensures Live(r, t) <==> Live(s, t) { assert Live(s1, t) <==> Live(s, t); }
  }

  lemma {:induction false} StartAllFrame(p: Policy, s: State, e: EntryId)
    requires Core(p, s) && AllQueuedBut(s, e) && Free(p, s, e) && e.instance == -1
    ensures Framed(s, e, StartAll(p, s, e))
    ensures WaitQ(s, e) != [] ==> EntryRun(StartAll(p, s, e), e) > 0
    ensures StartAll(p, s, e).home == s.home && StartAll(p, s, e).started == s.started
    decreases |WaitQ(s, e)|
  {
    if WaitQ(s, e) != [] {
      StartHeadKeeps(p, s, e);
      StartHeadFrame(s, e);
      StartAllFrame(p, StartHead(s, e), e);
      FrameTransitive(s, e, StartHead(s, e), StartAll(p, s, e));
    }
  }

  /** The two states differ at most in the defer queues, in the home of e and in the list of batches. */
  ghost predicate SameButHome(s: State, e: EntryId, r: State) {
    && r == s.(deferq := r.deferq, home := r.home, started := r.started)
    && (forall f {:trigger f in r.home} {:trigger f in s.home} :: f != e ==>
          (f in r.home <==> f in s.home) && (f in s.home ==> r.home[f] == s.home[f]))
  }

  lemma FrameThenSame(s: State, e: EntryId, s1: State, r: State)
    requires Framed(s, e, s1) && SameButHome(s1, e, r)
    ensures Framed(s, e, r)
  {
    forall f ensures WaitQ(r, f) == WaitQ(s1, f) && EntryRun(r, f) == EntryRun(s1, f) {}
    forall g ensures GroupRun(r, g) == GroupRun(s1, g) {}
  }

  lemma SameThenFrame(s: State, e: EntryId, s1: State, r: State)
    requires SameButHome(s, e, s1) && Framed(s1, e, r)
    ensures Framed(s, e, r)
  {
    forall f ensures WaitQ(s, f) == WaitQ(s1, f) && EntryRun(s, f) == EntryRun(s1, f) {}
    forall g ensures GroupRun(s, g) == GroupRun(s1, g) {}
  }

  lemma SameRunnable(p: Policy, s: State, r: State, e: EntryId)
    requires r.entryRun == s.entryRun && r.groupRun == s.groupRun
    ensures Runnable(p, s, e) == Runnable(p, r, e)
  {
    forall f ensures EntryRun(r, f) == EntryRun(s, f) {}
    forall g ensures GroupRun(r, g) == GroupRun(s, g) {}
  }

  lemma NumberedStarts(p: Policy, s: State, e: EntryId)
    requires Core(p, s) && AllQueuedBut(s, e) && Free(p, s, e) && WaitQ(s, e) != [] && e.instance != -1
    ensures Framed(s, e, RunWaitQ(p, s, e))
    ensures RunWaitQ(p, s, e).started == s.started + [[WaitQ(s, e)[0]]]
    ensures WaitQ(RunWaitQ(p, s, e), e) == WaitQ(s, e)[1..]
    ensures EntryRun(RunWaitQ(p, s, e), e) > 0
    ensures e in RunWaitQ(p, s, e).home ==> RunWaitQ(p, s, e).home[e] == EntryOwner(e)
  {
    StartHeadKeeps(p, s, e);
    StartHeadFrame(s, e);
    var s1, r := StartHead(s, e), RunWaitQ(p, s, e);
    assert r == s1.(deferq := r.deferq, home := r.home, started := r.started);
    FrameThenSame(s, e, s1, r);
  }

  lemma WildcardStarts(p: Policy, s: State, e: EntryId)
    requires Core(p, s) && AllQueuedBut(s, e) && Free(p, s, e) && WaitQ(s, e) != [] && e.instance == -1
    ensures Framed(s, e, RunWaitQ(p, s, e))
    ensures RunWaitQ(p, s, e).started == s.started + [WaitQ(s, e)]
    ensures WaitQ(RunWaitQ(p, s, e), e) == []
    ensures EntryRun(RunWaitQ(p, s, e), e) > 0
    ensures e !in RunWaitQ(p, s, e).home
  {
    StartAllFrame(p, s, e);
    FrameThenSame(s, e, StartAll(p, s, e), RunWaitQ(p, s, e));
  }

  lemma RunWaitQStarts(p: Policy, s: State, e: EntryId)
    requires Core(p, s) && AllQueuedBut(s, e) && Runnable(p, s, e) && WaitQ(s, e) != []
    ensures Free(p, s, e)
    ensures Framed(s, e, RunWaitQ(p, s, e)) && Started(p, s, e, RunWaitQ(p, s, e))
  {
    RunnableIsFree(p, s, e);
    var r, w := RunWaitQ(p, s, e), WaitQ(s, e);
    if e.instance != -1 {
      NumberedStarts(p, s, e);
      HeadAndTail(w);
      StartsWith(p, s, e, r, [w[0]], w[1..]);
    } else {
      WildcardStarts(p, s, e);
      assert w + [] == w;
      StartsWith(p, s, e, r, w, []);
    }
  }

  lemma HeadAndTail(w: seq<Task>)
    requires w != []
    ensures [w[0]] + w[1..] == w
  {
  }

  lemma StartsWith(p: Policy, s: State, e: EntryId, r: State, batch: seq<Task>, left: seq<Task>)
    requires Runnable(p, s, e) && batch != [] && WaitQ(r, e) == left && batch + left == WaitQ(s, e)
    requires r.started == s.started + [batch] && EntryRun(r, e) > 0 && (e in r.home ==> r.home[e] == EntryOwner(e))
    ensures Started(p, s, e, r)
  {
  }

  lemma RunDeferEntryReleases(p: Policy, s: State, e: EntryId)
    requires Core(p, s) && AllQueuedBut(s, e) && WaitQ(s, e) != []
    ensures Released(p, s, e, RunDeferEntry(p, s, e))
  {
    var b := BlockedBy(p, s, e);
    if b.None? {
      RunWaitQStarts(p, s, e);
    } else {
      AddToDeferQKeeps(p, s, b.value, e);
      AddDefers(p, s, b.value, e);
    }
  }

  lemma AddDefers(p: Policy, s: State, o: Owner, e: EntryId)
    requires e !in s.home && !Runnable(p, s, e) && OwnerRuns(s, o)
    requires forall f :: f in DeferQ(s, o) ==> Key(s, f) != Key(s, e)
    ensures Released(p, s, e, AddToDeferQ(s, o, e))
  {
    assert Framed(s, e, s);
    FrameThenSame(s, e, s, AddToDeferQ(s, o, e));
  }

  /** One iteration of a walk: take the entry out of the queue and release it. */
  function Visit(p: Policy, s: State, o: Owner, e: EntryId): (r: State)
    requires Core(p, s) && AllQueued(s) && e in DeferQ(s, o)
    ensures Core(p, r) && AllQueued(r)
  {
    DeleteFromDeferQKeeps(p, s, o, e);
    RunDeferEntry(p, DeleteFromDeferQ(s, o, e), e)
  }

  lemma VisitReleases(p: Policy, s: State, o: Owner, e: EntryId)
    requires Core(p, s) && AllQueued(s) && e in DeferQ(s, o)
    ensures Released(p, s, e, Visit(p, s, o, e))
  {
    DeleteFromDeferQKeeps(p, s, o, e);
    var s1 := DeleteFromDeferQ(s, o, e);
    DeleteChangesHome(s, o, e);
    RunDeferEntryReleases(p, s1, e);
    SameThenReleased(p, s, e, s1, RunDeferEntry(p, s1, e));
  }

  lemma DeleteChangesHome(s: State, o: Owner, e: EntryId)
    requires e in s.home && s.home[e] == o && e in DeferQ(s, o)
    ensures SameButHome(s, e, DeleteFromDeferQ(s, o, e)) && DeleteFromDeferQ(s, o, e).started == s.started
  {
  }

  lemma SameThenReleased(p: Policy, s: State, e: EntryId, s1: State, r: State)
    requires SameButHome(s, e, s1) && s1.started == s.started && Released(p, s1, e, r)
    ensures Released(p, s, e, r)
  {
    SameThenFrame(s, e, s1, r);
    SameRunnable(p, s, s1, e);
    assert WaitQ(s1, e) == WaitQ(s, e);
  }

  /** The other iterators stay valid: their entries are neither removed nor reordered. */
  lemma VisitKeepsCursor(p: Policy, s: State, o: Owner, e: EntryId, q: Owner, n: EntryId)
    requires Core(p, s) && AllQueued(s) && e in DeferQ(s, o) && n in DeferQ(s, q) && n != e
    ensures n in DeferQ(Visit(p, s, o, e), q) && Key(Visit(p, s, o, e), n) == Key(s, n)
  {
    VisitReleases(p, s, o, e);
    assert n in Visit(p, s, o, e).home;
  }

  lemma KeyInRange(p: Policy, s: State, o: Owner, e: EntryId)
    requires Core(p, s) && AllQueued(s) && e in DeferQ(s, o)
    ensures 0 < Key(s, e) <= s.seqno
  {
    assert WaitQ(s, e) != [];
    assert EntryOf(WaitQ(s, e)[0]) == e;
  }

  /** it++, then take out and release the entry the iterator stood at. */
  function Advance(p: Policy, s: State, o: Owner, e: EntryId): (r: (State, Option<EntryId>))
    requires Core(p, s) && AllQueued(s) && e in DeferQ(s, o)
    ensures Core(p, r.0) && AllQueued(r.0) && r.0.seqno == s.seqno
    ensures r.1.Some? ==> r.1.value in DeferQ(r.0, o) && r.1.value in DeferQ(s, o)
    ensures r.1.Some? ==> Key(s, e) < Key(r.0, r.1.value) <= s.seqno && Key(r.0, r.1.value) == Key(s, r.1.value)
    ensures forall f :: f in DeferQ(s, o) && Key(s, e) < Key(s, f) ==> r.1.Some? && Key(s, r.1.value) <= Key(s, f)
    ensures r.0 == Visit(p, s, o, e)
  {
    QueueKeysDistinct(p, s, o);
    var next := Next(s, DeferQ(s, o), e);
    var s1 := Visit(p, s, o, e);
    VisitReleases(p, s, o, e);
    if next.Some? then
      VisitKeepsCursor(p, s, o, e, o, next.value);
      KeyInRange(p, s, o, next.value);
      (s1, next)
    else (s1, next)
  }

  /** RunDeferQ from iterator it on. The walk ends because the keys it stands at increase up to seqno. */
  function Walk(p: Policy, s: State, o: Owner, it: Option<EntryId>): (r: State)
    requires Core(p, s) && AllQueued(s)
    requires it.Some? ==> it.value in DeferQ(s, o)
    ensures Core(p, r) && AllQueued(r)
    decreases if it.Some? then s.seqno + 1 - Key(s, it.value) else -1
  {
    if it.None? then s
    else
      KeyInRange(p, s, o, it.value);
      var (s1, next) := Advance(p, s, o, it.value);
      Walk(p, s1, o, next)
  }

  function RunDeferQ(p: Policy, s: State, o: Owner): (r: State)
    requires Core(p, s) && AllQueued(s)
    ensures Core(p, r) && AllQueued(r)
  {
    QueueKeysDistinct(p, s, o);
    Walk(p, s, o, Least(s, DeferQ(s, o)))
  }
}
