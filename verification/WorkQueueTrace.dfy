/** Runs of the work queue in terms of the calls: what was enqueued, what was refused, what was switched off. */
module WorkQueueTrace {
  import opened Options
  import opened WorkQueue
  import opened WorkQueueDrain

  // ---- What becomes of the entries of a thread ----

  /** The entries that a thread was asked to enqueue, in order. */
  function Asked(ops: seq<Op>, t: Thread): seq<Entry>
    decreases |ops|
  {
    if ops == [] then []
    else (if ops[0].Enqueue? && ops[0].thread == t then [ops[0].entry] else []) + Asked(ops[1..], t)
  }

  /** What a call of Enqueue is to do with its entry. */
  datatype Verdict = Verdict(entry: Entry, accepted: bool)

  /** The queue has no bound, or counting the new entry leaves the counter below it. */
  predicate HasRoom(s: State) {
    !s.bounded || s.count + 1 < s.size
  }

  function Verdicts(s: State, op: Op, t: Thread): seq<Verdict> {
    if op == Advance(t) && t in s.threads && s.threads[t].Count? then [Verdict(s.threads[t].entry, HasRoom(s))] else []
  }

  /** The verdicts on the entries of a thread, in order. */
  function Decided(s: State, ops: seq<Op>, t: Thread): seq<Verdict>
    requires Steps(s, ops).Some?
    decreases |ops|
  {
    if ops == [] then [] else Verdicts(s, ops[0], t) + Decided(Step(s, ops[0]), ops[1..], t)
  }

  function Entries(vs: seq<Verdict>): seq<Entry> {
    if vs == [] then [] else [vs[0].entry] + Entries(vs[1..])
  }

  function Accepted(vs: seq<Verdict>): seq<Entry> {
    if vs == [] then [] else (if vs[0].accepted then [vs[0].entry] else []) + Accepted(vs[1..])
  }

  /** The entries that went into the queue, with the threads that pushed them. */
  function PushLog(s: State, ops: seq<Op>): seq<(Thread, Entry)>
    requires Steps(s, ops).Some?
    decreases |ops|
  {
    if ops == [] then [] else PushStep(s, ops[0]) + PushLog(Step(s, ops[0]), ops[1..])
  }

  function PushStep(s: State, op: Op): seq<(Thread, Entry)>
    requires Enabled(s, op)
  {
    var r := Step(s, op);
    if op.Advance? && |s.pushed| < |r.pushed| then [(op.thread, r.pushed[|s.pushed|])] else []
  }

  function Pushes(log: seq<(Thread, Entry)>): seq<Entry> {
    if log == [] then [] else [log[0].1] + Pushes(log[1..])
  }

  function PushesOf(log: seq<(Thread, Entry)>, t: Thread): seq<Entry> {
    if log == [] then [] else (if log[0].0 == t then [log[0].1] else []) + PushesOf(log[1..], t)
  }

  /** The entry of a call that has not been counted yet. */
  function Counting(s: State, t: Thread): seq<Entry> {
    if t in s.threads && s.threads[t].Count? then [s.threads[t].entry] else []
  }

  /** The entry of a call that has been counted and will be pushed. */
  function Pushing(s: State, t: Thread): seq<Entry> {
    if t in s.threads && s.threads[t].Push? then [s.threads[t].entry] else []
  }

  // ---- One step ----

  function AskedBy(op: Op, t: Thread): seq<Entry> {
    if op.Enqueue? && op.thread == t then [op.entry] else []
  }

  lemma StepCounts(s: State, op: Op, t: Thread)
    requires Enabled(s, op)
    ensures Counting(s, t) + AskedBy(op, t) == Entries(Verdicts(s, op, t)) + Counting(Step(s, op), t)
  {
    match op
    case Advance(u) => ThreadCounts(s, u, t);
    case Run(r, result) => RunnerFrame(s, r, result);
    case _ =>
  }

  lemma ThreadCounts(s: State, u: Thread, t: Thread)
    requires u in s.threads
    ensures Counting(s, t) == Entries(Verdicts(s, Advance(u), t)) + Counting(ThreadStep(s, u), t)
  {
    ThreadMoves(s, u);
    if u == t { NeverCountsAgain(s, t); }
  }

  lemma NeverCountsAgain(s: State, t: Thread)
    requires t in s.threads
    ensures Counting(ThreadStep(s, t), t) == []
  {
    if !Locks(s.threads[t]) { SwitchOrEnqueue(s, t); }
  }

  lemma SwitchOrEnqueue(s: State, t: Thread)
    requires t in s.threads && !Locks(s.threads[t])
    ensures Counting(ThreadStep(s, t), t) == []
  {
  }

  lemma StepPushes(s: State, op: Op, t: Thread)
    requires Enabled(s, op)
    ensures Pushing(s, t) + Accepted(Verdicts(s, op, t)) == PushesOf(PushStep(s, op), t) + Pushing(Step(s, op), t)
  {
    match op
    case Advance(u) => ThreadPushes(s, u, t);
    case Run(r, result) => RunnerFrame(s, r, result);
    case _ =>
  }

  lemma ThreadPushes(s: State, u: Thread, t: Thread)
    requires u in s.threads
    requires Enabled(s, Advance(u))
    ensures Pushing(s, t) + Accepted(Verdicts(s, Advance(u), t))
      == PushesOf(PushStep(s, Advance(u)), t) + Pushing(ThreadStep(s, u), t)
  {
    ThreadMoves(s, u);
    if s.threads[u].Count? || s.threads[u].Push? {
      EnqueuePushes(s, u, t);
    } else {
      OthersPushNothing(s, u);
    }
  }

  /** A call goes on to push its entry if and only if the queue has room; pushing puts that entry at the end. */
  lemma EnqueuePushes(s: State, u: Thread, t: Thread)
    requires u in s.threads && (s.threads[u].Count? || s.threads[u].Push?)
    requires OnlyMoves(s, ThreadStep(s, u), u)
    ensures Pushing(s, t) + Accepted(Verdicts(s, Advance(u), t))
      == PushesOf(PushStep(s, Advance(u)), t) + Pushing(ThreadStep(s, u), t)
  {
  }

  lemma OthersPushNothing(s: State, u: Thread)
    requires Enabled(s, Advance(u)) && !s.threads[u].Count? && !s.threads[u].Push?
    ensures PushStep(s, Advance(u)) == [] && Pushing(ThreadStep(s, u), u) == []
  {
    if Locks(s.threads[u]) { LocksPushNothing(s, u); }
  }

  lemma LocksPushNothing(s: State, u: Thread)
    requires u in s.threads && Locks(s.threads[u])
    ensures ThreadStep(s, u).pushed == s.pushed && Pushing(ThreadStep(s, u), u) == []
  {
  }

  // ---- Whole runs ----

  lemma Assoc(a: seq<Entry>, b: seq<Entry>, c: seq<Entry>)
    ensures a + (b + c) == (a + b) + c
  {
  }

  lemma {:induction false} EntriesConcat(vs: seq<Verdict>, ws: seq<Verdict>)
    ensures Entries(vs + ws) == Entries(vs) + Entries(ws)
  {
    if vs == [] {
      assert vs + ws == ws;
    } else {
      assert (vs + ws)[1..] == vs[1..] + ws;
      EntriesConcat(vs[1..], ws);
      Assoc([vs[0].entry], Entries(vs[1..]), Entries(ws));
    }
  }

  lemma {:induction false} AcceptedConcat(vs: seq<Verdict>, ws: seq<Verdict>)
    ensures Accepted(vs + ws) == Accepted(vs) + Accepted(ws)
  {
    if vs == [] {
      assert vs + ws == ws;
    } else {
      assert (vs + ws)[1..] == vs[1..] + ws;
      AcceptedConcat(vs[1..], ws);
      Assoc(if vs[0].accepted then [vs[0].entry] else [], Accepted(vs[1..]), Accepted(ws));
    }
  }

  lemma {:induction false} PushesConcat(v: seq<(Thread, Entry)>, w: seq<(Thread, Entry)>)
    ensures Pushes(v + w) == Pushes(v) + Pushes(w)
  {
    if v == [] {
      assert v + w == w;
    } else {
      assert (v + w)[1..] == v[1..] + w;
      PushesConcat(v[1..], w);
      Assoc([v[0].1], Pushes(v[1..]), Pushes(w));
    }
  }

  lemma {:induction false} PushesOfConcat(v: seq<(Thread, Entry)>, w: seq<(Thread, Entry)>, t: Thread)
    ensures PushesOf(v + w, t) == PushesOf(v, t) + PushesOf(w, t)
  {
    if v == [] {
      assert v + w == w;
    } else {
      assert (v + w)[1..] == v[1..] + w;
      PushesOfConcat(v[1..], w, t);
      Assoc(if v[0].0 == t then [v[0].1] else [], PushesOf(v[1..], t), PushesOf(w, t));
    }
  }

  /** From a + b == c + d and d + e == f + g: the middle part is passed on. */
  lemma Passed(a: seq<Entry>, b: seq<Entry>, c: seq<Entry>, d: seq<Entry>, e: seq<Entry>, f: seq<Entry>, g: seq<Entry>)
    requires a + b == c + d && d + e == f + g
    ensures a + (b + e) == (c + f) + g
  {
    Assoc(a, b, e);
    Assoc(c, d, e);
    Assoc(c, f, g);
  }

  /** The entries of a thread are decided in the order in which they were enqueued, but for the last one. */
  lemma {:induction false} RunCounts(s: State, ops: seq<Op>, r: State, t: Thread)
    requires Steps(s, ops) == Some(r)
    ensures Counting(s, t) + Asked(ops, t) == Entries(Decided(s, ops, t)) + Counting(r, t)
    decreases |ops|
  {
    if ops != [] {
      var s1 := Step(s, ops[0]);
      StepCounts(s, ops[0], t);
      RunCounts(s1, ops[1..], r, t);
      EntriesConcat(Verdicts(s, ops[0], t), Decided(s1, ops[1..], t));
      Passed(Counting(s, t), AskedBy(ops[0], t), Entries(Verdicts(s, ops[0], t)), Counting(s1, t),
             Asked(ops[1..], t), Entries(Decided(s1, ops[1..], t)), Counting(r, t));
    }
  }

  /** The accepted entries of a thread, and no others, are pushed, in the same order, but for the last one. */
  lemma {:induction false} RunPushes(s: State, ops: seq<Op>, r: State, t: Thread)
    requires Steps(s, ops) == Some(r)
    ensures Pushing(s, t) + Accepted(Decided(s, ops, t)) == PushesOf(PushLog(s, ops), t) + Pushing(r, t)
    decreases |ops|
  {
    if ops != [] {
      var s1 := Step(s, ops[0]);
      StepPushes(s, ops[0], t);
      RunPushes(s1, ops[1..], r, t);
      AcceptedConcat(Verdicts(s, ops[0], t), Decided(s1, ops[1..], t));
      PushesOfConcat(PushStep(s, ops[0]), PushLog(s1, ops[1..]), t);
      Passed(Pushing(s, t), Accepted(Verdicts(s, ops[0], t)), PushesOf(PushStep(s, ops[0]), t), Pushing(s1, t),
             Accepted(Decided(s1, ops[1..], t)), PushesOf(PushLog(s1, ops[1..]), t), Pushing(r, t));
    }
  }

  lemma StepLogs(s: State, op: Op)
    requires Enabled(s, op)
    ensures Step(s, op).pushed == s.pushed + Pushes(PushStep(s, op))
  {
    match op
    case Advance(t) => ThreadLogs(s, t);
    case Run(r, result) => RunnerLogs(s, r, result);
    case _ =>
  }

  lemma ThreadLogs(s: State, t: Thread)
    requires Enabled(s, Advance(t))
    ensures ThreadStep(s, t).pushed == s.pushed + Pushes(PushStep(s, Advance(t)))
  {
    if !s.threads[t].Push? { NotPushed(s, t); }
  }

  lemma NotPushed(s: State, t: Thread)
    requires t in s.threads && !s.threads[t].Push?
    ensures ThreadStep(s, t).pushed == s.pushed
  {
    if Locks(s.threads[t]) { LocksPushNothing(s, t); }
  }

  lemma RunnerLogs(s: State, r: Runner, result: bool)
    requires r in s.runners
    ensures RunnerStep(s, r, result).pushed == s.pushed
  {
  }

  /** The log is the whole of what went into the queue. */
  lemma {:induction false} RunLogs(s: State, ops: seq<Op>, r: State)
    requires Steps(s, ops) == Some(r)
    ensures r.pushed == s.pushed + Pushes(PushLog(s, ops))
    decreases |ops|
  {
    if ops != [] {
      var s1 := Step(s, ops[0]);
      StepLogs(s, ops[0]);
      RunLogs(s1, ops[1..], r);
      PushesConcat(PushStep(s, ops[0]), PushLog(s1, ops[1..]));
      Assoc(s.pushed, Pushes(PushStep(s, ops[0])), Pushes(PushLog(s1, ops[1..])));
    }
  }

  /**
   * Nothing is lost on the way into the queue. In every run the pushed entries are those of the log; those of one
   * thread are its accepted entries in order, except one that it is about to push; and the entries that it was
   * asked to enqueue are those accepted or refused, in order, except one that is not counted yet.
   */
  lemma EnqueuedArePushed(ops: seq<Op>, r: State, bounded: bool, size: nat, maxIterations: nat, t: Thread)
    requires Steps(Init(bounded, size, maxIterations), ops) == Some(r)
    ensures var s := Init(bounded, size, maxIterations);
      && r.pushed == Pushes(PushLog(s, ops))
      && Accepted(Decided(s, ops, t)) == PushesOf(PushLog(s, ops), t) + Pushing(r, t)
      && Asked(ops, t) == Entries(Decided(s, ops, t)) + Counting(r, t)
  {
    var s := Init(bounded, size, maxIterations);
    RunLogs(s, ops, r);
    RunPushes(s, ops, r, t);
    RunCounts(s, ops, r, t);
    assert [] + Accepted(Decided(s, ops, t)) == Accepted(Decided(s, ops, t));
    assert [] + Asked(ops, t) == Asked(ops, t);
    assert [] + Pushes(PushLog(s, ops)) == Pushes(PushLog(s, ops));
  }

  // ---- Refusals ----

  lemma {:induction false} UnboundedAccepts(s: State, ops: seq<Op>, t: Thread)
    requires Steps(s, ops).Some? && !s.bounded
    ensures Accepted(Decided(s, ops, t)) == Entries(Decided(s, ops, t))
    decreases |ops|
  {
    if ops != [] {
      var s1 := Step(s, ops[0]);
      StepConfig(s, ops[0]);
      UnboundedAccepts(s1, ops[1..], t);
      EntriesConcat(Verdicts(s, ops[0], t), Decided(s1, ops[1..], t));
      AcceptedConcat(Verdicts(s, ops[0], t), Decided(s1, ops[1..], t));
    }
  }

  /** A refusal means that queued entries, calls in progress and an entry being taken out fill the queue but for one. */
  lemma RefusedWhenFull(s: State, t: Thread)
    requires Inv(s) && t in s.threads && s.threads[t].Count?
    ensures ThreadStep(s, t).threads[t] == Undo <==>
      s.bounded && |s.queue| + |At(s, Counted)| + InHand(s) + 1 >= s.size
    ensures ThreadStep(s, t).threads[t] == Push(s.threads[t].entry) <==>
      !s.bounded || |s.queue| + |At(s, Counted)| + InHand(s) + 1 < s.size
  {
  }

  // ---- Everything that is enqueued is handled ----

  lemma {:induction false} StepsConcat(s: State, ops: seq<Op>, s1: State, more: seq<Op>)
    requires Steps(s, ops) == Some(s1)
    ensures Steps(s, ops + more) == Steps(s1, more)
    decreases |ops|
  {
    if ops == [] {
      assert ops + more == more;
    } else {
      assert (ops + more)[1..] == ops[1..] + more;
      StepsConcat(Step(s, ops[0]), ops[1..], s1, more);
    }
  }

  lemma {:induction false} QuietIsSteps(s: State, ops: seq<Op>, t: State)
    requires QuietRun(s, ops, t)
    ensures Steps(s, ops) == Some(t)
    decreases |ops|
  {
    if ops != [] { QuietIsSteps(Step(s, ops[0]), ops[1..], t); }
  }

  lemma {:induction false} QuietAsksNothing(s: State, ops: seq<Op>, r: State, t: Thread)
    requires QuietRun(s, ops, r)
    ensures Asked(ops, t) == []
    decreases |ops|
  {
    if ops != [] { QuietAsksNothing(Step(s, ops[0]), ops[1..], r, t); }
  }

  lemma {:induction false} AskedConcat(ops: seq<Op>, more: seq<Op>, t: Thread)
    ensures Asked(ops + more, t) == Asked(ops, t) + Asked(more, t)
    decreases |ops|
  {
    if ops == [] {
      assert ops + more == more;
    } else {
      assert (ops + more)[1..] == ops[1..] + more;
      AskedConcat(ops[1..], more, t);
    }
  }

  /** What holds of a run that has come to rest with everything handled. */
  lemma HandledAtRest(ops: seq<Op>, r: State, bounded: bool, size: nat, maxIterations: nat, t: Thread)
    requires Steps(Init(bounded, size, maxIterations), ops) == Some(r) && r.threads == map[] && r.handled == r.pushed
    ensures var i := Init(bounded, size, maxIterations);
      && r.handled == Pushes(PushLog(i, ops))
      && PushesOf(PushLog(i, ops), t) == Accepted(Decided(i, ops, t))
      && Entries(Decided(i, ops, t)) == Asked(ops, t)
      && (!bounded ==> PushesOf(PushLog(i, ops), t) == Asked(ops, t))
  {
    EnqueuedArePushed(ops, r, bounded, size, maxIterations, t);
    if !bounded { UnboundedAccepts(Init(bounded, size, maxIterations), ops, t); }
  }

  lemma QuietContinues(ops: seq<Op>, s: State, more: seq<Op>, r: State, i: State, t: Thread, all: seq<Op>)
    requires Steps(i, ops) == Some(s) && QuietRun(s, more, r) && all == ops + more
    ensures Steps(i, all) == Some(r) && Asked(all, t) == Asked(ops, t)
  {
    QuietIsSteps(s, more, r);
    StepsConcat(i, ops, s, more);
    AskedConcat(ops, more, t);
    QuietAsksNothing(s, more, r, t);
  }

  /**
   * Once the calls of any run have been left to finish, an enabled queue without a bound has handled every entry
   * that was enqueued exactly once, those of each thread in the order of its calls. A bounded queue has handled
   * exactly the entries it accepted.
   */
  lemma EnqueuedAreHandled(ops: seq<Op>, s: State, more: seq<Op>, r: State,
                           bounded: bool, size: nat, maxIterations: nat, t: Thread, all: seq<Op>)
    requires Steps(Init(bounded, size, maxIterations), ops) == Some(s) && QuietRun(s, more, r)
    requires AtRest(r) && !r.disabled && all == ops + more
    ensures |more| <= Measure(s)
    ensures var i := Init(bounded, size, maxIterations);
      && Steps(i, all) == Some(r)
      && r.handled == Pushes(PushLog(i, all))
      && PushesOf(PushLog(i, all), t) == Accepted(Decided(i, all, t))
      && Entries(Decided(i, all, t)) == Asked(ops, t)
      && (!bounded ==> PushesOf(PushLog(i, all), t) == Asked(ops, t))
  {
    QueueDrains(s, bounded, size, maxIterations, more, r);
    QuietContinues(ops, s, more, r, Init(bounded, size, maxIterations), t, all);
    HandledAtRest(all, r, bounded, size, maxIterations, t);
  }
}
