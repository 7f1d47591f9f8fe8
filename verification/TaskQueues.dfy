/** Defer queues in the form of the source: lists kept in the order of the first waiting tasks of the entries. */
module TaskQueues {
  import opened Options
  import opened TaskPolicy
  import opened TaskState

  type WaitQueues = map<EntryId, seq<Task>>

  /** GetTaskDeferEntrySeqno: the number of the first waiting task. */
  function Number(w: WaitQueues, e: EntryId): nat {
    if e in w && w[e] != [] then w[e][0].seqno else 0
  }

  ghost predicate Ascending(w: WaitQueues, q: seq<EntryId>) {
    forall i, j {:trigger q[i], q[j]} :: 0 <= i < j < |q| ==> Number(w, q[i]) < Number(w, q[j])
  }

  ghost predicate NoRepeat(q: seq<EntryId>) {
    forall i, j {:trigger q[i], q[j]} :: 0 <= i < j < |q| ==> q[i] != q[j]
  }

  /** The list is in order except for the place of e. */
  ghost predicate AscendingBut(w: WaitQueues, q: seq<EntryId>, e: EntryId) {
    && NoRepeat(q)
    && (forall i, j {:trigger q[i], q[j]} :: 0 <= i < j < |q| && q[i] != e && q[j] != e ==>
          Number(w, q[i]) < Number(w, q[j]))
  }

  function Members(q: seq<EntryId>): set<EntryId> {
    set e | e in q
  }

  lemma InsertAt(w: WaitQueues, q: seq<EntryId>, e: EntryId, i: nat)
    requires Ascending(w, q) && i <= |q|
    requires forall j {:trigger q[j]} :: 0 <= j < i ==> Number(w, q[j]) < Number(w, e)
    requires forall j {:trigger q[j]} :: i <= j < |q| ==> Number(w, e) < Number(w, q[j])
    ensures Ascending(w, q[..i] + [e] + q[i..]) && Members(q[..i] + [e] + q[i..]) == Members(q) + {e}
  {
    var r := q[..i] + [e] + q[i..];
    assert forall j {:trigger r[j]} :: 0 <= j < |r| ==> r[j] == if j < i then q[j] else if j == i then e else q[j - 1];
    assert q == q[..i] + q[i..];
    assert forall f {:trigger f in r} :: f in r <==> f in q || f == e;
  }

  lemma RemoveAt(w: WaitQueues, q: seq<EntryId>, e: EntryId, i: nat)
    requires AscendingBut(w, q, e) && i < |q| && q[i] == e
    ensures Ascending(w, q[..i] + q[i + 1..]) && Members(q[..i] + q[i + 1..]) == Members(q) - {e}
    ensures e !in q[..i] + q[i + 1..]
  {
    var r := q[..i] + q[i + 1..];
    assert forall j {:trigger r[j]} :: 0 <= j < |r| ==> r[j] == if j < i then q[j] else q[j + 1];
    assert forall j {:trigger r[j]} :: 0 <= j < |r| ==> r[j] != e && r[j] in q;
    Without(q, e, i, r);
  }

  lemma Without(q: seq<EntryId>, e: EntryId, i: nat, r: seq<EntryId>)
    requires i < |q| && q[i] == e && r == q[..i] + q[i + 1..] && e !in r
    ensures Members(r) == Members(q) - {e}
  {
    assert q == q[..i] + [e] + q[i + 1..];
    assert forall f {:trigger f in r} :: f in r <==> f in q && f != e;
  }

  lemma AscendingDiffer(w: WaitQueues, q: seq<EntryId>)
    requires Ascending(w, q)
    ensures NoRepeat(q)
  {
  }

  lemma OthersInOrder(w: WaitQueues, v: WaitQueues, q: seq<EntryId>, e: EntryId)
    requires Ascending(w, q) && forall f {:trigger Number(v, f)} :: f != e ==> Number(v, f) == Number(w, f)
    ensures AscendingBut(v, q, e) && (e !in q || Number(v, e) == Number(w, e) ==> Ascending(v, q))
  {
    AscendingDiffer(w, q);
  }

  lemma NotThere(w: WaitQueues, q: seq<EntryId>, e: EntryId)
    requires AscendingBut(w, q, e) && e !in q
    ensures Ascending(w, q)
  {
  }

  /** The first element of the list is the least of the set. */
  lemma FirstIsLeast(s: State, q: seq<EntryId>)
    requires Ascending(s.waitq, q) && DistinctKeys(s, Members(q))
    ensures Least(s, Members(q)) == if q == [] then None else Some(q[0])
  {
    if q == [] {
      assert Members(q) == {};
    } else {
      assert q[0] in Members(q);
      var m := Least(s, Members(q)).value;
      var i :| 0 <= i < |q| && q[i] == m;
      assert Number(s.waitq, q[i]) == Key(s, m) && Number(s.waitq, q[0]) == Key(s, q[0]);
    }
  }

  /** The element behind e in the list is the next of the set. */
  lemma BehindIsNext(s: State, q: seq<EntryId>, i: nat)
    requires Ascending(s.waitq, q) && i < |q| && DistinctKeys(s, Members(q))
    ensures Next(s, Members(q), q[i]) == if i + 1 < |q| then Some(q[i + 1]) else None
  {
    var n := Next(s, Members(q), q[i]);
    AscendingKeys(s, q);
    if i + 1 < |q| { assert q[i + 1] in Members(q); }
    if n.Some? {
      var j :| 0 <= j < |q| && q[j] == n.value;
      assert i < j;
    }
  }

  lemma AscendingKeys(s: State, q: seq<EntryId>)
    requires Ascending(s.waitq, q)
    ensures forall i, j {:trigger q[i], q[j]} :: 0 <= i < j < |q| ==> Key(s, q[i]) < Key(s, q[j])
  {
    forall i, j | 0 <= i < j < |q| ensures Key(s, q[i]) < Key(s, q[j]) {
      assert Number(s.waitq, q[i]) < Number(s.waitq, q[j]);
    }
  }
}
