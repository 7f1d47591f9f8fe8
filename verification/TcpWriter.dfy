/** TcpMessageWriter and the write side of TcpSession: queueing, back-pressure and closing. */
module TcpWriter {
  import opened Options
  import opened TcpFraming

  const MAX_PENDING: nat := 256 * 1024
  const MIN_PENDING: nat := 64 * 1024

  /** The bytes of a write queue that are not written, given how much of its head is. */
  function Unwritten(queue: seq<Bytes>, offset: nat): Bytes
    requires queue != [] ==> offset <= |queue[0]|
  {
    if queue == [] then [] else queue[0][offset..] + Flatten(queue[1..])
  }

  lemma UnwrittenAppend(queue: seq<Bytes>, offset: nat, data: Bytes)
    requires queue != [] ==> offset <= |queue[0]|
    requires queue == [] ==> offset == 0
    ensures Unwritten(queue + [data], offset) == Unwritten(queue, offset) + data
  {
    assert Flatten([data]) == data;
    if queue != [] {
      assert (queue + [data])[1..] == queue[1..] + [data];
      FlattenAppend(queue[1..], [data]);
      Associative(queue[0][offset..], Flatten(queue[1..]), data);
    }
  }

  lemma UnwrittenSize(queue: seq<Bytes>, offset: nat)
    requires queue != [] ==> offset <= |queue[0]|
    requires queue == [] ==> offset == 0
    ensures |Unwritten(queue, offset)| == |Flatten(queue)| - offset
  {
  }

  /** Writing the next bytes of the head takes them from the front of what is not written. */
  lemma UnwrittenAdvance(queue: seq<Bytes>, offset: nat, n: nat)
    requires queue != [] && offset + n <= |queue[0]|
    ensures Unwritten(queue, offset) == queue[0][offset..offset + n] + Unwritten(queue, offset + n)
    ensures offset + n == |queue[0]| ==> Unwritten(queue, offset + n) == Unwritten(queue[1..], 0)
  {
    var head := queue[0];
    assert head[offset..] == head[offset..offset + n] + head[offset + n..];
    Associative(head[offset..offset + n], head[offset + n..], Flatten(queue[1..]));
  }

  /** posted and inflight are the strand's posted AsyncWriteInternal calls and the socket's write in progress. */
  class TcpSession {
    const sendSize: nat
    var queue: seq<Bytes>
    var offset: nat
    var lastWrite: nat
    var blocked: bool
    var closing: bool
    var closed: bool
    var posted: nat
    var inflight: Option<Bytes>
    ghost var accepted: Bytes
    ghost var written: Bytes
    ghost var episodes: nat
    ghost var readies: nat
    ghost var failed: bool

    ghost function Pending(): Bytes
      reads this
      requires queue != [] ==> offset <= |queue[0]|
    {
      Unwritten(queue, offset)
    }

    ghost predicate QueueOk()
      reads this
    {
      && (queue == [] ==> offset == 0)
      && (queue != [] ==> offset <= |queue[0]|)
    }

    /** Bytes written followed by bytes pending are the bytes accepted, in order. */
    ghost predicate Conserved()
      reads this
      requires QueueOk()
    {
      accepted == written + Pending()
    }

    /** How much of the head goes into the next write. */
    function Portion(): nat
      reads this
      requires queue != [] && offset <= |queue[0]|
    {
      if sendSize < |queue[0]| - offset then sendSize else |queue[0]| - offset
    }

    /** The write in progress has sendSize bytes of the head of the queue, or all that is left of it if less. */
    ghost predicate FullWrite()
      reads this
      requires QueueOk()
    {
      && inflight.Some? && queue != []
      && |inflight.value| <= sendSize && |inflight.value| <= |queue[0]| - offset
      && (|inflight.value| == sendSize || |inflight.value| == |queue[0]| - offset)
    }

    /** A non-empty queue has exactly one posted or in-flight write, of the next bytes. */
    ghost predicate WriteOk()
      reads this
      requires QueueOk()
    {
      && posted + (if inflight.Some? then 1 else 0) == (if queue == [] then 0 else 1)
      && (inflight == None ==> lastWrite == 0)
      && (inflight.Some? ==> lastWrite == Portion() && inflight.value == queue[0][offset..offset + lastWrite])
    }

    ghost predicate Throttled()
      reads this
      requires QueueOk()
    {
      && (!blocked ==> |Pending()| <= MAX_PENDING)
      && (blocked ==> |Pending()| >= MIN_PENDING)
      && episodes == readies + (if blocked then 1 else 0)
    }

    /** After a clean close everything that was accepted is written. */
    ghost predicate Ok()
      reads this
    {
      && QueueOk() && Conserved()
      && (!closed ==> WriteOk() && Throttled() && (closing ==> queue != []))
      && (closed && !failed ==> queue == [])
    }

    constructor (size: nat)
      ensures Ok() && !closed && !closing && accepted == [] && sendSize == size && fresh(this)
    {
      sendSize := size;
      queue, offset, lastWrite, blocked, closing, closed, posted, inflight := [], 0, 0, false, false, false, 0, None;
      accepted, written, episodes, readies, failed := [], [], 0, 0, false;
    }

    method GetBufferQueueSize() returns (total: nat)
      ensures total == |Flatten(queue)|
    {
      total := 0;
      var i := 0;
      while i < |queue|
        invariant i <= |queue| && total + |Flatten(queue[i..])| == |Flatten(queue)|
      {
        assert queue[i..][1..] == queue[i + 1..];
        total := total + |queue[i]|;
        i := i + 1;
      }
    }

    /** The data is queued in any case; 0 tells the sender to wait. */
    method AsyncSend(data: Bytes) returns (write: nat)
      requires Ok() && !closed && !closing
      modifies this`queue, this`posted, this`blocked, this`accepted, this`episodes
      ensures Ok() && accepted == old(accepted) + data && written == old(written)
      ensures write == (if |Pending()| > MAX_PENDING then 0 else |data|)
      ensures blocked <==> old(blocked) || |Pending()| > MAX_PENDING
    {
      UnwrittenAppend(queue, offset, data);
      Associative(written, Pending(), data);
      if queue == [] {
        posted := posted + 1;
      }
      queue := queue + [data];
      accepted := accepted + data;
      assert Pending() == Unwritten(old(queue), offset) + data;
      UnwrittenSize(queue, offset);
      var total := GetBufferQueueSize();
      write := |data|;
      if total - offset > MAX_PENDING {
        if !blocked {
          episodes := episodes + 1;
          blocked := true;
        }
        write := 0;
      }
    }

    method TriggerAsyncWrite()
      requires QueueOk() && queue != [] && lastWrite == 0 && inflight == None && posted == 0
      modifies this`lastWrite, this`inflight
      ensures WriteOk() && FullWrite()
    {
      lastWrite := Portion();
      inflight := Some(queue[0][offset..offset + lastWrite]);
    }

    /** Takes the bytes of the completed write from the queue. */
    method Consume()
      requires Ok() && !closed && inflight.Some?
      modifies this`queue, this`offset, this`lastWrite, this`inflight, this`written
      ensures QueueOk() && Conserved() && inflight == None && lastWrite == 0
      ensures written == old(written) + old(inflight.value)
      ensures |Pending()| == |old(Pending())| - |old(inflight.value)|
      ensures |queue| == |old(queue)| - if old(offset) + |old(inflight.value)| == |old(queue[0])| then 1 else 0
    {
      var wrote := lastWrite;
      ghost var later := Unwritten(queue, offset + wrote);
      UnwrittenAdvance(queue, offset, wrote);
      Associative(written, inflight.value, later);
      written := written + inflight.value;
      assert accepted == written + later;
      lastWrite, inflight := 0, None;
      if offset + wrote == |queue[0]| {
        offset := 0;
        queue := queue[1..];
      } else {
        offset := offset + wrote;
      }
    }

    /** The bookkeeping of a write that has completed. */
    method UpdateBufferQueue(wrote: nat) returns (more: bool, sendReady: bool)
      requires Ok() && !closed && inflight.Some? && wrote == |inflight.value|
      modifies this`queue, this`offset, this`lastWrite, this`inflight, this`blocked, this`written, this`readies
      ensures QueueOk() && Conserved() && Throttled() && posted == 0 && inflight == None && lastWrite == 0
      ensures written == old(written) + old(inflight.value)
      ensures more <==> queue != []
      ensures sendReady <==> old(blocked) && |Pending()| < MIN_PENDING
      ensures blocked <==> old(blocked) && !sendReady
      ensures readies == old(readies) + if sendReady then 1 else 0
      ensures |Pending()| == |old(Pending())| - wrote
      ensures |queue| == |old(queue)| - if old(offset) + wrote == |old(queue[0])| then 1 else 0
    {
      assert lastWrite == wrote;
      Consume();
      sendReady := false;
      UnwrittenSize(queue, offset);
      var total := GetBufferQueueSize();
      if blocked && total - offset < MIN_PENDING {
        blocked := false;
        sendReady := true;
        readies := readies + 1;
      }
      more := queue != [];
    }

    /** Nothing is accepted once the session is closed or waits to be closed. */
    method Send(data: Bytes) returns (ok: bool, sent: nat)
      requires Ok()
      modifies this`queue, this`posted, this`blocked, this`accepted, this`episodes
      ensures Ok() && written == old(written)
      ensures accepted == old(accepted) + if closed || closing then [] else data
      ensures closed || closing ==> !ok && sent == 0
      ensures !closed && !closing ==>
        sent == (if |Pending()| > MAX_PENDING then 0 else |data|) && ok == (sent == |data|)
    {
      if closed || closing {
        return false, 0;
      }
      sent := AsyncSend(data);
      ok := sent == |data|;
    }

    /** The posted call runs on the strand. */
    method AsyncWriteInternal()
      requires Ok() && posted > 0
      modifies this`posted, this`lastWrite, this`inflight
      ensures Ok() && posted == old(posted) - 1
      ensures !closed ==> FullWrite()
    {
      posted := posted - 1;
      if closed {
        return;
      }
      TriggerAsyncWrite();
    }

    method CloseInternal(hard: bool)
      requires QueueOk() && Conserved() && (hard || failed || queue == [])
      modifies this`closed, this`closing, this`failed
      ensures Ok() && closed && !closing && failed == (old(failed) || hard)
    {
      closed, closing, failed := true, false, failed || hard;
    }

    /** Close waits for pending writes. */
    method Close()
      requires Ok()
      modifies this`closed, this`closing, this`failed
      ensures Ok() && failed == old(failed)
      ensures !old(closed) ==> closed == (queue == []) && closing == (queue != [])
    {
      if closed {
        return;
      }
      if queue != [] {
        closing := true;
        return;
      }
      CloseInternal(false);
    }

    /**
     * The write in progress ends, without an error, with a soft error or with a hard one. The source asserts that all
     * bytes of the write were written, which a soft error need not mean: the process ends exactly if they were not.
     */
    method AsyncWriteHandler(hard: bool, wrote: nat) returns (ready: bool, aborted: bool)
      requires Ok() && inflight.Some? && wrote <= |inflight.value|
      modifies this
      ensures aborted <==> !hard && !old(closed) && wrote < |old(inflight.value)|
      ensures Ok() && accepted == old(accepted) && failed == (old(failed) || hard) && (aborted ==> unchanged(this))
      ensures !aborted && !old(closed) && !hard ==> written == old(written) + old(inflight.value)
      ensures !aborted && !old(closed) && !hard ==>
        closed == (old(closing) && queue == []) && (!closed ==> closing == old(closing))
      ensures !aborted && !old(closed) && !hard ==> (ready <==> old(blocked) && !blocked && !closed)
      ensures hard || old(closed) ==> !ready && closed && written == old(written)
      ensures !aborted && !old(closed) && !hard ==> |Pending()| == |old(Pending())| - |old(inflight.value)|
      ensures !aborted && !old(closed) && !hard ==>
        |queue| == |old(queue)| - if old(offset) + |old(inflight.value)| == |old(queue[0])| then 1 else 0
    {
      ready, aborted := false, !hard && !closed && lastWrite != wrote;
      if !aborted {
        ready := WriteEnds(hard);
      }
    }

    /** The write in progress ends, with all its bytes written or with a hard error. */
    method WriteEnds(hard: bool) returns (ready: bool)
      requires Ok() && inflight.Some?
      modifies this
      ensures Ok() && accepted == old(accepted) && failed == (old(failed) || hard)
      ensures !old(closed) && !hard ==> written == old(written) + old(inflight.value)
      ensures !old(closed) && !hard ==> closed == (old(closing) && queue == []) && (!closed ==> closing == old(closing))
      ensures !old(closed) && !hard ==> (ready <==> old(blocked) && !blocked && !closed)
      ensures hard || old(closed) ==> !ready && closed && written == old(written)
      ensures !old(closed) && !hard ==> |Pending()| == |old(Pending())| - |old(inflight.value)|
      ensures !old(closed) && !hard ==>
        |queue| == |old(queue)| - if old(offset) + |old(inflight.value)| == |old(queue[0])| then 1 else 0
    {
      ready := false;
      if hard {
        inflight := None;
        CloseInternal(true);
        return;
      }
      if closed {
        inflight := None;
        return;
      }
      var more, sendReady := UpdateBufferQueue(|inflight.value|);
      if more {
        TriggerAsyncWrite();
      } else if closing {
        CloseInternal(false);
        return;
      }
      ready := sendReady;
    }

    /** Without errors the strand and the socket get everything written, whatever the size of the writes. */
    method Flush()
      requires Ok() && !closed && sendSize > 0
      modifies this
      ensures Ok() && queue == [] && written == old(accepted) == accepted
      ensures failed == old(failed) && closed == (old(closing) && old(queue) != [])
      ensures !closed ==> !blocked && episodes == readies
    {
      while !closed && queue != []
        invariant Ok() && accepted == old(accepted) && failed == old(failed)
        invariant !closed ==> closing == old(closing)
        invariant closed ==> old(closing) && queue == [] && old(queue) != []
        invariant queue != [] ==> old(queue) != []
        invariant old(queue) == [] ==> !closed
        decreases if closed then 0 else |Pending()| + |queue|, posted
      {
        if posted > 0 {
          AsyncWriteInternal();
        } else {
          var _, _ := AsyncWriteHandler(false, |inflight.value|);
        }
      }
      assert Pending() == [];
      assert written + [] == written;
    }
  }

  datatype Event = Sent(data: Bytes) | Posted | Wrote(hard: bool, wrote: nat) | Closed | Failed

  /**
   * Any interleaving of sends, closes and what the strand and the socket do, up to a soft error that ends the process;
   * events that cannot happen are skipped.
   */
  method Drive(session: TcpSession, events: seq<Event>) returns (aborted: bool)
    requires session.Ok()
    modifies session
    ensures session.Ok()
    ensures aborted ==> exists i :: 0 <= i < |events| && events[i].Wrote? && !events[i].hard
    ensures !session.failed && session.closed ==> session.written == session.accepted
    ensures session.written <= session.accepted
    ensures old(session.accepted) <= session.accepted
  {
    aborted := false;
    var i := 0;
    while i < |events|
      invariant i <= |events| && !aborted && session.Ok() && old(session.accepted) <= session.accepted
    {
      match events[i] {
        case Sent(data) =>
          var _, _ := session.Send(data);
        case Posted =>
          if session.posted > 0 {
            session.AsyncWriteInternal();
          }
        case Wrote(hard, wrote) =>
          if session.inflight.Some? && wrote <= |session.inflight.value| {
            var ready;
            ready, aborted := session.AsyncWriteHandler(hard, wrote);
            if aborted {
              return;
            }
          }
        case Closed => session.Close();
        case Failed => session.CloseInternal(true);
      }
      i := i + 1;
    }
  }
}
