/** TcpMessageReader: reassembly of messages from read buffers. */
module TcpReader {
  import opened Options
  import opened TcpFraming

  /** memcpy of src behind the first at bytes. */
  method Copy(dst: array<Byte>, at: nat, src: Bytes)
    requires at + |src| <= dst.Length
    modifies dst
    ensures dst[..at + |src|] == old(dst[..at]) + src
  {
    var i := 0;
    while i < |src|
      invariant i <= |src|
      invariant dst[..at + i] == old(dst[..at]) + src[..i]
    {
      dst[at + i] := src[i];
      assert dst[..at + i + 1] == dst[..at + i] + [src[i]];
      assert src[..i + 1] == src[..i] + [src[i]];
      i := i + 1;
    }
    assert src[..i] == src;
  }

  /** 256 or a doubling of such a number. */
  predicate Doubled(n: nat) {
    n == 256 || (n > 256 && n % 2 == 0 && Doubled(n / 2))
  }

  class TcpMessageReader {
    const framing: Framing
    const accept: Bytes -> bool
    var queue: seq<Bytes>
    var offset: nat
    var remain: int
    var delivered: seq<Bytes>

    /** The bytes received and not yet delivered: the queue from offset_ on. */
    ghost function Pending(): Bytes
      reads this
    {
      if queue == [] || |queue[0]| < offset then [] else queue[0][offset..] + Flatten(queue[1..])
    }

    ghost predicate Ok()
      reads this
    {
      && TcpFraming.Valid(framing)
      && (queue == [] ==> offset == 0)
      && (queue != [] ==> offset < |queue[0]|)
      && !Complete(framing, Pending())
      && remain == Missing(framing, Pending())
    }

    constructor (f: Framing, a: Bytes -> bool)
      requires TcpFraming.Valid(f)
      ensures Ok() && framing == f && accept == a && delivered == [] && Pending() == []
    {
      framing, accept, queue, offset, remain, delivered := f, a, [], 0, -1, [];
    }

    /** 256 doubled as often as the message needs: not below the message, and below twice its length. */
    method AllocBufferSize(length: int) returns (size: nat)
      requires length <= framing.max
      ensures length == -1 ==> size == framing.max
      ensures length >= 0 ==> size >= length && Doubled(size) && (size == 256 || size < 2 * length)
    {
      if length == -1 {
        return framing.max;
      }
      size := 256;
      while size < framing.max && size < length
        invariant size > 0 && Doubled(size) && (size == 256 || size < 2 * length)
        decreases framing.max - size
      {
        size := size * 2;
      }
    }

    method QueueByteLength() returns (total: nat)
      requires queue != [] ==> offset < |queue[0]|
      ensures total == |Pending()|
    {
      total := 0;
      var i := 0;
      while i < |queue|
        invariant i <= |queue|
        invariant i == 0 ==> total == 0
        invariant i > 0 ==> total > 0 && total + |Flatten(queue[i..])| == |Pending()|
      {
        assert queue[i..][1..] == queue[i + 1..];
        if total == 0 {
          total := |queue[i]| - offset;
        } else {
          total := total + |queue[i]|;
        }
        i := i + 1;
      }
      assert queue == [] || queue[i..] == [];
    }

    /** What the first i queued buffers hold of the pending bytes. */
    ghost function Taken(i: nat): Bytes
      requires i <= |queue| && (queue != [] ==> offset <= |queue[0]|)
      reads this
    {
      if i == 0 then [] else queue[0][offset..] + Flatten(queue[1..i])
    }

    lemma TakeOne(i: nat)
      requires 0 < i < |queue| && offset <= |queue[0]|
      ensures Taken(i + 1) == Taken(i) + queue[i]
    {
      assert queue[1..i + 1] == queue[1..i] + [queue[i]];
      FlattenAppend(queue[1..i], [queue[i]]);
      assert Flatten([queue[i]]) == queue[i];
    }

    lemma TakeNext(i: nat, cp: Bytes)
      requires i < |queue| && offset <= |queue[0]| && cp == if i == 0 then queue[i][offset..] else queue[i]
      ensures Taken(i + 1) == Taken(i) + cp
    {
      if i > 0 {
        TakeOne(i);
      }
    }

    /** Copies as much of cp as is needed behind the first at bytes. */
    method PullPart(data: array<Byte>, at: nat, cp: Bytes, size: nat, ghost t: Bytes) returns (end: nat)
      requires at == (if |t| < size then |t| else size) && size <= data.Length && data[..at] == t[..at]
      modifies data
      ensures end == (if |t + cp| < size then |t + cp| else size) && data[..end] == (t + cp)[..end]
    {
      var avail := if |cp| < size - at then |cp| else size - at;
      assert at + avail <= size;
      PrefixGrows(t, cp, size, at, avail);
      Copy(data, at, cp[..avail]);
      end := at + avail;
    }

    /** The first size bytes of the pending bytes and the buffer, if there are as many. */
    method PullUp(data: array<Byte>, buffer: Bytes, size: nat) returns (header: Option<Bytes>)
      requires queue != [] && offset < |queue[0]| && 0 < size <= data.Length
      modifies data
      ensures header == if |Pending()| + |buffer| < size then None else Some((Pending() + buffer)[..size])
    {
      var at := 0;
      var i := 0;
      ghost var taken: Bytes := [];
      while i < |queue|
        invariant i <= |queue| && (i == 0 <==> at == 0) && taken == Taken(i)
        invariant at == (if |taken| < size then |taken| else size) && data[..at] == taken[..at]
      {
        var cp := if at == 0 then queue[i][offset..] else queue[i];
        TakeNext(i, cp);
        at := PullPart(data, at, cp, size, taken);
        i, taken := i + 1, taken + cp;
      }
      assert taken == Pending() by {
        assert queue[1..i] == queue[1..];
      }
      at := PullPart(data, at, buffer, size, taken);
      if at < size {
        return None;
      }
      return Some(data[..size]);
    }

    /** Moves the queue and the missing bytes of the buffer into one message. */
    method BufferConcat(data: array<Byte>, buffer: Bytes, msglength: nat)
      requires queue != [] && offset < |queue[0]|
      requires |Pending()| < msglength <= |Pending()| + |buffer| && msglength <= data.Length
      modifies data, this`queue, this`offset, this`remain
      ensures queue == [] && remain == -1
      ensures offset == msglength - |old(Pending())|
      ensures data[..msglength] == old(Pending()) + buffer[..msglength - |old(Pending())|]
    {
      ghost var pending := Pending();
      var dst := 0;
      while queue != []
        invariant queue != [] ==> offset <= |queue[0]|
        invariant 0 <= dst <= |pending| && data[..dst] == pending[..dst] && Pending() == pending[dst..]
        invariant queue == [] ==> remain == -1
        decreases |queue|
      {
        var cp := queue[0][offset..];
        Advance(pending, dst, cp, Flatten(queue[1..]));
        assert dst + |cp| < msglength;
        Copy(data, dst, cp);
        dst := dst + |cp|;
        queue := queue[1..];
        offset := 0;
        remain := -1;
      }
      assert data[..dst] == pending;
      var count := msglength - dst;
      assert dst + count <= msglength;
      Copy(data, dst, buffer[..count]);
      offset := count;
    }

    /** Hands over the messages of the buffer from offset_ on, until one is refused or incomplete. */
    method Scan(buffer: Bytes, ghost p: Parsed) returns (ok: bool, ghost done: seq<Bytes>)
      requires TcpFraming.Valid(framing) && queue == [] && remain == -1 && offset <= |buffer|
      requires ParsedTo(framing, buffer, p, [], offset)
      modifies this`offset, this`remain, this`delivered
      ensures delivered == old(delivered) + done
      ensures !ok ==> done == Accepted(accept, p.messages) && !AllAccepted(accept, p.messages)
      ensures ok ==> AllAccepted(accept, done) && offset <= |buffer| && p == Parsed(done, buffer[offset..])
      ensures ok ==> !Complete(framing, buffer[offset..]) && remain == Missing(framing, buffer[offset..])
    {
      done := [];
      var avail := |buffer| - offset;
      while avail > 0
        invariant remain == -1 && offset + avail == |buffer|
        invariant delivered == old(delivered) + done && AllAccepted(accept, done)
        invariant ParsedTo(framing, buffer, p, done, offset)
      {
        var msglength := MsgLength(framing, buffer, offset);
        if msglength < 0 {
          break;
        }
        if msglength > avail {
          remain := msglength - avail;
          break;
        }
        ok, done := HandOver(buffer, msglength, p, done);
        avail := avail - msglength;
        if !ok {
          return;
        }
      }
      NoMessage(framing, buffer, p, done, offset);
      ok := true;
    }

    /** Hands over the message at offset_. */
    method HandOver(buffer: Bytes, msglength: nat, ghost p: Parsed, ghost done: seq<Bytes>)
      returns (ok: bool, ghost more: seq<Bytes>)
      requires TcpFraming.Valid(framing) && offset <= |buffer| && ParsedTo(framing, buffer, p, done, offset)
      requires msglength == MsgLength(framing, buffer, offset) && offset + msglength <= |buffer|
      requires AllAccepted(accept, done)
      modifies this`offset, this`delivered
      ensures offset == old(offset) + msglength && ParsedTo(framing, buffer, p, more, offset)
      ensures more == done + [buffer[old(offset)..offset]]
      ensures delivered == old(delivered) + [buffer[old(offset)..offset]]
      ensures ok ==> AllAccepted(accept, more)
      ensures !ok ==> more == Accepted(accept, p.messages) && !AllAccepted(accept, p.messages)
    {
      var m := buffer[offset..offset + msglength];
      more := done + [m];
      NextMessage(framing, buffer, p, done, offset, msglength);
      delivered := delivered + [m];
      offset := offset + msglength;
      ok := accept(m);
      if ok {
        AcceptedAppend(accept, done, [m]);
      } else {
        Refuse(accept, done, m, Parse(framing, buffer[offset..]).messages);
      }
    }

    method Deliver(buffer: Bytes) returns (ok: bool)
      requires TcpFraming.Valid(framing) && queue == [] && remain == -1 && offset <= |buffer|
      modifies this
      ensures ok <==> AllAccepted(accept, Parse(framing, buffer[old(offset)..]).messages)
      ensures delivered == old(delivered) + Accepted(accept, Parse(framing, buffer[old(offset)..]).messages)
      ensures ok ==> Ok() && Pending() == Parse(framing, buffer[old(offset)..]).rest
    {
      ghost var p := Parse(framing, buffer[offset..]);
      assert [] + p.messages == p.messages;
      ghost var done;
      ok, done := Scan(buffer, p);
      if ok {
        AllOfAccepted(accept, done);
        Retain(buffer);
      }
    }

    /** Keeps a buffer with bytes that are not delivered, and releases any other. */
    method Retain(buffer: Bytes)
      requires TcpFraming.Valid(framing) && queue == [] && offset <= |buffer| && !Complete(framing, buffer[offset..])
      requires remain == Missing(framing, buffer[offset..])
      modifies this`queue, this`offset
      ensures Ok() && Pending() == buffer[old(offset)..]
    {
      if |buffer| - offset > 0 {
        queue := queue + [buffer];
        assert Pending() == buffer[offset..];
      } else {
        offset := 0;
        assert remain == -1;
      }
    }

    lemma FrontHeader()
      requires Ok() && queue != []
      ensures |Pending()| > 0
      ensures MsgLength(framing, queue[0], offset) >= 0 ==>
        && |Pending()| >= framing.header
        && MsgLength(framing, queue[0], offset) == framing.length(Pending()[..framing.header])
    {
      if |queue[0]| - offset >= framing.header {
        assert Pending()[..framing.header] == queue[0][offset..offset + framing.header];
      }
    }

    /** Another buffer for a message that stays incomplete. */
    method Enqueue(buffer: Bytes)
      requires TcpFraming.Valid(framing) && queue != [] && offset < |queue[0]|
      requires !Complete(framing, Pending() + buffer) && remain == Missing(framing, Pending() + buffer)
      modifies this`queue
      ensures Ok() && Pending() == old(Pending()) + buffer
    {
      FlattenAppend(queue[1..], [buffer]);
      assert (queue + [buffer])[1..] == queue[1..] + [buffer];
      assert Flatten([buffer]) == buffer;
      queue := queue + [buffer];
      assert Pending() == old(Pending()) + buffer;
    }

    /** The length of the message at the front, once the buffer completes its header; remain_ is brought up to date. */
    method FrontLength(buffer: Bytes) returns (msglength: int)
      requires Ok() && queue != []
      modifies this`remain
      ensures |Pending()| + |buffer| < framing.header ==> msglength == -1 && remain == old(remain)
      ensures |Pending()| + |buffer| >= framing.header ==>
        && msglength == framing.length((Pending() + buffer)[..framing.header])
        && remain == msglength - |Pending()| && remain > 0
    {
      msglength := MsgLength(framing, queue[0], offset);
      FrontHeader();
      if msglength < 0 {
        var queuelen := QueueByteLength();
        if queuelen + |buffer| < framing.header {
          return;
        }
        var data := new Byte[framing.header];
        var header := PullUp(data, buffer, framing.header);
        assert header.Some? && |header.value| == framing.header;
        assert header.value[0..0 + framing.header] == header.value;
        msglength := MsgLength(framing, header.value, 0);
        remain := msglength - queuelen;
        if queuelen >= framing.header {
          assert (Pending() + buffer)[..framing.header] == Pending()[..framing.header];
        }
      } else {
        assert (Pending() + buffer)[..framing.header] == Pending()[..framing.header];
      }
    }

    /** Completes the message at the front with bytes of the buffer and hands it over. */
    method Assemble(buffer: Bytes, msglength: nat) returns (ok: bool)
      requires queue != [] && offset < |queue[0]|
      requires |Pending()| < msglength <= |Pending()| + |buffer| && msglength <= framing.max
      modifies this
      ensures queue == [] && remain == -1 && offset <= |buffer|
      ensures (old(Pending()) + buffer)[msglength..] == buffer[offset..]
      ensures delivered == old(delivered) + [(old(Pending()) + buffer)[..msglength]]
      ensures ok == accept((old(Pending()) + buffer)[..msglength])
    {
      var size := AllocBufferSize(msglength);
      var data := new Byte[size];
      BufferConcat(data, buffer, msglength);
      assert remain == -1;
      assert data[..msglength] == (old(Pending()) + buffer)[..msglength];
      delivered := delivered + [data[..msglength]];
      ok := accept(data[..msglength]);
    }

    /**
     * A read: whatever the buffers are, the messages handed over are those of the whole stream, up to the first
     * that is refused, and what is not handed over is pending.
     */
    method OnRead(buffer: Bytes) returns (ok: bool)
      requires Ok()
      modifies this
      ensures ok <==> AllAccepted(accept, Parse(framing, old(Pending()) + buffer).messages)
      ensures delivered == old(delivered) + Accepted(accept, Parse(framing, old(Pending()) + buffer).messages)
      ensures ok ==> Ok() && Pending() == Parse(framing, old(Pending()) + buffer).rest
    {
      ghost var stream := Pending() + buffer;
      if queue == [] {
        assert stream == buffer[offset..];
        ok := Deliver(buffer);
        return;
      }
      var msglength := FrontLength(buffer);
      if msglength < 0 {
        Enqueue(buffer);
        return true;
      }
      assert remain > 0;
      if |buffer| < remain {
        remain := remain - |buffer|;
        Enqueue(buffer);
        return true;
      }
      ParseFirst(framing, accept, stream, msglength);
      Associative(delivered, [stream[..msglength]], Accepted(accept, Parse(framing, stream[msglength..]).messages));
      ok := Assemble(buffer, msglength);
      if !ok {
        return;
      }
      ok := Deliver(buffer);
    }
  }

  /** The reads of a session until a message is refused: the buffer boundaries do not show in what is delivered. */
  method ReadAll(reader: TcpMessageReader, buffers: seq<Bytes>) returns (ok: bool)
    requires reader.Ok()
    modifies reader
    ensures ok <==> AllAccepted(reader.accept, Parse(reader.framing, old(reader.Pending()) + Flatten(buffers)).messages)
    ensures reader.delivered ==
      old(reader.delivered)
      + Accepted(reader.accept, Parse(reader.framing, old(reader.Pending()) + Flatten(buffers)).messages)
    ensures ok ==> reader.Ok()
    ensures ok ==> reader.Pending() == Parse(reader.framing, old(reader.Pending()) + Flatten(buffers)).rest
  {
    ghost var stream := reader.Pending() + Flatten(buffers);
    ghost var read := reader.Pending();
    ghost var done: seq<Bytes> := [];
    var i := 0;
    assert buffers[0..] == buffers;
    while i < |buffers|
      invariant i <= |buffers| && reader.Ok() && read + Flatten(buffers[i..]) == stream
      invariant reader.delivered == old(reader.delivered) + done && AllAccepted(reader.accept, done)
      invariant Parse(reader.framing, read) == Parsed(done, reader.Pending())
    {
      ReadStep(reader.framing, reader.accept, read, buffers[i], done, reader.Pending());
      ghost var q := Parse(reader.framing, reader.Pending() + buffers[i]);
      assert buffers[i..][1..] == buffers[i + 1..];
      Associative(read, buffers[i], Flatten(buffers[i + 1..]));
      Associative(old(reader.delivered), done, q.messages);
      Associative(old(reader.delivered), done, Accepted(reader.accept, q.messages));
      ok := reader.OnRead(buffers[i]);
      read := read + buffers[i];
      i := i + 1;
      if !ok {
        Later(reader.framing, reader.accept, read, Flatten(buffers[i..]));
        return;
      }
      done := done + q.messages;
    }
    assert buffers[i..] == [] && read == stream;
    AllOfAccepted(reader.accept, done);
    ok := true;
  }
}
