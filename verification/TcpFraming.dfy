/** Splitting a byte stream into messages by the length in their headers. */
module TcpFraming {
  type Byte = x: int | 0 <= x < 256
  type Bytes = seq<Byte>

  /** GetHeaderLenSize, GetMaxMessageSize, and the length MsgLength reads from a complete header. */
  datatype Framing = Framing(header: nat, max: nat, length: Bytes -> nat)

  ghost predicate Valid(f: Framing) {
    f.header > 0 && forall h: Bytes {:trigger f.length(h)} :: |h| == f.header ==> f.header <= f.length(h) <= f.max
  }

  /** MsgLength; -1 when the header is not complete. */
  function MsgLength(f: Framing, b: Bytes, offset: nat): int
    requires offset <= |b|
  {
    if |b| - offset < f.header then -1 else f.length(b[offset..offset + f.header])
  }

  /** The stream starts with a whole message. */
  predicate Complete(f: Framing, s: Bytes) {
    |s| >= f.header && |s| >= f.length(s[..f.header])
  }

  /** How many bytes of the message are still to come; -1 when its header is not complete. */
  function Missing(f: Framing, s: Bytes): int {
    if |s| < f.header then -1 else f.length(s[..f.header]) - |s|
  }

  datatype Parsed = Parsed(messages: seq<Bytes>, rest: Bytes)

  /** The whole messages at the start of a stream, and the bytes after them. */
  function Parse(f: Framing, s: Bytes): (r: Parsed)
    requires Valid(f)
    ensures !Complete(f, r.rest)
    decreases |s|
  {
    if !Complete(f, s) then Parsed([], s)
    else
      var n := f.length(s[..f.header]);
      var p := Parse(f, s[n..]);
      Parsed([s[..n]] + p.messages, p.rest)
  }

  function Flatten(w: seq<Bytes>): Bytes {
    if w == [] then [] else w[0] + Flatten(w[1..])
  }

  /** One whole message at the front. */
  lemma ParseStep(f: Framing, s: Bytes, n: nat)
    requires Valid(f) && Complete(f, s) && n == f.length(s[..f.header])
    ensures Parse(f, s) == Parsed([s[..n]] + Parse(f, s[n..]).messages, Parse(f, s[n..]).rest)
  {
  }

  predicate WellFramed(f: Framing, m: Bytes) {
    |m| >= f.header && |m| == f.length(m[..f.header])
  }

  /** Parsing loses and invents nothing: messages and rest are the stream, and each message has its own length. */
  lemma {:induction false} ParseSplits(f: Framing, s: Bytes)
    requires Valid(f)
    ensures Flatten(Parse(f, s).messages) + Parse(f, s).rest == s
    ensures forall i {:trigger Parse(f, s).messages[i]} :: 0 <= i < |Parse(f, s).messages| ==>
      WellFramed(f, Parse(f, s).messages[i])
    decreases |s|
  {
    if Complete(f, s) {
      var n := f.length(s[..f.header]);
      ParseStep(f, s, n);
      ParseSplits(f, s[n..]);
      Rejoin(s, n, Parse(f, s[n..]).messages, Parse(f, s[n..]).rest);
      assert s[..n][..f.header] == s[..f.header];
    }
  }

  lemma Rejoin(s: Bytes, n: nat, w: seq<Bytes>, rest: Bytes)
    requires n <= |s| && Flatten(w) + rest == s[n..]
    ensures Flatten([s[..n]] + w) + rest == s
  {
    assert ([s[..n]] + w)[1..] == w;
    Associative(s[..n], Flatten(w), rest);
  }

  /** Bytes that arrive later can be parsed together with what was left over. */
  lemma {:induction false} ParseAppend(f: Framing, s: Bytes, b: Bytes)
    requires Valid(f)
    ensures var p := Parse(f, s); var q := Parse(f, p.rest + b);
      Parse(f, s + b) == Parsed(p.messages + q.messages, q.rest)
    decreases |s|
  {
    var p := Parse(f, s);
    var q := Parse(f, p.rest + b);
    if Complete(f, s) {
      var n := f.length(s[..f.header]);
      assert (s + b)[..f.header] == s[..f.header] && (s + b)[..n] == s[..n] && (s + b)[n..] == s[n..] + b;
      ParseStep(f, s, n);
      ParseStep(f, s + b, n);
      ParseAppend(f, s[n..], b);
      var p1 := Parse(f, s[n..]);
      Associative([s[..n]], p1.messages, q.messages);
    } else {
      assert p.messages + q.messages == q.messages;
    }
  }

  lemma Associative<T>(a: seq<T>, b: seq<T>, c: seq<T>)
    ensures a + (b + c) == (a + b) + c
  {
  }

  lemma FlattenAppend(v: seq<Bytes>, w: seq<Bytes>)
    ensures Flatten(v + w) == Flatten(v) + Flatten(w)
  {
    if v == [] {
      assert v + w == w;
    } else {
      assert (v + w)[1..] == v[1..] + w;
      FlattenAppend(v[1..], w);
      Associative(v[0], Flatten(v[1..]), Flatten(w));
    }
  }

  /** The messages up to the first one the receiver refuses, which it is still given. */
  function Accepted(accept: Bytes -> bool, w: seq<Bytes>): seq<Bytes> {
    if w == [] then [] else if accept(w[0]) then [w[0]] + Accepted(accept, w[1..]) else [w[0]]
  }

  predicate AllAccepted(accept: Bytes -> bool, w: seq<Bytes>) {
    forall i {:trigger w[i]} :: 0 <= i < |w| ==> accept(w[i])
  }

  lemma {:induction false} AcceptedAppend(accept: Bytes -> bool, v: seq<Bytes>, w: seq<Bytes>)
    requires AllAccepted(accept, v)
    ensures Accepted(accept, v + w) == v + Accepted(accept, w)
    ensures AllAccepted(accept, v + w) <==> AllAccepted(accept, w)
    decreases |v|
  {
    if v == [] {
      assert v + w == w;
    } else {
      assert (v + w)[1..] == v[1..] + w;
      AcceptedAppend(accept, v[1..], w);
      assert forall i {:trigger w[i]} :: 0 <= i < |w| ==> (v + w)[|v| + i] == w[i];
    }
  }

  lemma {:induction false} AcceptedStops(accept: Bytes -> bool, v: seq<Bytes>, w: seq<Bytes>)
    requires !AllAccepted(accept, v)
    ensures Accepted(accept, v + w) == Accepted(accept, v) && !AllAccepted(accept, v + w)
    decreases |v|
  {
    assert (v + w)[1..] == v[1..] + w;
    assert forall i {:trigger v[i]} :: 0 <= i < |v| ==> (v + w)[i] == v[i];
    if accept(v[0]) {
      var i :| 0 <= i < |v| && !accept(v[i]);
      assert v[1..][i - 1] == v[i];
      AcceptedStops(accept, v[1..], w);
    }
  }

  lemma AllOfAccepted(accept: Bytes -> bool, w: seq<Bytes>)
    requires AllAccepted(accept, w)
    ensures Accepted(accept, w) == w
  {
    AcceptedAppend(accept, w, []);
    assert w + [] == w;
  }

  lemma PrefixGrows(t: Bytes, c: Bytes, size: nat, at: nat, avail: nat)
    requires at == (if |t| < size then |t| else size)
    requires avail == (if |c| < size - at then |c| else size - at)
    ensures at + avail == (if |t + c| < size then |t + c| else size)
    ensures (t + c)[..at + avail] == t[..at] + c[..avail]
  {
  }

  lemma Refuse(accept: Bytes -> bool, done: seq<Bytes>, m: Bytes, w: seq<Bytes>)
    requires AllAccepted(accept, done) && !accept(m)
    ensures Accepted(accept, done + [m] + w) == done + [m] && !AllAccepted(accept, done + [m] + w)
  {
    Associative(done, [m], w);
    AcceptedAppend(accept, done, [m] + w);
    assert ([m] + w)[0] == m;
  }

  /** Progress of parsing a buffer in place: the messages found so far and the position after them. */
  ghost predicate ParsedTo(f: Framing, b: Bytes, p: Parsed, done: seq<Bytes>, offset: nat)
    requires Valid(f)
  {
    offset <= |b| && p == Parsed(done + Parse(f, b[offset..]).messages, Parse(f, b[offset..]).rest)
  }

  lemma NextMessage(f: Framing, b: Bytes, p: Parsed, done: seq<Bytes>, offset: nat, n: nat)
    requires Valid(f) && ParsedTo(f, b, p, done, offset)
    requires n == MsgLength(f, b, offset) && offset + n <= |b|
    ensures ParsedTo(f, b, p, done + [b[offset..offset + n]], offset + n)
  {
    var s := b[offset..];
    assert s[..f.header] == b[offset..offset + f.header];
    ParseStep(f, s, n);
    assert s[..n] == b[offset..offset + n] && s[n..] == b[offset + n..];
  }

  lemma NoMessage(f: Framing, b: Bytes, p: Parsed, done: seq<Bytes>, offset: nat)
    requires Valid(f) && ParsedTo(f, b, p, done, offset)
    requires MsgLength(f, b, offset) < 0 || offset + MsgLength(f, b, offset) > |b|
    ensures p == Parsed(done, b[offset..]) && !Complete(f, b[offset..])
    ensures |b| - offset >= f.header ==> b[offset..][..f.header] == b[offset..offset + f.header]
  {
    if |b| - offset >= f.header {
      assert b[offset..][..f.header] == b[offset..offset + f.header];
    }
    assert done + [] == done;
  }

  lemma Advance(s: Bytes, at: nat, c: Bytes, later: Bytes)
    requires at <= |s| && s[at..] == c + later
    ensures at + |c| <= |s| && s[..at + |c|] == s[..at] + c && s[at + |c|..] == later
  {
    assert s == s[..at] + (c + later);
  }

  lemma AcceptedCons(accept: Bytes -> bool, m: Bytes, w: seq<Bytes>)
    ensures Accepted(accept, [m] + w) == if accept(m) then [m] + Accepted(accept, w) else [m]
    ensures AllAccepted(accept, [m] + w) <==> accept(m) && AllAccepted(accept, w)
  {
    assert ([m] + w)[1..] == w;
    assert ([m] + w)[0] == m;
    assert forall i {:trigger w[i]} :: 0 <= i < |w| ==> ([m] + w)[i + 1] == w[i];
  }

  lemma ParseFirst(f: Framing, accept: Bytes -> bool, s: Bytes, n: nat)
    requires Valid(f) && Complete(f, s) && n == f.length(s[..f.header])
    ensures AllAccepted(accept, Parse(f, s).messages) <==>
      accept(s[..n]) && AllAccepted(accept, Parse(f, s[n..]).messages)
    ensures Accepted(accept, Parse(f, s).messages)
      == if accept(s[..n]) then [s[..n]] + Accepted(accept, Parse(f, s[n..]).messages) else [s[..n]]
    ensures Parse(f, s).rest == Parse(f, s[n..]).rest
  {
    ParseStep(f, s, n);
    AcceptedCons(accept, s[..n], Parse(f, s[n..]).messages);
  }

  /** One more buffer when everything so far was accepted. */
  lemma ReadStep(f: Framing, accept: Bytes -> bool, s: Bytes, b: Bytes, done: seq<Bytes>, pending: Bytes)
    requires Valid(f) && Parse(f, s) == Parsed(done, pending) && AllAccepted(accept, done)
    ensures var q := Parse(f, pending + b);
      && Parse(f, s + b) == Parsed(done + q.messages, q.rest)
      && Accepted(accept, Parse(f, s + b).messages) == done + Accepted(accept, q.messages)
      && (AllAccepted(accept, Parse(f, s + b).messages) <==> AllAccepted(accept, q.messages))
      && (AllAccepted(accept, q.messages) ==> Accepted(accept, q.messages) == q.messages)
  {
    ParseAppend(f, s, b);
    var q := Parse(f, pending + b);
    AcceptedAppend(accept, done, q.messages);
    if AllAccepted(accept, q.messages) {
      AllOfAccepted(accept, q.messages);
    }
  }

  /** Bytes behind a refused message do not matter. */
  lemma Later(f: Framing, accept: Bytes -> bool, s: Bytes, b: Bytes)
    requires Valid(f) && !AllAccepted(accept, Parse(f, s).messages)
    ensures Accepted(accept, Parse(f, s + b).messages) == Accepted(accept, Parse(f, s).messages)
    ensures !AllAccepted(accept, Parse(f, s + b).messages)
  {
    ParseAppend(f, s, b);
    AcceptedStops(accept, Parse(f, s).messages, Parse(f, Parse(f, s).rest + b).messages);
  }

  // ---- Read buffers ----

  /** What is handed over and what is left when a stream comes in buffers. */
  function Fed(f: Framing, p: Parsed, w: seq<Bytes>): Parsed
    requires Valid(f)
    decreases |w|
  {
    if w == [] then p
    else
      var q := Parse(f, p.rest + w[0]);
      Fed(f, Parsed(p.messages + q.messages, q.rest), w[1..])
  }

  lemma {:induction false} FedIsParse(f: Framing, s: Bytes, w: seq<Bytes>)
    requires Valid(f)
    ensures Fed(f, Parse(f, s), w) == Parse(f, s + Flatten(w))
    decreases |w|
  {
    if w == [] {
      assert s + [] == s;
    } else {
      ParseAppend(f, s, w[0]);
      FedIsParse(f, s + w[0], w[1..]);
      Associative(s, w[0], Flatten(w[1..]));
    }
  }

  /** However a stream is cut into buffers, the same messages come out and the same bytes are left. */
  lemma ChunkingIndependent(f: Framing, v: seq<Bytes>, w: seq<Bytes>)
    requires Valid(f) && Flatten(v) == Flatten(w)
    ensures Fed(f, Parsed([], []), v) == Fed(f, Parsed([], []), w) == Parse(f, Flatten(v))
  {
    var none: Bytes := [];
    FedIsParse(f, none, v);
    FedIsParse(f, none, w);
    assert none + Flatten(v) == Flatten(v);
    assert Parse(f, none) == Parsed([], none);
  }
}
