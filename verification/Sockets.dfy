/**
 The transfer loops over a stream socket: every `send` and `recv` may move any part
 of what was asked for, ask to be retried, or fail.
 */
module Sockets {
  import opened Framing

  /** What one system call on a socket may come back with; `Ready` and `Silent` are answers of `select`. */
  datatype Outcome = Moved(n: nat) | Again | Zero | Failure | Ready | Silent

  /** After these a transfer goes on; after the others it has failed. */
  predicate GoesOn(r: Outcome, zeroFails: bool) {
    r.Moved? || r.Again? || r.Ready? || (r.Zero? && !zeroFails)
  }

  /**
   What has come back since `before`: it went on throughout, or up to the last, which
   ended it. A failure has this reason and no other.
   */
  predicate Tried(before: seq<Outcome>, now: seq<Outcome>, ok: bool, zeroFails: bool) {
    && before <= now
    && (forall j :: |before| <= j < |now| - (if ok then 0 else 1) ==> GoesOn(now[j], zeroFails))
    && (!ok ==> |now| > |before| && !GoesOn(now[|now| - 1], zeroFails))
  }

  predicate MayReturn(r: Outcome, limit: nat, retries: nat) {
    match r
    case Moved(n) => 1 <= n <= limit
    case Again => retries > 0
    case Zero => retries > 0
    case Failure => true
    case _ => false
  }

  /**
   One direction of a connection: a first-in first-out byte queue, the service of
   section 2.2 of RFC 9293. `arrived` and `taken` recall its history, `seen` what the
   calls on this side have come back with.
   */
  class Stream {
    var queue: seq<byte>
    ghost var arrived: seq<byte>
    ghost var taken: seq<byte>
    ghost var seen: seq<Outcome>

    ghost predicate Valid()
      reads this
    {
      arrived == taken + queue
    }

    constructor ()
      ensures Valid() && arrived == [] && taken == [] && seen == []
    {
      queue := [];
      arrived, taken, seen := [], [], [];
    }

    /** The kernel answers a call that may move up to `limit` bytes. */
    method Ask(limit: nat, retries: nat) returns (r: Outcome)
      modifies this`seen
      ensures MayReturn(r, limit, retries) && seen == old(seen) + [r]
    {
      assert MayReturn(Failure, limit, retries);
      r :| MayReturn(r, limit, retries);
      assert MayReturn(r, limit, retries);
      seen := seen + [r];
    }

    /** `select`: there is something to read, or an error or five seconds without anything. */
    method Poll() returns (ready: bool)
      modifies this`seen
      ensures seen == old(seen) + [if ready then Ready else Silent]
    {
      ready :| true;
      seen := seen + [if ready then Ready else Silent];
    }

    method Put(bytes: seq<byte>)
      requires Valid()
      modifies this`queue, this`arrived
      ensures Valid() && arrived == old(arrived) + bytes && taken == old(taken) && queue == old(queue) + bytes
    {
      queue := queue + bytes;
      arrived := arrived + bytes;
    }

    method Get(n: nat) returns (bytes: seq<byte>)
      requires Valid() && n <= |queue|
      modifies this`queue, this`taken
      ensures Valid() && arrived == old(arrived) && taken == old(taken) + bytes
      ensures |bytes| == n && old(queue) == bytes + queue
    {
      bytes := queue[..n];
      queue := queue[n..];
      taken := taken + bytes;
    }

    /** The peer sends, while we wait, whatever it likes. */
    method PeerMaySend()
      requires Valid()
      modifies this`queue, this`arrived
      ensures Valid() && taken == old(taken) && old(arrived) <= arrived
    {
      var more: seq<byte> :| true;
      Put(more);
    }
  }

  /**
   `send_all`: succeeds only when exactly the `len` bytes are in the stream; after a
   failure a proper prefix of them is. The clients take a zero return for no
   progress, the server for a closed connection. `retries` bounds how often the
   kernel asks to be tried again.
   */
  method SendAll(sock: Stream, buffer: array<byte>, len: nat, retries: nat, zeroFails: bool) returns (ok: bool)
    requires sock.Valid() && len <= buffer.Length
    modifies sock
    ensures sock.Valid() && sock.taken == old(sock.taken)
    ensures ok ==> sock.arrived == old(sock.arrived) + buffer[..len]
    ensures !ok ==> exists k :: 0 <= k < len && sock.arrived == old(sock.arrived) + buffer[..k]
    ensures Tried(old(sock.seen), sock.seen, ok, zeroFails)
  {
    var total, left := 0, retries;
    assert sock.arrived == old(sock.arrived) + buffer[..total];
    while total < len
      invariant total <= len && sock.Valid() && sock.taken == old(sock.taken)
      invariant sock.arrived == old(sock.arrived) + buffer[..total]
      invariant Tried(old(sock.seen), sock.seen, true, zeroFails)
      decreases len - total, left
    {
      var r := sock.Ask(len - total, left);
      match r
      case Failure =>
        assert sock.arrived == old(sock.arrived) + buffer[..total];
        return false;
      case Again =>
        left := left - 1;
      case Zero =>
        if zeroFails {
          assert sock.arrived == old(sock.arrived) + buffer[..total];
        return false;
        }
        left := left - 1;
      case Moved(n) =>
        sock.Put(buffer[total..total + n]);
        assert buffer[..total] + buffer[total..total + n] == buffer[..total + n];
        total := total + n;
    }
    return true;
  }

  /**
   `recv_all`: succeeds only when exactly `len` bytes have been taken from the stream
   and lie in the buffer in order; after a failure only a proper prefix was taken.
   */
  method RecvAll(sock: Stream, buffer: array<byte>, len: nat, retries: nat) returns (ok: bool)
    requires sock.Valid() && len <= buffer.Length
    modifies sock, buffer
    ensures sock.Valid() && old(sock.arrived) <= sock.arrived
    ensures ok ==> sock.taken == old(sock.taken) + buffer[..len]
    ensures !ok ==> exists k :: 0 <= k < len && sock.taken == old(sock.taken) + buffer[..k]
    ensures buffer[len..] == old(buffer[len..])
    ensures Tried(old(sock.seen), sock.seen, ok, true)
  {
    var total, left := 0, retries;
    assert sock.taken == old(sock.taken) + buffer[..total];
    while total < len
      invariant total <= len && sock.Valid() && old(sock.arrived) <= sock.arrived
      invariant sock.taken == old(sock.taken) + buffer[..total]
      invariant buffer[len..] == old(buffer[len..])
      invariant Tried(old(sock.seen), sock.seen, true, true)
      decreases len - total, left
    {
      sock.PeerMaySend();
      var limit := if |sock.queue| < len - total then |sock.queue| else len - total;
      var r := sock.Ask(limit, left);
      match r
      case Failure =>
        assert sock.taken == old(sock.taken) + buffer[..total];
        return false;
      case Zero =>
        assert sock.taken == old(sock.taken) + buffer[..total];
        return false;
      case Again =>
        left := left - 1;
      case Moved(n) =>
        var bytes := sock.Get(n);
        ghost var before := buffer[..total];
        forall k | 0 <= k < n {
          buffer[total + k] := bytes[k];
        }
        assert buffer[..total + n] == before + bytes;
        total := total + n;
    }
    return true;
  }

  /**
   The two loops interleaved: in each step either the sender's next `send` puts some of
   its remaining bytes into the stream, or the receiver's next `recv` takes some of what
   is there. Whatever the order and the sizes, the receiver has the first of the
   sender's bytes, and all of them once it has as many.
   */
  method Interleave(wire: Stream, data: seq<byte>, steps: nat) returns (sent: nat, copy: seq<byte>)
    requires wire.Valid() && wire.queue == []
    modifies wire
    ensures wire.Valid() && sent <= |data|
    ensures wire.arrived == old(wire.arrived) + data[..sent] && wire.taken == old(wire.taken) + copy
    ensures copy <= data[..sent] && copy + wire.queue == data[..sent]
    ensures |copy| == |data| ==> copy == data && wire.queue == []
  {
    sent, copy := 0, [];
    var left := steps;
    while left > 0
      invariant wire.Valid() && sent <= |data|
      invariant wire.arrived == old(wire.arrived) + data[..sent] && wire.taken == old(wire.taken) + copy
      invariant copy + wire.queue == data[..sent]
    {
      var sends: bool :| true;
      var n: nat :| n <= if sends then |data| - sent else |wire.queue|;
      if sends {
        assert data[..sent] + data[sent..sent + n] == data[..sent + n];
        wire.Put(data[sent..sent + n]);
        sent := sent + n;
      } else {
        var bytes := wire.Get(n);
        copy := copy + bytes;
      }
      left := left - 1;
    }
  }

  /**
   Sending and then receiving the same number of bytes over a fresh connection is
   the identity, however the two sides fragment the transfer.
   */
  method Transfer(data: array<byte>, retries: nat) returns (ok: bool, copy: array<byte>)
    ensures fresh(copy) && copy.Length == data.Length
    ensures ok ==> copy[..] == data[..]
  {
    var wire := new Stream();
    copy := new byte[data.Length](_ => 0);
    ok := SendAll(wire, data, data.Length, retries, false);
    if ok {
      assert wire.arrived == data[..];
      ok := RecvAll(wire, copy, data.Length, retries);
      assert ok ==> wire.taken == copy[..];
      assert ok ==> copy[..] <= wire.arrived;
    }
  }

  /** How the server's reading of one frame ends. */
  datatype Reception = Received(frame: Frame) | Lost

  /**
   What the server may take for a reception `r`: a whole encoding for a frame it hands
   on; never more than the frame announces; and for a lost one no frame with a body.
   */
  predicate Reads(got: seq<byte>, r: Reception) {
    && Bounded(got)
    && match r
       case Received(f) => Sendable(f) && got == Encode(f) && Complete(got) && FrameOf(got) == f
       case Lost => Complete(got) ==> FrameOf(got).body == []
  }

  /** The header announces more than can be allocated. */
  predicate Refused(got: seq<byte>, memory: nat) {
    |got| == HEADER && !(0 <= IntOf(got[1..]) <= memory)
  }

  /**
   The server's three receptions of one frame; `got` are the bytes it takes, `memory` is
   what an allocation may ask for. A frame is lost only if a call fails, or the body
   cannot be allocated.
   */
  method ReceiveFrame(sock: Stream, memory: nat, retries: nat) returns (r: Reception, ghost got: seq<byte>)
    requires sock.Valid()
    modifies sock
    ensures sock.Valid() && old(sock.arrived) <= sock.arrived && sock.taken == old(sock.taken) + got
    ensures Reads(got, r) && (r.Received? ==> |r.frame.body| <= memory)
    ensures Tried(old(sock.seen), sock.seen, r.Received? || Refused(got, memory), true)
  {
    hide Encode, Complete, FrameOf, Bounded, IntOf, IntBytes, Reads;
    var ok, kind, n, head := ReceiveHeader(sock, retries);
    if !ok || n < 0 || n > memory {
      // no allocation: a negative size asks for more than the address space
      OnlyHeader(head);
      return Lost, head;
    }
    ghost var start := sock.taken;
    var body := new byte[n](_ => 0);
    ok := RecvAll(sock, body, n, retries);
    if ok {
      got := head + body[..];
      r := Received(Frame(kind, body[..]));
      WholeFrame(head, body[..]);
    } else {
      ghost var k :| 0 <= k < n && sock.taken == start + body[..k];
      got := head + body[..k];
      r := Lost;
      assert k == 0 ==> got == head;
      CutShort(head, body[..k]);
    }
  }

  /** Type and size of the next frame. */
  method ReceiveHeader(sock: Stream, retries: nat) returns (ok: bool, kind: byte, n: int, ghost head: seq<byte>)
    requires sock.Valid()
    modifies sock
    ensures sock.Valid() && old(sock.arrived) <= sock.arrived && sock.taken == old(sock.taken) + head
    ensures |head| <= HEADER && (|head| == HEADER ==> ok)
    ensures ok ==> |head| == HEADER && head[0] == kind && IntOf(head[1..]) == n
    ensures Tried(old(sock.seen), sock.seen, ok, true)
  {
    hide IntOf;
    n := 0;
    ghost var start := sock.taken;
    var type1 := new byte[1](_ => 0);
    ok := RecvAll(sock, type1, 1, retries);
    kind := type1[0];
    head := if ok then [kind] else [];
    if ok {
      var size := new byte[4](_ => 0);
      ok := RecvAll(sock, size, 4, retries);
      n := IntOf(size[..]);
      if ok {
        head := [kind] + size[..];
      } else {
        ghost var k :| 0 <= k < 4 && sock.taken == start + [kind] + size[..k];
        head := [kind] + size[..k];
      }
    }
  }

  lemma OnlyHeader(head: seq<byte>)
    requires |head| <= HEADER
    ensures Reads(head, Lost)
  {
  }

  lemma WholeFrame(head: seq<byte>, body: seq<byte>)
    requires |head| == HEADER && IntOf(head[1..]) == |body|
    ensures Reads(head + body, Received(Frame(head[0], body)))
  {
    assert (head + body)[1..HEADER] == head[1..];
    assert (head + body)[HEADER..] == body;
    CompleteIsEncoded(head + body);
  }

  lemma CutShort(head: seq<byte>, part: seq<byte>)
    requires |head| == HEADER && |part| < IntOf(head[1..])
    ensures Reads(head + part, Lost)
  {
    assert (head + part)[1..HEADER] == head[1..];
  }
}
