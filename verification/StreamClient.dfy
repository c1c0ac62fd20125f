/**
 The sending side of the stream, camera or microphone: frame after frame, each in
 three transfers, each waiting for the server's answer.
 */
module StreamClient {
  import opened Framing
  import opened Sockets

  /** A proper prefix of `whole`. */
  ghost predicate CutOff(part: seq<byte>, whole: seq<byte>) {
    exists k :: 0 <= k < |whole| && part == whole[..k]
  }

  lemma CutLater(a: seq<byte>, part: seq<byte>, b: seq<byte>, c: seq<byte>)
    requires CutOff(part, b)
    ensures CutOff(a + part, a + b + c)
  {
    var k :| 0 <= k < |b| && part == b[..k];
    assert (a + b + c)[..|a| + k] == a + part;
  }

  /**
   One of the three transfers of `whole`: `part` has gone out since `start`, and
   `after` is still to follow this piece.
   */
  method SendPiece(sock: Stream, buffer: array<byte>, retries: nat, ghost start: seq<byte>, ghost part: seq<byte>,
                   ghost after: seq<byte>)
    returns (ok: bool, ghost part': seq<byte>)
    requires sock.Valid() && sock.arrived == start + part
    modifies sock
    ensures sock.Valid() && sock.taken == old(sock.taken) && sock.arrived == start + part'
    ensures if ok then part' == part + buffer[..] else CutOff(part', part + buffer[..] + after)
    ensures Tried(old(sock.seen), sock.seen, ok, false)
  {
    ok := SendAll(sock, buffer, buffer.Length, retries, false);
    ghost var sent := buffer[..];
    if !ok {
      ghost var k :| 0 <= k < buffer.Length && sock.arrived == start + part + buffer[..k];
      sent := buffer[..k];
      assert buffer[..][..k] == sent;
      CutLater(part, sent, buffer[..], after);
    }
    part' := part + sent;
    assert start + part + sent == start + (part + sent);
  }

  lemma EncodeParts(kind: byte, body: seq<byte>)
    requires |body| <= INT_MAX
    ensures Encode(Frame(kind, body)) == [] + [kind] + (IntBytes(|body|) + body)
                                      == [kind] + IntBytes(|body|) + body
                                      == [kind] + IntBytes(|body|) + body + []
  {
  }

  /** Type, size and body of one frame; a failure leaves a proper prefix of its encoding. */
  method SendFrame(sock: Stream, f: Frame, retries: nat) returns (ok: bool, ghost part: seq<byte>)
    requires sock.Valid() && Sendable(f)
    modifies sock
    ensures sock.Valid() && sock.taken == old(sock.taken) && sock.arrived == old(sock.arrived) + part
    ensures if ok then part == Encode(f) else CutOff(part, Encode(f))
    ensures Tried(old(sock.seen), sock.seen, ok, false)
  {
    hide CutOff, Encode, IntBytes;
    EncodeParts(f.kind, f.body);
    var len := |f.body|;
    var head := IntBytes(len);
    var type1 := new byte[1](_ => f.kind);
    var size := new byte[4](i requires 0 <= i < 4 => head[i]);
    var body := new byte[len](i requires 0 <= i < len => f.body[i]);
    assert type1[..] == [f.kind] && size[..] == head && body[..] == f.body;
    ghost var start := sock.arrived;
    ok, part := SendPiece(sock, type1, retries, start, [], head + f.body);
    if ok {
      ok, part := SendPiece(sock, size, retries, start, [f.kind], f.body);
    }
    if ok {
      ok, part := SendPiece(sock, body, retries, start, [f.kind] + head, []);
    }
  }

  /** The four bytes of the answer, if `select` and `recv_all` get that far. */
  method AwaitAnswer(sock: Stream, retries: nat) returns (confirmed: bool, ghost answer: seq<byte>)
    requires sock.Valid()
    modifies sock
    ensures sock.Valid() && sock.taken == old(sock.taken) + answer
    ensures |answer| <= 4
    ensures confirmed <==> |answer| == 4 && IntOf(answer) == 1
    ensures Tried(old(sock.seen), sock.seen, |answer| == 4, true)
  {
    answer := [];
    var ready := sock.Poll();
    if !ready {
      return false, [];
    }
    var response := new byte[4](_ => 0);
    var ok := RecvAll(sock, response, 4, retries);
    answer := sock.taken[|old(sock.taken)|..];
    confirmed := ok && IntOf(response[..]) == 1;
    assert ok ==> answer == response[..];
  }

  /** `n` times the answer that confirms a frame. */
  function Confirmations(n: nat): seq<byte> {
    if n == 0 then [] else Confirmations(n - 1) + IntBytes(1)
  }

  lemma {:induction false} EncodeAllAppend(fs: seq<Frame>, f: Frame)
    requires Sendable(f) && forall g :: g in fs ==> Sendable(g)
    ensures EncodeAll(fs + [f]) == EncodeAll(fs) + Encode(f)
  {
    if fs == [] {
      assert EncodeAll([f]) == Encode(f) + EncodeAll([f][1..]);
    } else {
      assert (fs + [f])[1..] == fs[1..] + [f];
      EncodeAllAppend(fs[1..], f);
    }
  }

  /** What a client that started on fresh channels has done. */
  ghost predicate Sent(frames: seq<Frame>, sent: nat, tail: seq<byte>, confirmed: nat, rest: seq<byte>,
                       arrived: seq<byte>, taken: seq<byte>)
  {
    && sent <= |frames| && confirmed <= sent <= confirmed + 1
    && (forall f :: f in frames ==> Sendable(f))
    && arrived == EncodeAll(frames[..sent]) + tail && Unfinished(tail)
    && taken == Confirmations(confirmed) + rest
    && (if sent == confirmed then rest == [] else tail == [] && (|rest| < 4 || (|rest| == 4 && IntOf(rest) != 1)))
  }

  lemma SentNothing(frames: seq<Frame>)
    requires forall f :: f in frames ==> Sendable(f)
    ensures Sent(frames, 0, [], 0, [], [], [])
  {
    assert [] < Encode(Frame(0, []));
  }

  lemma SentPart(frames: seq<Frame>, n: nat, part: seq<byte>, arrived: seq<byte>, taken: seq<byte>)
    requires Sent(frames, n, [], n, [], arrived, taken) && n < |frames| && CutOff(part, Encode(frames[n]))
    ensures Sent(frames, n, part, n, [], arrived + part, taken)
  {
    hide Encode, EncodeAll;
    assert part < Encode(frames[n]);
    assert EncodeAll(frames[..n]) + [] + part == EncodeAll(frames[..n]) + part;
  }

  lemma SentOne(frames: seq<Frame>, n: nat, answer: seq<byte>, arrived: seq<byte>, taken: seq<byte>)
    requires Sent(frames, n, [], n, [], arrived, taken) && n < |frames| && |answer| <= 4
    ensures var arrived', taken' := arrived + Encode(frames[n]), taken + answer;
            if |answer| == 4 && IntOf(answer) == 1 then Sent(frames, n + 1, [], n + 1, [], arrived', taken')
            else Sent(frames, n + 1, [], n, answer, arrived', taken')
  {
    hide Encode, EncodeAll, IntOf;
    EncodeAllAppend(frames[..n], frames[n]);
    assert frames[..n + 1] == frames[..n] + [frames[n]];
    assert EncodeAll(frames[..n]) + [] == EncodeAll(frames[..n]);
    if |answer| == 4 && IntOf(answer) == 1 {
      IntBytesOf(answer);
      assert taken + answer == Confirmations(n + 1) + [];
    }
  }

  lemma SentParses(frames: seq<Frame>, sent: nat, tail: seq<byte>, confirmed: nat, rest: seq<byte>,
                   arrived: seq<byte>, taken: seq<byte>)
    requires Sent(frames, sent, tail, confirmed, rest, arrived, taken)
    ensures sent <= |frames| && Parse(arrived) == Parsed(frames[..sent], tail)
  {
    ParseOfEncoded(frames[..sent], tail);
  }

  /** Why a client stops: a transfer of the frame or of the answer fails, or the answer is not 1. */
  predicate GaveUp(up: seq<Outcome>, down: seq<Outcome>, cutShort: bool, rest: seq<byte>) {
    if cutShort then up != [] && !GoesOn(up[|up| - 1], false)
    else (down != [] && !GoesOn(down[|down| - 1], true)) || (|rest| == 4 && IntOf(rest) != 1)
  }

  /**
   The loop of both clients over whatever is captured: after any outcome the server
   can parse back exactly the frames that went out whole, and the client has taken
   one confirmation for each of them but perhaps the last. It stops early only for a
   failed transfer or a refusal.
   */
  method Client(up: Stream, down: Stream, frames: seq<Frame>, retries: nat)
    returns (sent: nat, confirmed: nat, ghost tail: seq<byte>, ghost rest: seq<byte>)
    requires up != down && up.Valid() && down.Valid() && up.arrived == [] && down.taken == []
    requires forall f :: f in frames ==> Sendable(f)
    modifies up, down
    ensures Sent(frames, sent, tail, confirmed, rest, up.arrived, down.taken)
    ensures sent <= |frames| && Parse(up.arrived) == Parsed(frames[..sent], tail)
    ensures confirmed < |frames| ==> GaveUp(up.seen, down.seen, sent == confirmed, rest)
  {
    hide Encode, EncodeAll, CutOff, IntBytes, IntOf, Sent;
    sent, confirmed, tail, rest := 0, 0, [], [];
    SentNothing(frames);
    while sent < |frames|
      invariant up.Valid() && down.Valid() && sent == confirmed
      invariant Sent(frames, sent, [], confirmed, [], up.arrived, down.taken)
    {
      ghost var before := up.arrived;
      var ok, part := SendFrame(up, frames[sent], retries);
      if !ok {
        tail := part;
        SentPart(frames, sent, part, before, down.taken);
        break;
      }
      ghost var answers := down.taken;
      var answered, answer := AwaitAnswer(down, retries);
      SentOne(frames, sent, answer, before, answers);
      sent := sent + 1;
      if !answered {
        rest := answer;
        break;
      }
      confirmed := confirmed + 1;
    }
    SentParses(frames, sent, tail, confirmed, rest, up.arrived, down.taken);
  }
}
