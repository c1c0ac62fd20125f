/**
 The frame format of the audio/video stream: one type byte, the size as a 4-byte
 little-endian int, the body; and the 4-byte int that answers each frame.
 */
module Framing {
  type byte = x: int | 0 <= x < 256

  const INT_RANGE: nat := 0x1_0000_0000
  const INT_MAX: nat := 0x7FFF_FFFF
  const HEADER: nat := 5
  const VIDEO_TYPE: byte := 0
  const AUDIO_TYPE: byte := 1

  datatype Frame = Frame(kind: byte, body: seq<byte>)

  /** The body's size fits the int that announces it. */
  predicate Sendable(f: Frame) {
    |f.body| <= INT_MAX
  }

  /** An int as it lies in memory. */
  function IntBytes(n: int): (b: seq<byte>)
    requires 0 <= n <= INT_MAX
    ensures |b| == 4
  {
    [n % 256, n / 256 % 256, n / 65536 % 256, n / 16777216]
  }

  /** The int that four bytes of memory hold. */
  function IntOf(b: seq<byte>): (n: int)
    requires |b| == 4
    ensures -0x8000_0000 <= n <= INT_MAX
  {
    var u: int := b[0] as int + 256 * (b[1] as int + 256 * (b[2] as int + 256 * (b[3] as int)));
    if u > INT_MAX then u - INT_RANGE else u
  }

  /** The host is little-endian: the first byte counts ones, the last 16777216s. */
  lemma IntIsLittleEndian(n: int)
    requires 0 <= n <= INT_MAX
    ensures var b := IntBytes(n);
            n == b[0] as int + 256 * (b[1] as int) + 65536 * (b[2] as int) + 16777216 * (b[3] as int)
  {
    assert n / 65536 == n / 256 / 256 && n / 16777216 == n / 256 / 256 / 256;
  }

  lemma IntRoundTrip(n: int)
    requires 0 <= n <= INT_MAX
    ensures IntOf(IntBytes(n)) == n
  {
    var a, b := n / 256, n / 65536;
    assert n == 256 * a + n % 256;
    assert a == 256 * (a / 256) + a % 256;
    assert a / 256 == b;
    assert b / 256 == n / 16777216;
  }

  lemma SplitByte(a: int, c: int)
    requires 0 <= a < 256 && 0 <= c
    ensures (a + 256 * c) % 256 == a && (a + 256 * c) / 256 == c
  {
  }

  lemma IntBytesOf(b: seq<byte>)
    requires |b| == 4 && IntOf(b) >= 0
    ensures IntBytes(IntOf(b)) == b
  {
    var c3: int := b[3];
    var c2 := b[2] as int + 256 * c3;
    var c1 := b[1] as int + 256 * c2;
    var n := b[0] as int + 256 * c1;
    SplitByte(b[0], c1);
    SplitByte(b[1], c2);
    SplitByte(b[2], c3);
    assert n / 65536 == n / 256 / 256 && n / 16777216 == n / 256 / 256 / 256;
  }

  function Encode(f: Frame): (b: seq<byte>)
    requires Sendable(f)
    ensures |b| == HEADER + |f.body|
  {
    [f.kind] + IntBytes(|f.body|) + f.body
  }

  /** On the wire: the type byte, four bytes of size, then the body. */
  lemma WireFormat(f: Frame)
    requires Sendable(f)
    ensures var b := Encode(f);
            && |b| == 5 + |f.body|
            && b[0] == f.kind
            && b[1] as int + 256 * (b[2] as int) + 65536 * (b[3] as int) + 16777216 * (b[4] as int) == |f.body|
            && b[5..] == f.body
  {
    IntIsLittleEndian(|f.body|);
  }

  /** How many bytes the frame that starts with `b` has, once its header is there. */
  function Announced(b: seq<byte>): int
    requires |b| >= HEADER
  {
    HEADER + IntOf(b[1..HEADER])
  }

  /** Every prefix of a frame that contains the header announces the frame's length. */
  lemma PrefixAnnounces(f: Frame, b: seq<byte>)
    requires Sendable(f) && b <= Encode(f) && |b| >= HEADER
    ensures Announced(b) == |Encode(f)|
  {
    assert b[1..HEADER] == Encode(f)[1..HEADER] == IntBytes(|f.body|);
    IntRoundTrip(|f.body|);
  }

  // -------------------------------------------------------------- reception

  /** Up to where the reception that is under way reads, `b` being what it has. */
  function Need(b: seq<byte>): int {
    if |b| < 1 then 1 else if |b| < HEADER then HEADER else Announced(b)
  }

  predicate Complete(b: seq<byte>) {
    |b| >= HEADER && |b| == Announced(b)
  }

  function FrameOf(b: seq<byte>): Frame
    requires |b| >= HEADER
  {
    Frame(b[0], b[HEADER..])
  }

  /** A reception has not gone past the end of the frame it reads. */
  predicate Bounded(b: seq<byte>) {
    |b| <= HEADER || |b| <= Announced(b)
  }

  /** Reading no more than is needed keeps a reception bounded, and stops exactly at a complete frame. */
  lemma NeedBounds(b: seq<byte>, more: seq<byte>)
    requires Bounded(b) && |b| + |more| <= Need(b)
    ensures Bounded(b + more)
    ensures |b| >= HEADER && |b| == Need(b) <==> Complete(b)
  {
    if |b| >= HEADER {
      assert (b + more)[1..HEADER] == b[1..HEADER];
    }
  }

  /** A reception is complete exactly when it has the encoding of a frame, and then it is that frame. */
  lemma CompleteIsEncoded(b: seq<byte>)
    ensures Complete(b) ==> Sendable(FrameOf(b)) && b == Encode(FrameOf(b))
    ensures forall f :: Sendable(f) && b == Encode(f) ==> Complete(b) && FrameOf(b) == f
  {
    if Complete(b) {
      IntBytesOf(b[1..HEADER]);
      assert b == [b[0]] + b[1..HEADER] + b[HEADER..];
    }
    forall f | Sendable(f) && b == Encode(f) ensures Complete(b) && FrameOf(b) == f {
      PrefixAnnounces(f, b);
    }
  }

  datatype Parsed = Parsed(frames: seq<Frame>, rest: seq<byte>)

  /** The frames a byte sequence consists of, and the bytes of the unfinished one. */
  function Parse(b: seq<byte>): Parsed
    decreases |b|
  {
    if |b| < HEADER || Announced(b) < HEADER || |b| < Announced(b) then Parsed([], b)
    else
      var n := Announced(b);
      var p := Parse(b[n..]);
      Parsed([Frame(b[0], b[HEADER..n])] + p.frames, p.rest)
  }

  function EncodeAll(fs: seq<Frame>): seq<byte>
    requires forall f :: f in fs ==> Sendable(f)
  {
    if fs == [] then [] else Encode(fs[0]) + EncodeAll(fs[1..])
  }

  /** The bytes are the beginning of some frame, not yet all of it. */
  ghost predicate Unfinished(b: seq<byte>) {
    exists f :: Sendable(f) && b < Encode(f)
  }

  lemma ParseFirst(f: Frame, rest: seq<byte>)
    requires Sendable(f)
    ensures Parse(Encode(f) + rest) == Parsed([f] + Parse(rest).frames, Parse(rest).rest)
  {
    var e := Encode(f);
    var b := e + rest;
    PrefixAnnounces(f, e);
    assert b[1..HEADER] == e[1..HEADER];
    assert b[HEADER..|e|] == f.body;
    assert b[|e|..] == rest;
  }

  /**
   Frames that were sent one after the other, with a last one possibly cut short,
   are parsed back exactly: frame boundaries are never lost.
   */
  lemma {:induction false} ParseOfEncoded(fs: seq<Frame>, tail: seq<byte>)
    requires forall f :: f in fs ==> Sendable(f)
    requires Unfinished(tail)
    ensures Parse(EncodeAll(fs) + tail) == Parsed(fs, tail)
  {
    if fs == [] {
      assert EncodeAll(fs) + tail == tail;
      var f :| Sendable(f) && tail < Encode(f);
      if |tail| >= HEADER {
        PrefixAnnounces(f, tail);
      }
    } else {
      assert EncodeAll(fs) + tail == Encode(fs[0]) + (EncodeAll(fs[1..]) + tail);
      ParseFirst(fs[0], EncodeAll(fs[1..]) + tail);
      ParseOfEncoded(fs[1..], tail);
    }
  }

  /** No byte stream can be read as two different frame lists. */
  lemma EncodingIsInjective(fs: seq<Frame>, gs: seq<Frame>)
    requires forall f :: f in fs ==> Sendable(f)
    requires forall g :: g in gs ==> Sendable(g)
    requires EncodeAll(fs) == EncodeAll(gs)
    ensures fs == gs
  {
    var f := Frame(0, [0]);
    assert [] < Encode(f);
    assert Unfinished([]);
    ParseOfEncoded(fs, []);
    ParseOfEncoded(gs, []);
    assert EncodeAll(fs) + [] == EncodeAll(gs) + [];
  }
}
