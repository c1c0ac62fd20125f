/**
 The audio/video server and its clients as one transition system: arbitrary
 fragmentation in both directions, interleaving of clients, disconnection at any
 byte, and descriptor numbers that are used again.
 */
module StreamSystem {
  import opened Framing

  const WIDTH: nat := 640
  const HEIGHT: nat := 480
  const AUDIO_CHUNK: nat := 12288

  /** What a client captures and sends: a camera image or a chunk of samples. */
  predicate Captured(f: Frame) {
    && Sendable(f)
    && ((f.kind == VIDEO_TYPE && |f.body| >= WIDTH * HEIGHT * 2) || (f.kind == AUDIO_TYPE && |f.body| == AUDIO_CHUNK))
  }

  datatype ClientPc = Idle | Sending(f: Frame, k: nat) | Awaiting | Stopped

  /**
   One connection. `sent` are the frames the client has sent completely and `tail`
   the bytes of one it has not; `up` and `down` are the two channels; `got` is what
   the client has read of the current answer; `processed`, `played` and `verdicts` are
   what the server did, whether playing it succeeded, and what it answers.
   */
  datatype Conn = Conn(
    cl: ClientPc, sent: seq<Frame>, tail: seq<byte>, confirmed: nat, got: seq<byte>,
    up: seq<byte>, down: seq<byte>,
    processed: seq<Frame>, played: seq<bool>, verdicts: seq<bool>, acked: nat,
    live: bool)

  /** The server serves one descriptor at a time; its buffer is its own, not the connection's. */
  datatype ServerPc = Waiting | Receiving(fd: nat, acc: seq<byte>) | Answering(fd: nat, left: seq<byte>)

  datatype System = System(conns: map<nat, Conn>, table: map<nat, nat>, server: ServerPc)

  datatype Event =
    | Accept(fd: nat, id: nat)
    | Serve(fd: nat)
    | Recv(n: nat)
    | Process(played: bool)
    | SendAnswer(n: nat)
    | Cleanup
    | Client(id: nat, act: Act)

  datatype Act = Begin(f: Frame) | Send(n: nat) | ReadAnswer(n: nat) | Stop

  // ------------------------------------------------------------------ steps

  function Answer(verdict: bool): (b: seq<byte>)
    ensures |b| == 4
  {
    IntBytes(if verdict then 1 else 0)
  }

  /** Display always succeeds, playback may fail, anything else is refused. */
  function Verdict(f: Frame, played: bool): bool {
    f.kind == VIDEO_TYPE || (f.kind == AUDIO_TYPE && played)
  }

  function Fresh(): Conn {
    Conn(Idle, [], [], 0, [], [], [], [], [], [], 0, true)
  }

  predicate CanAct(c: Conn, act: Act) {
    match act
    case Begin(f) => c.cl.Idle? && Captured(f)
    case Send(n) => c.cl.Sending? && Sendable(c.cl.f) && 1 <= n <= |Encode(c.cl.f)| - c.cl.k
    case ReadAnswer(n) => c.cl.Awaiting? && 1 <= n <= |c.down| && n <= 4 - |c.got|
    case Stop => true
  }

  function ActOf(c: Conn, act: Act): Conn
    requires CanAct(c, act)
  {
    match act
    case Begin(f) => c.(cl := Sending(f, 0))
    case Send(n) =>
      var f, k := c.cl.f, c.cl.k;
      var c' := c.(up := c.up + Encode(f)[k..k + n]);
      if k + n == |Encode(f)| then c'.(cl := Awaiting, sent := c.sent + [f], tail := [])
      else c'.(cl := Sending(f, k + n), tail := Encode(f)[..k + n])
    case ReadAnswer(n) =>
      var c' := c.(got := c.got + c.down[..n], down := c.down[n..]);
      if |c'.got| < 4 then c'
      else if IntOf(c'.got) == 1 then c'.(cl := Idle, got := [], confirmed := c.confirmed + 1)
      else c'.(cl := Stopped)
    case Stop => c.(cl := Stopped)
  }

  /** The connection behind the descriptor that is being served. */
  predicate Busy(s: System) {
    && !s.server.Waiting? && s.server.fd in s.table && s.table[s.server.fd] in s.conns
  }

  function Current(s: System): Conn
    requires Busy(s)
  {
    s.conns[s.table[s.server.fd]]
  }

  function WithCurrent(s: System, c: Conn, pc: ServerPc): System
    requires Busy(s)
  {
    s.(conns := s.conns[s.table[s.server.fd] := c], server := pc)
  }

  predicate Enabled(s: System, e: Event) {
    match e
    case Accept(fd, id) => s.server.Waiting? && fd !in s.table && id !in s.conns
    case Serve(fd) => s.server.Waiting? && fd in s.table
    case Recv(n) => Busy(s) && s.server.Receiving? && 1 <= n <= |Current(s).up| && |s.server.acc| + n <= Need(s.server.acc)
    case Process(_) => Busy(s) && s.server.Receiving? && Complete(s.server.acc)
    case SendAnswer(n) => Busy(s) && s.server.Answering? && 1 <= n <= |s.server.left|
    case Cleanup => Busy(s)
    case Client(id, act) => id in s.conns && CanAct(s.conns[id], act)
  }

  function Apply(s: System, e: Event): System
    requires Enabled(s, e)
  {
    match e
    case Accept(fd, id) => s.(conns := s.conns[id := Fresh()], table := s.table[fd := id])
    case Serve(fd) => s.(server := Receiving(fd, []))
    case Recv(n) =>
      var c := Current(s);
      WithCurrent(s, c.(up := c.up[n..]), Receiving(s.server.fd, s.server.acc + c.up[..n]))
    case Process(played) =>
      var c, f := Current(s), FrameOf(s.server.acc);
      var v := Verdict(f, played);
      WithCurrent(s, c.(processed := c.processed + [f], played := c.played + [played], verdicts := c.verdicts + [v]), Answering(s.server.fd, Answer(v)))
    case SendAnswer(n) =>
      var c, left := Current(s), s.server.left;
      if n == |left| then WithCurrent(s, c.(down := c.down + left, acked := c.acked + 1), Waiting)
      else WithCurrent(s, c.(down := c.down + left[..n]), Answering(s.server.fd, left[n..]))
    case Cleanup =>
      WithCurrent(s, Current(s).(live := false), Waiting).(table := s.table - {s.server.fd})
    case Client(id, act) => s.(conns := s.conns[id := ActOf(s.conns[id], act)])
  }

  function Init(): System {
    System(map[], map[], Waiting)
  }

  predicate Legal(s: System, run: seq<Event>)
    decreases |run|
  {
    run == [] || (Enabled(s, run[0]) && Legal(Apply(s, run[0]), run[1..]))
  }

  function After(s: System, run: seq<Event>): System
    requires Legal(s, run)
    decreases |run|
  {
    if run == [] then s else After(Apply(s, run[0]), run[1..])
  }

  // -------------------------------------------------------------- invariant

  /** The stop-and-wait counts of one connection, and what stands behind them. */
  predicate Counts(c: Conn) {
    && c.confirmed <= c.acked <= |c.processed| <= |c.sent| <= c.confirmed + 1
    && |c.verdicts| == |c.processed| == |c.played| && c.processed <= c.sent
    && (forall i :: 0 <= i < |c.processed| ==> c.verdicts[i] == Verdict(c.processed[i], c.played[i]))
    && (forall i {:trigger c.sent[i]} :: 0 <= i < |c.sent| ==> Captured(c.sent[i]))
    && (forall i :: 0 <= i < c.confirmed ==> c.verdicts[i])
  }

  /** Where the client is and what it has sent of an unfinished frame. */
  ghost predicate ClientOk(c: Conn) {
    && (c.cl.Idle? ==> |c.sent| == c.confirmed && c.tail == [])
    && (c.cl.Sending? ==> |c.sent| == c.confirmed && Captured(c.cl.f) && c.cl.k < |Encode(c.cl.f)|
                          && c.tail == Encode(c.cl.f)[..c.cl.k])
    && (c.cl.Awaiting? ==> |c.sent| == c.confirmed + 1 && |c.got| < 4)
    && (|c.sent| == c.confirmed + 1 ==> c.tail == [])
    && Unfinished(c.tail)
  }

  /** Client to server: what the server holds and what is in flight is what it has not processed. */
  ghost predicate UpOk(c: Conn, acc: seq<byte>)
    requires Counts(c)
  {
    if |c.sent| == |c.processed| then acc + c.up == c.tail
    else acc + c.up == Encode(c.sent[|c.sent| - 1])
  }

  /** Server to client: at most the one answer to the frame that is not confirmed. */
  ghost predicate DownOk(c: Conn, left: seq<byte>)
    requires Counts(c)
  {
    if |c.processed| == c.confirmed then c.got == [] && c.down == [] && left == []
    else
      var answer := Answer(c.verdicts[c.confirmed]);
      && c.got + c.down + left <= answer
      && (c.live || left != [] ==> c.got + c.down + left == answer)
      && (c.acked == c.confirmed + 1 <==> c.got + c.down == answer)
  }

  ghost predicate ConnOk(c: Conn, acc: seq<byte>, left: seq<byte>) {
    Counts(c) && ClientOk(c) && (c.live ==> UpOk(c, acc)) && DownOk(c, left)
  }

  function HeldFor(s: System, id: nat): seq<byte> {
    if s.server.Receiving? && s.server.fd in s.table && s.table[s.server.fd] == id then s.server.acc else []
  }

  function OwedTo(s: System, id: nat): seq<byte> {
    if s.server.Answering? && s.server.fd in s.table && s.table[s.server.fd] == id then s.server.left else []
  }

  /** Descriptors and live connections correspond one to one. */
  ghost predicate TableOk(s: System) {
    && (forall fd :: fd in s.table ==> s.table[fd] in s.conns && s.conns[s.table[fd]].live)
    && (forall a, b :: a in s.table && b in s.table && s.table[a] == s.table[b] ==> a == b)
    && (!s.server.Waiting? ==> s.server.fd in s.table)
    && (s.server.Answering? ==> s.server.left != [])
  }

  ghost predicate Inv(s: System) {
    && TableOk(s)
    && forall id {:trigger s.conns[id]} {:trigger id in s.conns} :: id in s.conns ==>
         ConnOk(s.conns[id], HeldFor(s, id), OwedTo(s, id))
  }

  // ------------------------------------------------- one connection, one step

  lemma BeginKeeps(c: Conn, f: Frame, acc: seq<byte>, left: seq<byte>)
    requires ConnOk(c, acc, left) && CanAct(c, Begin(f))
    ensures ConnOk(ActOf(c, Begin(f)), acc, left)
  {
  }

  lemma SendKeeps(c: Conn, n: nat, acc: seq<byte>, left: seq<byte>)
    requires ConnOk(c, acc, left) && CanAct(c, Send(n))
    ensures ConnOk(ActOf(c, Send(n)), acc, left)
  {
    var f, k, c' := c.cl.f, c.cl.k, ActOf(c, Send(n));
    assert Encode(f)[..k] + Encode(f)[k..k + n] == Encode(f)[..k + n];
    if c.live {
      assert acc + c'.up == (acc + c.up) + Encode(f)[k..k + n] == Encode(f)[..k + n];
    }
    if k + n < |Encode(f)| {
      assert c'.tail < Encode(f);
    } else {
      assert Encode(f)[..k + n] == Encode(f);
      assert [] < Encode(f);
    }
  }

  lemma ReadAnswerKeeps(c: Conn, n: nat, acc: seq<byte>, left: seq<byte>)
    requires ConnOk(c, acc, left) && CanAct(c, ReadAnswer(n))
    ensures ConnOk(ActOf(c, ReadAnswer(n)), acc, left)
  {
    var got := c.got + c.down[..n];
    assert got + c.down[n..] == c.got + c.down;
    IntRoundTrip(0);
    IntRoundTrip(1);
    var answer := Answer(c.verdicts[c.confirmed]);
    if |got| == 4 {
      assert got == answer && c.down[n..] == [] && left == [];
    }
  }

  lemma RecvKeeps(c: Conn, n: nat, acc: seq<byte>)
    requires ConnOk(c, acc, []) && c.live && n <= |c.up|
    ensures ConnOk(c.(up := c.up[n..]), acc + c.up[..n], [])
  {
    assert acc + c.up[..n] + c.up[n..] == acc + c.up;
  }

  /**
   A reception can only be complete when the client has sent the whole frame, and
   then the bytes are that frame and nothing else.
   */
  lemma CompleteIsSent(c: Conn, acc: seq<byte>)
    requires ConnOk(c, acc, []) && c.live && Complete(acc)
    ensures |c.sent| == |c.processed| + 1 && c.up == []
    ensures FrameOf(acc) == c.sent[|c.processed|]
  {
    if |c.sent| == |c.processed| {
      var f :| Sendable(f) && c.tail < Encode(f);
      assert acc <= c.tail;
      PrefixAnnounces(f, acc);
    } else {
      var f := c.sent[|c.sent| - 1];
      assert acc <= Encode(f);
      PrefixAnnounces(f, acc);
      assert acc == Encode(f);
    }
  }

  lemma ProcessKeeps(c: Conn, acc: seq<byte>, played: bool)
    requires ConnOk(c, acc, []) && c.live && Complete(acc)
    ensures var v := Verdict(FrameOf(acc), played);
            ConnOk(c.(processed := c.processed + [FrameOf(acc)], played := c.played + [played], verdicts := c.verdicts + [v]), [], Answer(v))
  {
    CompleteIsSent(c, acc);
    assert c.processed + [FrameOf(acc)] == c.sent;
  }

  lemma SendAnswerKeeps(c: Conn, n: nat, left: seq<byte>)
    requires ConnOk(c, [], left) && 1 <= n <= |left|
    ensures n < |left| ==> ConnOk(c.(down := c.down + left[..n]), [], left[n..])
    ensures n == |left| ==> ConnOk(c.(down := c.down + left, acked := c.acked + 1), [], [])
  {
    assert c.got + (c.down + left[..n]) + left[n..] == c.got + c.down + left;
    assert c.got + (c.down + left) == c.got + c.down + left;
  }

  lemma LossKeeps(c: Conn, acc: seq<byte>, left: seq<byte>)
    requires ConnOk(c, acc, left)
    ensures ConnOk(c.(live := false), [], [])
  {
  }

  lemma FreshOk()
    ensures ConnOk(Fresh(), [], [])
  {
    assert [] < Encode(Frame(0, []));
  }

  lemma ActKeeps(c: Conn, act: Act, acc: seq<byte>, left: seq<byte>)
    requires ConnOk(c, acc, left) && CanAct(c, act)
    ensures ConnOk(ActOf(c, act), acc, left) && ActOf(c, act).live == c.live
  {
    match act
    case Begin(f) => BeginKeeps(c, f, acc, left);
    case Send(n) => SendKeeps(c, n, acc, left);
    case ReadAnswer(n) => ReadAnswerKeeps(c, n, acc, left);
    case Stop =>
  }

  // ------------------------------------------------------- the whole system

  lemma ConnFacts(s: System, id: nat)
    requires Inv(s) && id in s.conns
    ensures ConnOk(s.conns[id], HeldFor(s, id), OwedTo(s, id))
  {
  }

  lemma BusyFacts(s: System)
    requires Inv(s) && !s.server.Waiting?
    ensures Busy(s) && Current(s).live
    ensures ConnOk(Current(s), if s.server.Receiving? then s.server.acc else [], if s.server.Answering? then s.server.left else [])
  {
    ConnFacts(s, s.table[s.server.fd]);
  }

  /** A step that changes the served connection and the server's place. */
  lemma CurrentKeepsInv(s: System, c: Conn, pc: ServerPc)
    requires Inv(s) && Busy(s) && c.live
    requires !pc.Waiting? ==> pc.fd == s.server.fd
    requires pc.Answering? ==> pc.left != []
    requires ConnOk(c, if pc.Receiving? then pc.acc else [], if pc.Answering? then pc.left else [])
    ensures Inv(WithCurrent(s, c, pc))
  {
    hide ConnOk;
    var s' := WithCurrent(s, c, pc);
    forall id | id in s'.conns ensures ConnOk(s'.conns[id], HeldFor(s', id), OwedTo(s', id)) {
      if id != s.table[s.server.fd] {
        ConnFacts(s, id);
      }
    }
  }

  lemma CleanupKeepsInv(s: System)
    requires Inv(s) && Enabled(s, Cleanup)
    ensures Inv(Apply(s, Cleanup))
  {
    BusyFacts(s);
    LossKeeps(Current(s), HeldFor(s, s.table[s.server.fd]), OwedTo(s, s.table[s.server.fd]));
    CleanupRest(s);
  }

  lemma CleanupRest(s: System)
    requires Inv(s) && Enabled(s, Cleanup) && ConnOk(Current(s).(live := false), [], [])
    ensures Inv(Apply(s, Cleanup))
  {
    hide ConnOk;
    var s' := Apply(s, Cleanup);
    forall id | id in s'.conns ensures ConnOk(s'.conns[id], HeldFor(s', id), OwedTo(s', id)) {
      if id != s.table[s.server.fd] {
        ConnFacts(s, id);
      }
    }
  }

  lemma AcceptKeepsInv(s: System, fd: nat, id: nat)
    requires Inv(s) && Enabled(s, Accept(fd, id))
    ensures Inv(Apply(s, Accept(fd, id)))
  {
    hide ConnOk;
    FreshOk();
    var s' := Apply(s, Accept(fd, id));
    forall j | j in s'.conns ensures ConnOk(s'.conns[j], HeldFor(s', j), OwedTo(s', j)) {
      if j != id {
        ConnFacts(s, j);
      }
    }
  }

  lemma ServeKeepsInv(s: System, fd: nat)
    requires Inv(s) && Enabled(s, Serve(fd))
    ensures Inv(Apply(s, Serve(fd)))
  {
    hide ConnOk;
    var s' := Apply(s, Serve(fd));
    forall id | id in s'.conns ensures ConnOk(s'.conns[id], HeldFor(s', id), OwedTo(s', id)) {
      ConnFacts(s, id);
    }
  }

  lemma ClientKeepsInv(s: System, id: nat, act: Act)
    requires Inv(s) && Enabled(s, Client(id, act))
    ensures Inv(Apply(s, Client(id, act)))
  {
    hide ConnOk, ActOf, CanAct;
    ConnFacts(s, id);
    ActKeeps(s.conns[id], act, HeldFor(s, id), OwedTo(s, id));
    var s' := Apply(s, Client(id, act));
    forall j | j in s'.conns ensures ConnOk(s'.conns[j], HeldFor(s', j), OwedTo(s', j)) {
      if j != id {
        ConnFacts(s, j);
      }
    }
  }

  lemma StepKeepsInv(s: System, e: Event)
    requires Inv(s) && Enabled(s, e)
    ensures Inv(Apply(s, e))
  {
    hide Inv, ConnOk, ActOf, Need;
    match e
    case Accept(fd, id) => AcceptKeepsInv(s, fd, id);
    case Serve(fd) => ServeKeepsInv(s, fd);
    case Cleanup => CleanupKeepsInv(s);
    case Client(id, act) => ClientKeepsInv(s, id, act);
    case Recv(n) =>
      BusyFacts(s);
      var c := Current(s);
      RecvKeeps(c, n, s.server.acc);
      CurrentKeepsInv(s, c.(up := c.up[n..]), Receiving(s.server.fd, s.server.acc + c.up[..n]));
    case Process(played) =>
      BusyFacts(s);
      var c, f := Current(s), FrameOf(s.server.acc);
      ProcessKeeps(c, s.server.acc, played);
      CurrentKeepsInv(s, c.(processed := c.processed + [f], played := c.played + [played], verdicts := c.verdicts + [Verdict(f, played)]),
                      Answering(s.server.fd, Answer(Verdict(f, played))));
    case SendAnswer(n) =>
      BusyFacts(s);
      var c, left := Current(s), s.server.left;
      SendAnswerKeeps(c, n, left);
      if n == |left| {
        CurrentKeepsInv(s, c.(down := c.down + left, acked := c.acked + 1), Waiting);
      } else {
        CurrentKeepsInv(s, c.(down := c.down + left[..n]), Answering(s.server.fd, left[n..]));
      }
  }

  lemma {:induction false} RunKeepsInv(s: System, run: seq<Event>)
    requires Inv(s) && Legal(s, run)
    ensures Inv(After(s, run))
    decreases |run|
  {
    hide Inv, Enabled, Apply;
    if run != [] {
      StepKeepsInv(s, run[0]);
      RunKeepsInv(Apply(s, run[0]), run[1..]);
    }
  }

  // --------------------------------------------------------------- theorems

  /**
   End-to-end safety: on every connection of every run, the frames the server has
   processed are a prefix of the frames that very client has completely sent, each
   as it was captured; a partial frame is never among them.
   */
  lemma ProcessedIsPrefixOfSent(run: seq<Event>, id: nat)
    requires Legal(Init(), run) && id in After(Init(), run).conns
    ensures var c := After(Init(), run).conns[id];
            && c.processed <= c.sent
            && forall f :: f in c.processed ==> Captured(f)
  {
    hide Inv, ClientOk, UpOk, DownOk;
    InitInv();
    RunKeepsInv(Init(), run);
    ConnFacts(After(Init(), run), id);
    var c := After(Init(), run).conns[id];
    assert forall i :: 0 <= i < |c.processed| ==> c.processed[i] == c.sent[i];
  }

  /** Nothing the server displays is shorter than the image it reads from it. */
  lemma DisplayedImagesAreWhole(run: seq<Event>, played: bool)
    requires Legal(Init(), run) && Enabled(After(Init(), run), Process(played))
    ensures var s := After(Init(), run);
            var f := FrameOf(s.server.acc);
            && f in Current(s).sent && |Current(s).sent| == |Current(s).processed| + 1
            && (f.kind == 0 ==> |f.body| >= 614400)
            && (f.kind == 0 || f.kind == 1)
  {
    hide ClientOk, UpOk, DownOk, HeldFor, OwedTo;
    InitInv();
    RunKeepsInv(Init(), run);
    var s := After(Init(), run);
    BusyFacts(s);
    CompleteIsSent(Current(s), s.server.acc);
  }

  ghost predicate WithinOneFrame(b: seq<byte>) {
    exists f :: Sendable(f) && b <= Encode(f)
  }

  lemma ChannelsAreShort(c: Conn, acc: seq<byte>, left: seq<byte>)
    requires ConnOk(c, acc, left)
    ensures |c.down| <= 4
    ensures c.live ==> WithinOneFrame(acc + c.up)
  {
    if c.live {
      if |c.sent| == |c.processed| {
        var f :| Sendable(f) && c.tail < Encode(f);
        assert acc + c.up <= Encode(f);
      } else {
        assert acc + c.up <= Encode(c.sent[|c.sent| - 1]);
      }
    }
  }

  /**
   Stop-and-wait: in every reachable state the counts of confirmed, acknowledged,
   processed and sent frames are in this order and at most one apart; a confirmed
   frame was received as sent and accepted; what the server holds and what is in
   flight to it is at most one frame, and what is in flight back at most one answer.
   */
  lemma StopAndWait(run: seq<Event>, id: nat)
    requires Legal(Init(), run) && id in After(Init(), run).conns
    ensures var s := After(Init(), run);
            var c := s.conns[id];
            && c.confirmed <= c.acked <= |c.processed| <= |c.sent| <= c.confirmed + 1
            && |c.verdicts| == |c.processed|
            && (forall i :: 0 <= i < c.confirmed ==> c.processed[i] == c.sent[i] && c.verdicts[i])
            && |c.down| <= 4
            && (c.live ==> WithinOneFrame(HeldFor(s, id) + c.up))
  {
    hide Inv, ClientOk, UpOk, DownOk, Apply, Enabled, WithinOneFrame;
    InitInv();
    RunKeepsInv(Init(), run);
    var s := After(Init(), run);
    ConnFacts(s, id);
    ChannelsAreShort(s.conns[id], HeldFor(s, id), OwedTo(s, id));
  }

  /** The frame was displayed, or it was sound and has really been played. */
  predicate Served(c: Conn, i: nat)
    requires i < |c.processed| && i < |c.played|
  {
    c.processed[i].kind == 0 || (c.processed[i].kind == 1 && c.played[i])
  }

  lemma VerdictIsServed(c: Conn, i: nat)
    requires Counts(c) && i < |c.processed|
    ensures c.verdicts[i] <==> Served(c, i)
  {
  }

  lemma AnswerBytes(v: bool)
    ensures Answer(v) == [if v then 1 else 0, 0, 0, 0] && IntOf(Answer(v)) == if v then 1 else 0
  {
    IntRoundTrip(if v then 1 else 0);
  }

  /** Processing with playback outcome `ok` answers 1 for video, and for audio that was played, and 0 otherwise. */
  lemma ProcessAnswers(s: System, ok: bool)
    requires Enabled(s, Process(ok))
    ensures var f := FrameOf(s.server.acc);
            var s' := Apply(s, Process(ok));
            && Busy(s') && Current(s').processed == Current(s).processed + [f] && Current(s').played == Current(s).played + [ok]
            && s'.server == Answering(s.server.fd, [if f.kind == 0 || (f.kind == 1 && ok) then 1 else 0, 0, 0, 0])
  {
    hide Answer;
    AnswerBytes(Verdict(FrameOf(s.server.acc), ok));
  }

  /**
   Answers are earned: in every reachable state a frame is accepted if and only if it was
   displayed or really played, and every frame the client counts as confirmed was. The
   four bytes under way for the frame not yet confirmed hold 1 in that case and 0
   otherwise, all of them while the connection is open.
   */
  lemma AnswersAreEarned(run: seq<Event>, id: nat)
    requires Legal(Init(), run) && id in After(Init(), run).conns
    ensures var s := After(Init(), run);
            var c := s.conns[id];
            && |c.processed| == |c.played| == |c.verdicts| && c.confirmed <= |c.processed|
            && (forall i :: 0 <= i < |c.processed| ==> (c.verdicts[i] <==> Served(c, i)))
            && (forall i :: 0 <= i < c.confirmed ==> Served(c, i))
            && (c.confirmed < |c.processed| ==>
                  var answer: seq<byte> := [if Served(c, c.confirmed) then 1 else 0, 0, 0, 0];
                  var underway := c.got + c.down + OwedTo(s, id);
                  underway <= answer && (c.live ==> underway == answer))
  {
    hide Inv, ClientOk, UpOk, Verdict, Answer, Enabled, Apply;
    InitInv();
    RunKeepsInv(Init(), run);
    var s := After(Init(), run);
    ConnFacts(s, id);
    var c := s.conns[id];
    forall i | 0 <= i < |c.processed| ensures c.verdicts[i] <==> Served(c, i) {
      VerdictIsServed(c, i);
    }
    if c.confirmed < |c.processed| {
      AnswerBytes(c.verdicts[c.confirmed]);
    }
  }

  /**
   A client that has read its whole answer goes on to the next frame, with one more
   confirmed, if the last one was displayed or really played, and stops if not.
   */
  lemma AnswerDecides(run: seq<Event>, id: nat, n: nat)
    requires Legal(Init(), run) && Enabled(After(Init(), run), Client(id, ReadAnswer(n)))
    requires var c := After(Init(), run).conns[id]; |c.got| + n == 4
    ensures var c := After(Init(), run).conns[id];
            var c' := Apply(After(Init(), run), Client(id, ReadAnswer(n))).conns[id];
            && |c.processed| == |c.played| == |c.sent| == c.confirmed + 1
            && (if Served(c, c.confirmed) then c'.cl.Idle? && c'.confirmed == c.confirmed + 1 && c'.got == []
                else c'.cl.Stopped? && c'.confirmed == c.confirmed)
  {
    hide Inv, UpOk, Verdict, Answer;
    InitInv();
    RunKeepsInv(Init(), run);
    var s := After(Init(), run);
    ConnFacts(s, id);
    var c := s.conns[id];
    VerdictIsServed(c, c.confirmed);
    AnswerBytes(c.verdicts[c.confirmed]);
    assert c.got + c.down[..n] == (c.got + c.down + OwedTo(s, id))[..4];
  }

  lemma InitInv()
    ensures Inv(Init())
  {
  }
}
