/**
 What becomes of the texts: the parent handles the first record of each read and
 drops the others, so of the texts a client has sent exactly the oldest of each read
 are handled.
 */
module ChatLedger {
  import opened CStrings
  import opened ChatRecords
  import opened ChatTables
  import opened ChatRefinement
  import opened ChatServer
  import opened ChatSystem
  import opened ChatInvariant
  import opened ChatAwareness
  import opened ChatSimulation
  import opened ChatUpward
  import opened ChatTheorems

  /** The text child `pid` has got into its pipe by this step. */
  function WrittenBy(s: System, e: Event, pid: nat): seq<string> {
    if e == Child(pid, Forward(true)) && pid in s.procs && s.procs[pid].pc.Forwarding? then [s.procs[pid].pc.text] else []
  }

  /** The texts of child `pid` that a read of the parent takes out of the pipe. */
  function BatchOf(s: System, e: Event, pid: nat): seq<string> {
    if e.ReadRecord? && TextWaits(s) && EntryPid(s, s.pc.i) == pid then s.procs[pid].backlog.texts else []
  }

  function Written(s: System, run: seq<Event>, pid: nat): seq<string>
    decreases |run|
  {
    if run == [] then [] else WrittenBy(s, run[0], pid) + Written(Apply(s, run[0]), run[1..], pid)
  }

  /** The reads of the run that found something of child `pid`, each with what it found. */
  function Batches(s: System, run: seq<Event>, pid: nat): (batches: seq<seq<string>>)
    ensures forall b :: b in batches ==> b != []
    decreases |run|
  {
    if run == [] then []
    else
      var b := BatchOf(s, run[0], pid);
      (if b == [] then [] else [b]) + Batches(Apply(s, run[0]), run[1..], pid)
  }

  function Flatten(batches: seq<seq<string>>): seq<string> {
    if batches == [] then [] else batches[0] + Flatten(batches[1..])
  }

  function Oldest(batches: seq<seq<string>>): seq<string> {
    if batches == [] then []
    else (if batches[0] == [] then [] else [batches[0][0]]) + Oldest(batches[1..])
  }

  function Waiting(s: System, pid: nat): seq<string>
    requires pid in s.procs
  {
    s.procs[pid].backlog.texts
  }

  /** The lines handled as coming from `pid`. */
  function Asked(moves: seq<Move>, pid: nat): seq<string> {
    if moves == [] then []
    else (if moves[0].Ask? && moves[0].pid == pid then [moves[0].text] else []) + Asked(moves[1..], pid)
  }

  function FirstLines(pid: nat, texts: seq<string>): seq<string>
    requires |Decimal(pid)| < READ_MAX
  {
    seq(|texts|, i requires 0 <= i < |texts| => FirstLine(pid, texts[i]))
  }

  // ------------------------------------------------------------------- steps

  lemma ReadLedger(cap: nat, s: System, beyond: string, pid: nat)
    requires Sound(cap, s) && Aware(s) && s.pc.Scanning? && ReadFits(s, ReadRecord(beyond)) && pid in s.procs
    ensures pid in DoRead(s, s.pc.i, beyond).procs
    ensures Waiting(s, pid) == BatchOf(s, ReadRecord(beyond), pid) + Waiting(DoRead(s, s.pc.i, beyond), pid)
  {
    hide TableOk, PipesPart, PlanPart, ChildrenAware, Introduced, WriterOf, DoRead;
    var i := s.pc.i;
    if i < |s.tables.entries| {
      EndsOfSlot(s, i);
      TextsAndBytes(cap, s, EntryPid(s, i));
      PidShort(s, i);
    }
    if TextWaits(s) {
      TextTaken(cap, s, beyond);
    } else {
      NoTextTaken(s, i, beyond);
    }
  }

  lemma TextTaken(cap: nat, s: System, beyond: string)
    requires Sound(cap, s) && Aware(s) && TextWaits(s) && s.procs[EntryPid(s, s.pc.i)].up != ""
    requires WriterOf(s, s.pc.i) == Some(EntryPid(s, s.pc.i)) && ReadFits(s, ReadRecord(beyond))
    ensures var p := EntryPid(s, s.pc.i);
            DoRead(s, s.pc.i, beyond).procs == s.procs[p := s.procs[p].(up := "", backlog := NOTHING_UNREAD)]
  {
    hide Handle, TableOk, PipesPart, PlanPart, Aware, DoRead, Drain, WriterOf;
    var out := ReadOutcome(cap, s, s.pc.i, beyond);
    DrainEmpties(cap, s, EntryPid(s, s.pc.i));
  }

  lemma NoTextTaken(s: System, i: nat, beyond: string)
    requires i < |s.tables.entries| ==> var q := WriterOf(s, i); q.Some? && s.procs[q.value].up == ""
    ensures DoRead(s, i, beyond).procs == s.procs
  {
    hide WriterOf, Drain, TakeRecord;
  }

  lemma PidShort(s: System, i: nat)
    requires TableOk(s) && i < |s.tables.entries|
    ensures |Decimal(EntryPid(s, i))| < READ_MAX
  {
    hide OwnsExactly, DistinctPids, Pids;
    PidLength(EntryPid(s, i));
  }

  lemma ChildLedger(cap: nat, s: System, pid: nat, act: Act, p: nat)
    requires Enabled(cap, s, Child(pid, act)) && p in s.procs
    ensures Waiting(s, p) + WrittenBy(s, Child(pid, act), p) == Waiting(DoChild(s, pid, act), p)
  {
    hide Record, IsMessage;
  }

  /** Every step keeps the account: what waited and what was written is what was read and what waits. */
  lemma StepLedger(cap: nat, s: System, e: Event, pid: nat)
    requires Sound(cap, s) && Aware(s) && Enabled(cap, s, e) && ReadFits(s, e)
    requires Running(s) && Running(Apply(s, e)) && pid in s.procs && e != Reap(pid)
    ensures pid in Apply(s, e).procs
    ensures Waiting(s, pid) + WrittenBy(s, e, pid) == BatchOf(s, e, pid) + Waiting(Apply(s, e), pid)
  {
    hide Sound, Aware, ReadFits, DoRead, DoWrite, DoKill, DoChild, DoCloseEntry, CanAct, ReaderOf, TextWaits;
    match e
    case ReadRecord(beyond) => ReadLedger(cap, s, beyond, pid);
    case Child(p, act) => ChildLedger(cap, s, p, act, pid);
    case WritePost(ok) => WriteLedger(s, s.pc.i, s.pc.todo, ok, pid);
    case SignalChild => KillLedger(s, s.pc.i, s.pc.pid, s.pc.todo, pid);
    case Admit(p, toFd, fromFd) => AdmitLedger(s, p, toFd, fromFd, pid);
    case _ =>
  }

  lemma WriteLedger(s: System, i: nat, todo: seq<Post>, ok: bool, pid: nat)
    requires pid in s.procs
    ensures Waiting(DoWrite(s, i, todo, ok), pid) == Waiting(s, pid)
  {
    hide ReaderOf;
  }

  lemma KillLedger(s: System, i: nat, to: nat, todo: seq<Post>, pid: nat)
    requires pid in s.procs
    ensures Waiting(DoKill(s, i, to, todo), pid) == Waiting(s, pid)
  {
  }

  lemma AdmitLedger(s: System, p: nat, toFd: int, fromFd: int, pid: nat)
    requires pid in s.procs && p !in s.procs
    ensures pid in DoAdmit(s, p, toFd, fromFd).procs && Waiting(DoAdmit(s, p, toFd, fromFd), pid) == Waiting(s, pid)
    ensures DoAdmit(s, p, toFd, fromFd).procs[pid] == s.procs[pid]
  {
  }

  lemma AskedIsOldest(s: System, e: Event, pid: nat)
    requires |Decimal(pid)| < READ_MAX
    ensures var m := MoveOf(s, e);
            var b := BatchOf(s, e, pid);
            if m.Ask? && m.pid == pid then b != [] && m.text == FirstLine(pid, b[0]) else b == []
  {
    hide FirstLine;
  }

  // -------------------------------------------------------------------- runs

  /**
   The account of one client over a run: the texts that waited and those written since
   are, in order, those the reads have taken out and those that wait now; and the
   lines handled are those of the oldest text of each read, no others.
   */
  lemma {:induction false} LedgerFrom(cap: nat, s: System, run: seq<Event>, pid: nat)
    requires Sound(cap, s) && Aware(s) && Legal(cap, s, run) && Attentive(s, run) && Running(After(s, run))
    requires pid in s.procs && Reap(pid) !in run && |Decimal(pid)| < READ_MAX
    ensures pid in After(s, run).procs
    ensures Waiting(s, pid) + Written(s, run, pid) == Flatten(Batches(s, run, pid)) + Waiting(After(s, run), pid)
    ensures Asked(Moves(s, run), pid) == FirstLines(pid, Oldest(Batches(s, run, pid)))
    decreases |run|
  {
    hide Sound, Aware, Enabled, Apply, ReadFits, Running, WrittenBy, BatchOf, MoveOf, FirstLine;
    if run != [] {
      var m, rest := Apply(s, run[0]), run[1..];
      RanBefore(cap, s, run);
      StepLedger(cap, s, run[0], pid);
      StepKeepsSound(cap, s, run[0]);
      StepKeepsAware(cap, s, run[0]);
      LedgerFrom(cap, m, rest, pid);
      AskedIsOldest(s, run[0], pid);
      var b, later := BatchOf(s, run[0], pid), Batches(m, rest, pid);
      FlattenOne(b, later);
      OldestOne(pid, b, later);
      assert Moves(s, run)[0] == MoveOf(s, run[0]) && Moves(s, run)[1..] == Moves(m, rest);
      Regroup(Waiting(s, pid), WrittenBy(s, run[0], pid), Written(m, rest, pid), b, Waiting(m, pid), Flatten(later),
              Waiting(After(m, rest), pid));
    }
  }

  lemma Regroup(w: seq<string>, x: seq<string>, y: seq<string>, b: seq<string>, w': seq<string>, f: seq<string>, z: seq<string>)
    requires w + x == b + w' && w' + y == f + z
    ensures w + (x + y) == (b + f) + z
  {
    assert w + (x + y) == (w + x) + y == b + (w' + y);
  }

  lemma FlattenOne(b: seq<string>, later: seq<seq<string>>)
    ensures Flatten((if b == [] then [] else [b]) + later) == b + Flatten(later)
  {
    if b == [] {
      assert [] + later == later;
    } else {
      assert ([b] + later)[1..] == later;
    }
  }

  lemma OldestOne(pid: nat, b: seq<string>, later: seq<seq<string>>)
    requires |Decimal(pid)| < READ_MAX
    ensures FirstLines(pid, Oldest((if b == [] then [] else [b]) + later))
            == (if b == [] then [] else [FirstLine(pid, b[0])]) + FirstLines(pid, Oldest(later))
  {
    hide FirstLine, FirstLines, Oldest;
    if b == [] {
      assert [] + later == later;
      assert [] + FirstLines(pid, Oldest(later)) == FirstLines(pid, Oldest(later));
    } else {
      OldestCons(b, later);
      FirstLinesCons(pid, b[0], Oldest(later));
    }
  }

  lemma OldestCons(b: seq<string>, later: seq<seq<string>>)
    requires b != []
    ensures Oldest([b] + later) == [b[0]] + Oldest(later)
  {
    assert ([b] + later)[1..] == later;
  }

  lemma FirstLinesCons(pid: nat, text: string, texts: seq<string>)
    requires |Decimal(pid)| < READ_MAX
    ensures FirstLines(pid, [text] + texts) == [FirstLine(pid, text)] + FirstLines(pid, texts)
  {
    hide FirstLine;
  }

  lemma RanBefore(cap: nat, s: System, run: seq<Event>)
    requires Legal(cap, s, run) && run != [] && Running(After(s, run))
    ensures Running(s) && Running(Apply(s, run[0]))
  {
    hide Enabled, Apply, Running;
    if !Running(s) {
      StoppedStays(cap, s, run);
    }
    if !Running(Apply(s, run[0])) {
      StoppedStays(cap, Apply(s, run[0]), run[1..]);
    }
  }

  // ------------------------------------------------------------ nothing lost

  /** No read of the run finds more than one text of child `pid`. */
  predicate OneAtATime(s: System, run: seq<Event>, pid: nat)
    decreases |run|
  {
    run == [] || (|BatchOf(s, run[0], pid)| <= 1 && OneAtATime(Apply(s, run[0]), run[1..], pid))
  }

  lemma {:induction false} SinglesOnly(batches: seq<seq<string>>)
    requires forall b :: b in batches ==> b != []
    ensures |Flatten(batches)| >= |Oldest(batches)|
    ensures |Flatten(batches)| == |Oldest(batches)| <==> forall b :: b in batches ==> |b| == 1
    ensures (forall b :: b in batches ==> |b| == 1) ==> Flatten(batches) == Oldest(batches)
  {
    if batches != [] {
      var b, rest := batches[0], batches[1..];
      assert batches == [b] + rest;
      assert forall c :: c in batches <==> c == b || c in rest;
      SinglesOnly(rest);
      if |b| == 1 {
        assert b == [b[0]];
      }
    }
  }

  lemma {:induction false} SinglesOfRun(s: System, run: seq<Event>, pid: nat)
    ensures OneAtATime(s, run, pid) <==> forall b :: b in Batches(s, run, pid) ==> |b| == 1
    decreases |run|
  {
    hide Apply, BatchOf;
    if run != [] {
      var b, later := BatchOf(s, run[0], pid), Batches(Apply(s, run[0]), run[1..], pid);
      SinglesOfRun(Apply(s, run[0]), run[1..], pid);
      assert forall c :: c in Batches(s, run, pid) <==> (c == b && b != []) || c in later;
    }
  }

  lemma SameLines(pid: nat, some: seq<string>, all: seq<string>)
    requires |Decimal(pid)| < READ_MAX && |some| < |all|
    ensures FirstLines(pid, some) != FirstLines(pid, all)
  {
    hide FirstLine;
    assert |FirstLines(pid, some)| < |FirstLines(pid, all)|;
  }

  /**
   Over a run the parent handles every text it reads of a client if and only if no read
   finds more than one text of that client.
   */
  lemma HandledAllIff(cap: nat, s: System, run: seq<Event>, pid: nat)
    requires Sound(cap, s) && Aware(s) && Legal(cap, s, run) && Attentive(s, run) && Running(After(s, run))
    requires pid in s.procs && Reap(pid) !in run && |Decimal(pid)| < READ_MAX
    ensures Asked(Moves(s, run), pid) == FirstLines(pid, Flatten(Batches(s, run, pid))) <==> OneAtATime(s, run, pid)
  {
    hide Sound, Aware, Legal, Attentive, Running, FirstLines, Asked, Moves;
    var batches := Batches(s, run, pid);
    LedgerFrom(cap, s, run, pid);
    SinglesOfRun(s, run, pid);
    SinglesOnly(batches);
    if !OneAtATime(s, run, pid) {
      SameLines(pid, Oldest(batches), Flatten(batches));
    }
  }

  /** No write of child `pid` succeeds while an earlier text of its client is unread. */
  predicate NeverPilesUp(s: System, run: seq<Event>, pid: nat)
    decreases |run|
  {
    run == [] || ((pid in s.procs && WrittenBy(s, run[0], pid) != [] ==> Waiting(s, pid) == [])
                  && NeverPilesUp(Apply(s, run[0]), run[1..], pid))
  }

  /** Where two texts wait, either a read finds both of them or they wait to the end. */
  lemma {:induction false} PiledUp(cap: nat, s: System, run: seq<Event>, pid: nat)
    requires Sound(cap, s) && Aware(s) && Legal(cap, s, run) && Attentive(s, run) && Running(After(s, run))
    requires pid in s.procs && Reap(pid) !in run && |Waiting(s, pid)| > 1
    ensures pid in After(s, run).procs
    ensures !(OneAtATime(s, run, pid) && |Waiting(After(s, run), pid)| <= 1)
    decreases |run|
  {
    hide Sound, Aware, Enabled, Apply, ReadFits, Running, WrittenBy, BatchOf;
    if run != [] {
      RanBefore(cap, s, run);
      StepLedger(cap, s, run[0], pid);
      StepKeepsSound(cap, s, run[0]);
      StepKeepsAware(cap, s, run[0]);
      BatchIsAll(s, run[0], pid);
      if BatchOf(s, run[0], pid) == [] {
        PiledUp(cap, Apply(s, run[0]), run[1..], pid);
      } else {
        StillThere(cap, Apply(s, run[0]), run[1..], pid);
      }
    }
  }

  /** A read that finds something of the child takes all that waits. */
  lemma BatchIsAll(s: System, e: Event, pid: nat)
    requires pid in s.procs
    ensures BatchOf(s, e, pid) == [] || BatchOf(s, e, pid) == Waiting(s, pid)
    ensures BatchOf(s, e, pid) == [] || WrittenBy(s, e, pid) == []
    ensures |WrittenBy(s, e, pid)| <= 1
  {
  }

  lemma {:induction false} StillThere(cap: nat, s: System, run: seq<Event>, pid: nat)
    requires Sound(cap, s) && Aware(s) && Legal(cap, s, run) && Attentive(s, run) && Running(After(s, run))
    requires pid in s.procs && Reap(pid) !in run
    ensures pid in After(s, run).procs
    decreases |run|
  {
    hide Sound, Aware, Enabled, Apply, ReadFits, Running, WrittenBy, BatchOf;
    if run != [] {
      RanBefore(cap, s, run);
      StepLedger(cap, s, run[0], pid);
      StepKeepsSound(cap, s, run[0]);
      StepKeepsAware(cap, s, run[0]);
      StillThere(cap, Apply(s, run[0]), run[1..], pid);
    }
  }

  /**
   The same by the order of events: every read finds one text, and at most one is left
   waiting, if and only if the child never writes while an earlier text is unread.
   */
  lemma {:induction false} OneAtATimeByOrder(cap: nat, s: System, run: seq<Event>, pid: nat)
    requires Sound(cap, s) && Aware(s) && Legal(cap, s, run) && Attentive(s, run) && Running(After(s, run))
    requires pid in s.procs && Reap(pid) !in run && |Waiting(s, pid)| <= 1
    ensures pid in After(s, run).procs
    ensures OneAtATime(s, run, pid) && |Waiting(After(s, run), pid)| <= 1 <==> NeverPilesUp(s, run, pid)
    decreases |run|
  {
    hide Sound, Aware, Enabled, Apply, ReadFits, Running, WrittenBy, BatchOf;
    if run != [] {
      var m := Apply(s, run[0]);
      RanBefore(cap, s, run);
      StepLedger(cap, s, run[0], pid);
      StepKeepsSound(cap, s, run[0]);
      StepKeepsAware(cap, s, run[0]);
      BatchIsAll(s, run[0], pid);
      if |Waiting(m, pid)| <= 1 {
        OneAtATimeByOrder(cap, m, run[1..], pid);
      } else {
        PiledUp(cap, m, run[1..], pid);
      }
    }
  }

  // ------------------------------------------------ what the client has said

  /** The texts delivered by a run, read off its events alone: each is what the client said last. */
  function Delivered(run: seq<Event>, said: string, pid: nat): seq<string>
    decreases |run|
  {
    if run == [] then []
    else if run[0].Child? && run[0].pid == pid && run[0].act.ClientSends? then Delivered(run[1..], run[0].act.text, pid)
    else (if run[0] == Child(pid, Forward(true)) then [said] else []) + Delivered(run[1..], said, pid)
  }

  /** The child carries nothing, or this text. */
  predicate Carries(s: System, pid: nat, said: string) {
    pid in s.procs && (s.procs[pid].pc.Telling? || s.procs[pid].pc.Forwarding? ==> s.procs[pid].pc.text == said)
  }

  lemma StepCarries(cap: nat, s: System, e: Event, pid: nat, said: string)
    requires Sound(cap, s) && Enabled(cap, s, e) && Running(s) && Running(Apply(s, e)) && e != Reap(pid)
    requires Carries(s, pid, said)
    ensures var now := if e.Child? && e.pid == pid && e.act.ClientSends? then e.act.text else said;
            Carries(Apply(s, e), pid, now)
    ensures WrittenBy(s, e, pid) == if e == Child(pid, Forward(true)) then [said] else []
  {
    hide Sound, DoRead, DoWrite, DoKill, DoChild, DoCloseEntry, DoAdmit, DoReap, CanAct, ReaderOf, FindsBytes, Record, ActOf;
    PidStays(cap, s, e, pid);
    match e
    case ReadRecord(beyond) => ReadKeepsPlace(s, s.pc.i, beyond, pid);
    case Child(p, act) => ChildCarries(cap, s, p, act, pid, said);
    case Admit(p, toFd, fromFd) => AdmitLedger(s, p, toFd, fromFd, pid);
    case WritePost(ok) => WriteKeepsPlace(s, s.pc.i, s.pc.todo, ok, pid);
    case SignalChild => KillKeepsPlace(s, s.pc.i, s.pc.pid, s.pc.todo, pid);
    case _ =>
  }

  lemma ChildCarries(cap: nat, s: System, p: nat, act: Act, pid: nat, said: string)
    requires Enabled(cap, s, Child(p, act)) && Carries(s, pid, said)
    ensures Carries(DoChild(s, p, act), pid, if p == pid && act.ClientSends? then act.text else said)
    ensures WrittenBy(s, Child(p, act), pid) == if p == pid && act == Forward(true) then [said] else []
  {
    hide DoChild, Record, IsMessage;
    ChildIs(s, p, act);
  }

  lemma ReadKeepsPlace(s: System, i: nat, beyond: string, pid: nat)
    requires pid in s.procs && pid in DoRead(s, i, beyond).procs
    ensures DoRead(s, i, beyond).procs[pid].pc == s.procs[pid].pc
  {
    hide DoRead, Drain, WriterOf;
    if FindsBytes(s, i) {
      DrainsOne(s, WriterOf(s, i).value);
    }
  }

  lemma WriteKeepsPlace(s: System, i: nat, todo: seq<Post>, ok: bool, pid: nat)
    requires pid in s.procs
    ensures DoWrite(s, i, todo, ok).procs[pid].pc == s.procs[pid].pc
  {
    hide ReaderOf;
  }

  lemma KillKeepsPlace(s: System, i: nat, to: nat, todo: seq<Post>, pid: nat)
    requires pid in s.procs
    ensures DoKill(s, i, to, todo).procs[pid].pc == s.procs[pid].pc
  {
  }

  lemma ChildIs(s: System, pid: nat, act: Act)
    requires pid in s.procs
    ensures DoChild(s, pid, act).procs == s.procs[pid := ActOf(s.procs[pid], pid, act)]
  {
  }

  /** A child writes exactly what its client has said, each text once, in order. */
  lemma {:induction false} WritesWhatWasSaid(cap: nat, s: System, run: seq<Event>, pid: nat, said: string)
    requires Sound(cap, s) && Legal(cap, s, run) && Running(After(s, run)) && Reap(pid) !in run && Carries(s, pid, said)
    ensures Written(s, run, pid) == Delivered(run, said, pid)
    decreases |run|
  {
    hide Sound, Enabled, Apply, Running, WrittenBy, Carries;
    if run != [] {
      RanBefore(cap, s, run);
      StepCarries(cap, s, run[0], pid, said);
      StepKeepsSound(cap, s, run[0]);
      if run[0].Child? && run[0].pid == pid && run[0].act.ClientSends? {
        WritesWhatWasSaid(cap, Apply(s, run[0]), run[1..], pid, run[0].act.text);
      } else {
        WritesWhatWasSaid(cap, Apply(s, run[0]), run[1..], pid, said);
      }
    }
  }

  // ------------------------------------------------------ what a child is told

  /** The bytes of the successful writes to child `pid`, in order. */
  function Put(log: seq<Sent>, pid: nat): string {
    if log == [] then ""
    else Put(log[..|log| - 1], pid) + if log[|log| - 1].pid == pid && log[|log| - 1].ok then log[|log| - 1].bytes else ""
  }

  /** What child `pid` takes out of its pipe in this step. */
  function TakenBy(s: System, e: Event, pid: nat): string {
    if e == Child(pid, ReadPipe) && pid in s.procs then Take(s.procs[pid].down, READ_MAX) else ""
  }

  function Taken(s: System, run: seq<Event>, pid: nat): string
    decreases |run|
  {
    if run == [] then "" else TakenBy(s, run[0], pid) + Taken(Apply(s, run[0]), run[1..], pid)
  }

  lemma {:induction false} PutJoins(a: seq<Sent>, b: seq<Sent>, pid: nat)
    ensures Put(a + b, pid) == Put(a, pid) + Put(b, pid)
  {
    if b == [] {
      assert a + b == a;
    } else {
      var n := |b| - 1;
      assert (a + b)[..|a + b| - 1] == a + b[..n];
      PutJoins(a, b[..n], pid);
    }
  }

  lemma WriteLogs(s: System, i: nat, todo: seq<Post>, ok: bool)
    ensures var s' := DoWrite(s, i, todo, ok);
            || (s'.procs == s.procs && s'.log == s.log)
            || (s'.procs == s.procs && exists w: Sent :: !w.ok && s'.log == s.log + [w])
            || (exists w: Sent :: w.pid in s.procs && w.ok && s'.log == s.log + [w]
                            && s'.procs == s.procs[w.pid := s.procs[w.pid].(down := s.procs[w.pid].down + w.bytes)])
  {
    hide ReaderOf;
    if todo != [] && ReaderOf(s, todo[0].slot).Some? {
      var w := Sent(ReaderOf(s, todo[0].slot).value, todo[0].bytes, ok);
      assert DoWrite(s, i, todo, ok).log == s.log || DoWrite(s, i, todo, ok).log == s.log + [w];
    }
  }

  lemma WriteDown(s: System, i: nat, todo: seq<Post>, ok: bool, pid: nat)
    requires pid in s.procs
    ensures var s' := DoWrite(s, i, todo, ok);
            && s.log <= s'.log && pid in s'.procs
            && s'.procs[pid].down == s.procs[pid].down + Put(s'.log[|s.log|..], pid)
  {
    hide DoWrite, Put;
    var s' := DoWrite(s, i, todo, ok);
    WriteLogs(s, i, todo, ok);
    PutNone(pid);
    if s'.log == s.log {
      assert s'.log[|s.log|..] == [];
    } else {
      assert s'.log[|s.log|..] == [s'.log[|s.log|]];
      PutOne(s'.log[|s.log|], pid);
    }
  }

  lemma PutNone(pid: nat)
    ensures Put([], pid) == ""
  {
  }

  lemma PutOne(w: Sent, pid: nat)
    ensures Put([w], pid) == if w.pid == pid && w.ok then w.bytes else ""
  {
    assert [w][..0] == [];
  }

  lemma ChildDown(cap: nat, s: System, p: nat, act: Act, pid: nat)
    requires Enabled(cap, s, Child(p, act)) && pid in s.procs
    ensures s.procs[pid].down == TakenBy(s, Child(p, act), pid) + DoChild(s, p, act).procs[pid].down
  {
    hide Record, IsMessage;
    ChildIs(s, p, act);
  }

  lemma OthersDown(cap: nat, s: System, e: Event, pid: nat)
    requires Sound(cap, s) && Enabled(cap, s, e) && pid in s.procs && pid in Apply(s, e).procs
    requires !e.WritePost? && !e.Child?
    ensures Apply(s, e).log == s.log && Apply(s, e).procs[pid].down == s.procs[pid].down
  {
    hide Sound, DoRead, DoKill, ReaderOf, CanAct, Drain;
    if e.ReadRecord? {
      ReadDown(s, s.pc.i, e.beyond, pid);
    } else if e.SignalChild? {
      KillDown(s, s.pc.i, s.pc.pid, s.pc.todo, pid);
    }
  }

  lemma ReadDown(s: System, i: nat, beyond: string, pid: nat)
    requires pid in s.procs && pid in DoRead(s, i, beyond).procs
    ensures DoRead(s, i, beyond).log == s.log && DoRead(s, i, beyond).procs[pid].down == s.procs[pid].down
  {
    hide DoRead, Drain, WriterOf, FindsBytes;
    FoundWriter(s, i);
  }

  lemma FoundWriter(s: System, i: nat)
    ensures FindsBytes(s, i) ==> WriterOf(s, i).Some?
  {
  }

  lemma KillDown(s: System, i: nat, to: nat, todo: seq<Post>, pid: nat)
    requires pid in s.procs
    ensures DoKill(s, i, to, todo).log == s.log && DoKill(s, i, to, todo).procs[pid].down == s.procs[pid].down
  {
  }

  lemma StepDown(cap: nat, s: System, e: Event, pid: nat)
    requires Sound(cap, s) && Enabled(cap, s, e) && pid in s.procs && pid in Apply(s, e).procs
    ensures var s' := Apply(s, e);
            && s.log <= s'.log
            && s.procs[pid].down + Put(s'.log[|s.log|..], pid) == TakenBy(s, e, pid) + s'.procs[pid].down
  {
    hide Sound, Enabled, Apply, TakenBy, DoWrite;
    var s' := Apply(s, e);
    assert s.log[|s.log|..] == [];
    match e
    case WritePost(ok) => ActsAs(cap, s, e); WriteDown(s, s.pc.i, s.pc.todo, ok, pid); TakesNothing(s, e, pid);
    case Child(p, act) => ActsAs(cap, s, e); ChildDown(cap, s, p, act, pid);
    case _ => OthersDown(cap, s, e, pid); TakesNothing(s, e, pid);
  }

  lemma TakesNothing(s: System, e: Event, pid: nat)
    requires !e.Child?
    ensures TakenBy(s, e, pid) == ""
  {
  }

  lemma ActsAs(cap: nat, s: System, e: Event)
    requires Enabled(cap, s, e)
    ensures e.WritePost? ==> s.pc.Writing? && Apply(s, e) == DoWrite(s, s.pc.i, s.pc.todo, e.ok)
    ensures e.Child? ==> Apply(s, e) == DoChild(s, e.pid, e.act) && DoChild(s, e.pid, e.act).log == s.log
  {
    hide DoWrite, DoChild, CanAct, ReaderOf;
  }

  /**
   For pipes of any size: over a run what waited for a child and what the parent has
   since got into its pipe are, byte by byte, what the child has taken out and what
   still waits.
   */
  lemma {:induction false} DownLedger(cap: nat, s: System, run: seq<Event>, pid: nat)
    requires Sound(cap, s) && Legal(cap, s, run) && Running(After(s, run)) && pid in s.procs && Reap(pid) !in run
    ensures var s' := After(s, run);
            && pid in s'.procs && s.log <= s'.log
            && s.procs[pid].down + Put(s'.log[|s.log|..], pid) == Taken(s, run, pid) + s'.procs[pid].down
    decreases |run|
  {
    hide Sound, Enabled, Apply, Running, TakenBy;
    if run == [] {
      assert s.log[|s.log|..] == [];
    } else {
      var m, s' := Apply(s, run[0]), After(s, run);
      RanBefore(cap, s, run);
      PidStays(cap, s, run[0], pid);
      StepDown(cap, s, run[0], pid);
      StepKeepsSound(cap, s, run[0]);
      DownLedger(cap, m, run[1..], pid);
      assert s'.log[|s.log|..] == m.log[|s.log|..] + s'.log[|m.log|..];
      PutJoins(m.log[|s.log|..], s'.log[|m.log|..], pid);
      Chain(s.procs[pid].down, Put(m.log[|s.log|..], pid), Put(s'.log[|m.log|..], pid), TakenBy(s, run[0], pid),
            m.procs[pid].down, Taken(m, run[1..], pid), s'.procs[pid].down);
    }
  }

  lemma Chain(d: string, x: string, y: string, t: string, m: string, u: string, e: string)
    requires d + x == t + m && m + y == u + e
    ensures d + (x + y) == (t + u) + e
  {
    assert d + (x + y) == (d + x) + y == t + (m + y);
  }
}
