/**
 How far the promises reach. Unread bytes must fit one read: up to that size every run
 keeps the wake-up and sender promises, and one byte beyond it some run breaks each of
 them. And a child that signals before it writes can be missed with pipes of any size.
 */
module ChatLimits {
  import opened CStrings
  import opened ChatRecords
  import opened ChatCommands
  import opened ChatTables
  import opened ChatRefinement
  import opened ChatServer
  import opened ChatSystem
  import opened ChatInvariant
  import opened ChatAwareness
  import opened ChatUpward
  import opened ChatSimulation
  import opened ChatLedger

  // ---------------------------------------------------- a server with one client

  const CLIENT: nat := 7

  /** The server with one client whose child is `c`, with no signal about. */
  function Solo(t: Tables, at: ParentPc, c: Proc, pending: bool, flag: bool, log: seq<Sent>): System {
    System(t, at, map[CLIENT := c], map[3 := Listener][4 := ToChild(CLIENT)][5 := FromChild(CLIENT)], 3,
           pending, flag, false, false, log)
  }

  function Table(name: string, room: string): Tables {
    Tables([Entry(CLIENT, name, room, 4, 5, true)], [])
  }

  /** A child with nothing to do, except perhaps to tell `texts`. */
  function Quiet(pc: ChildPc, texts: seq<string>): Proc {
    Proc(pc, false, false, "", Records(CLIENT, texts), Backlog("", texts))
  }

  ghost predicate Comes(cap: nat, s: System) {
    Reaches(cap, Init(3), s)
  }

  lemma Step(cap: nat, s: System, e: Event, s': System)
    requires Comes(cap, s) && Enabled(cap, s, e) && Apply(s, e) == s'
    ensures Comes(cap, s')
  {
    hide Enabled, Apply;
    StepReaches(cap, Init(3), s, e);
  }

  lemma FirstClient(cap: nat)
    ensures Comes(cap, Solo(Table("", ""), Top, Quiet(Checking, []), false, false, []))
  {
    hide Comes;
    var started := Solo(Table("", ""), Top, Quiet(Starting, []), false, false, []);
    Arrives(cap);
    StartInstalls(cap, started);
  }

  lemma Arrives(cap: nat)
    ensures Comes(cap, Solo(Table("", ""), Top, Quiet(Starting, []), false, false, []))
  {
    hide Enabled, Apply;
    var s0 := Init(3);
    StartReaches(cap, s0);
    Looks(cap, s0);
    Step(cap, s0, LookForExited, s0.(pc := Accepting));
    AdmitsFirst(cap);
    Step(cap, s0.(pc := Accepting), Admit(CLIENT, 4, 5), Solo(Table("", ""), Top, Quiet(Starting, []), false, false, []));
  }

  lemma Looks(cap: nat, s: System)
    requires s.pc.Top? && !s.exitFlag
    ensures Enabled(cap, s, LookForExited) && Apply(s, LookForExited) == s.(pc := Accepting)
  {
  }

  lemma AdmitsFirst(cap: nat)
    ensures Enabled(cap, Init(3).(pc := Accepting), Admit(CLIENT, 4, 5))
    ensures Apply(Init(3).(pc := Accepting), Admit(CLIENT, 4, 5))
            == Solo(Table("", ""), Top, Quiet(Starting, []), false, false, [])
  {
  }

  /** A step of the child alone. */
  lemma Acts(cap: nat, t: Tables, at: ParentPc, c: Proc, pending: bool, flag: bool, log: seq<Sent>, act: Act)
    requires !c.pc.Dead? && CanAct(cap, c, CLIENT, act) && !act.Die?
    requires Comes(cap, Solo(t, at, c, pending, flag, log))
    ensures Comes(cap, Solo(t, at, ActOf(c, CLIENT, act), pending || act.SignalParent?, flag, log))
  {
    hide Comes, CanAct, ActOf;
    var s := Solo(t, at, c, pending, flag, log);
    assert s.procs[CLIENT := ActOf(c, CLIENT, act)] == map[CLIENT := ActOf(c, CLIENT, act)];
    Step(cap, s, Child(CLIENT, act), Solo(t, at, ActOf(c, CLIENT, act), pending || act.SignalParent?, flag, log));
  }

  lemma StartInstalls(cap: nat, s: System)
    requires s == Solo(Table("", ""), Top, Quiet(Starting, []), false, false, []) && Comes(cap, s)
    ensures Comes(cap, Solo(Table("", ""), Top, Quiet(Checking, []), false, false, []))
  {
    hide Comes;
    Acts(cap, s.tables, Top, Quiet(Starting, []), false, false, [], InstallHandler);
  }

  /** The client says something, and the child has signalled the parent. */
  lemma Announces(cap: nat, t: Tables, log: seq<Sent>, text: string)
    requires IsMessage(text) && Comes(cap, Solo(t, Top, Quiet(Checking, []), false, false, log))
    ensures Comes(cap, Solo(t, Top, Quiet(Forwarding(text), []), true, false, log))
  {
    hide Comes, Records;
    Acts(cap, t, Top, Quiet(Checking, []), false, false, log, CheckFlag);
    Acts(cap, t, Top, Quiet(ReadingSocket, []), false, false, log, ClientSends(text));
    Acts(cap, t, Top, Quiet(Telling(text), []), false, false, log, SignalParent);
  }

  lemma Writes(cap: nat, t: Tables, at: ParentPc, pending: bool, flag: bool, log: seq<Sent>, text: string)
    requires |Record(CLIENT, text)| <= cap && Comes(cap, Solo(t, at, Quiet(Forwarding(text), []), pending, flag, log))
    ensures Comes(cap, Solo(t, at, Quiet(Checking, [text]), pending, flag, log))
  {
    hide Comes, Record;
    RecordsOfOne(text);
    Acts(cap, t, at, Quiet(Forwarding(text), []), pending, flag, log, Forward(true));
  }

  lemma RecordsOfOne(text: string)
    ensures Records(CLIENT, []) == "" && Records(CLIENT, [text]) == "" + Record(CLIENT, text) == Record(CLIENT, text)
    ensures Append(Backlog("", []), text) == Backlog("", [text])
  {
    assert [text][1..] == [];
  }

  /** The parent takes the signal and starts its scan. */
  lemma Scans(cap: nat, t: Tables, c: Proc, log: seq<Sent>)
    requires Comes(cap, Solo(t, Top, c, true, false, log))
    ensures Comes(cap, Solo(t, Scanning(0), c, false, false, log))
  {
    hide Comes;
    Step(cap, Solo(t, Top, c, true, false, log), DeliverToParent, Solo(t, Top, c, false, true, log));
    Step(cap, Solo(t, Top, c, false, true, log), LookForExited, Solo(t, Accepting, c, false, true, log));
    Step(cap, Solo(t, Accepting, c, false, true, log), Event.NoConnection, Solo(t, Scanning(0), c, false, false, log));
  }

  lemma Tells(cap: nat, t: Tables, log: seq<Sent>, text: string)
    requires IsMessage(text) && |Record(CLIENT, text)| <= cap
    requires Comes(cap, Solo(t, Top, Quiet(Checking, []), false, false, log))
    ensures Comes(cap, Solo(t, Scanning(0), Quiet(Checking, [text]), false, false, log))
  {
    hide Comes, Record;
    Announces(cap, t, log, text);
    Writes(cap, t, Top, true, false, log, text);
    Scans(cap, t, Quiet(Checking, [text]), log);
  }

  /** The scan ends. */
  lemma ScanEnds(cap: nat, t: Tables, c: Proc, log: seq<Sent>)
    requires |t.entries| == 1 && Comes(cap, Solo(t, Scanning(1), c, false, false, log))
    ensures Comes(cap, Solo(t, Top, c, false, false, log))
  {
    hide Comes, WriterOf;
    Step(cap, Solo(t, Scanning(1), c, false, false, log), ReadRecord(""), Solo(t, Top, c, false, false, log));
  }

  // ------------------------------------------------------------- upward

  /**
   The child's order is `kill`, then `write`, and whatever the size of the pipes a
   message can lie unread with nobody about to be told: neither flag nor signal is set
   at the parent, the parent is at the top of its loop, the child is done.
   */
  lemma UpwardWakeUpCanBeLost(cap: nat) returns (s: System)
    requires cap >= |Record(CLIENT, "hi")|
    ensures Reachable(cap, s) && !UpOk(s)
    ensures CLIENT in s.procs && s.procs[CLIENT].up == Record(CLIENT, "hi") && s.procs[CLIENT].pc.Checking?
    ensures s.pc.Top? && !s.usrPending && !s.usrFlag
  {
    hide Comes, Record;
    FirstClient(cap);
    var t := Table("", "");
    Announces(cap, t, [], "hi");
    Scans(cap, t, Quiet(Forwarding("hi"), []), []);
    FindsNothing(cap, t, Quiet(Forwarding("hi"), []));
    ScanEnds(cap, t, Quiet(Forwarding("hi"), []), []);
    Writes(cap, t, Top, false, false, [], "hi");
    s := Solo(t, Top, Quiet(Checking, ["hi"]), false, false, []);
    RecordsOfOne("hi");
    Started(cap, s);
    RecordNotEmpty(CLIENT, "hi");
    assert Unread(s, 0);
  }

  lemma Started(cap: nat, s: System)
    requires Comes(cap, s)
    ensures Reachable(cap, s)
  {
  }

  lemma FindsNothing(cap: nat, t: Tables, c: Proc)
    requires t == Table("", "") && c.up == "" && Comes(cap, Solo(t, Scanning(0), c, false, false, []))
    ensures Comes(cap, Solo(t, Scanning(1), c, false, false, []))
  {
    hide Comes, Handle, Parse;
    Step(cap, Solo(t, Scanning(0), c, false, false, []), ReadRecord(""), Solo(t, Scanning(1), c, false, false, []));
  }

  // ------------------------------------------------------------- lost texts

  /**
   Two texts can wait for one read; then the parent asks for the older alone, and
   nothing of the other is left.
   */
  lemma SecondTextCanBeLost(cap: nat) returns (s: System)
    requires cap >= |Record(CLIENT, "hi")| + |Record(CLIENT, "yo")|
    ensures Reachable(cap, s) && s.pc == Scanning(0) && CLIENT in s.procs && Waiting(s, CLIENT) == ["hi", "yo"]
    ensures MoveOf(s, ReadRecord("")) == Ask(CLIENT, "hi", "")
    ensures var s' := Apply(s, ReadRecord("")); CLIENT in s'.procs && Waiting(s', CLIENT) == []
  {
    hide Comes, Record, Records;
    var t, c := Table("", ""), Quiet(Checking, ["hi"]);
    FirstClient(cap);
    Announces(cap, t, [], "hi");
    Writes(cap, t, Top, true, false, [], "hi");
    Acts(cap, t, Top, c, true, false, [], CheckFlag);
    Acts(cap, t, Top, c.(pc := ReadingSocket), true, false, [], ClientSends("yo"));
    Acts(cap, t, Top, c.(pc := Telling("yo")), true, false, [], SignalParent);
    RecordsOfTwo("hi", "yo");
    Acts(cap, t, Top, c.(pc := Forwarding("yo")), true, false, [], Forward(true));
    Scans(cap, t, Quiet(Checking, ["hi", "yo"]), []);
    s := Solo(t, Scanning(0), Quiet(Checking, ["hi", "yo"]), false, false, []);
    Started(cap, s);
    AsksForFirst(cap, s);
  }

  lemma RecordsOfTwo(first: string, second: string)
    ensures Records(CLIENT, [first]) == Record(CLIENT, first)
    ensures Records(CLIENT, [first]) + Record(CLIENT, second) == Records(CLIENT, [first, second])
    ensures Append(Backlog("", [first]), second) == Backlog("", [first, second])
  {
    hide Record;
    RecordsOfOne(first);
    assert [first] + [second] == [first, second];
    RecordsAppend(CLIENT, [first], second);
  }

  lemma AsksForFirst(cap: nat, s: System)
    requires s == Solo(Table("", ""), Scanning(0), Quiet(Checking, ["hi", "yo"]), false, false, [])
    ensures MoveOf(s, ReadRecord("")) == Ask(CLIENT, "hi", "")
    ensures var s' := Apply(s, ReadRecord("")); CLIENT in s'.procs && Waiting(s', CLIENT) == []
  {
    hide DoRead, Drain, Skip, Records, Record, Apply, FirstLine, Decimal, ReadCrashes;
    HiLine();
    HiIsSafe(s);
    CrashHalts(s, 0, "");
    Reads(cap, s);
    HiIsFound(s);
    DrainsBoth(s);
  }

  lemma HiLine()
    ensures |Decimal(CLIENT)| < READ_MAX && FirstLine(CLIENT, "hi") == "hi"
  {
    ClientDigits();
    UpToWhole("hi", '\n');
  }

  lemma HiIsFound(s: System)
    requires s == Solo(Table("", ""), Scanning(0), Quiet(Checking, ["hi", "yo"]), false, false, [])
    ensures FindsBytes(s, 0) && WriterOf(s, 0) == Some(CLIENT)
  {
    hide Record;
    SoloTable(s);
    EndsOfSlot(s, 0);
    TextLength("hi");
  }

  lemma DrainsBoth(s: System)
    requires s == Solo(Table("", ""), Scanning(0), Quiet(Checking, ["hi", "yo"]), false, false, [])
    ensures CLIENT in s.procs && CLIENT in Drain(s, CLIENT).procs && Waiting(Drain(s, CLIENT), CLIENT) == []
  {
    hide Record, Drain, Skip;
    TextLength("hi");
    TextLength("yo");
    RecordsOfTwo("hi", "yo");
    DrainsOne(s, CLIENT);
    SkipAll(CLIENT, Backlog("", ["hi", "yo"]), READ_MAX);
  }

  lemma HiIsSafe(s: System)
    requires s == Solo(Table("", ""), Scanning(0), Quiet(Checking, ["hi", "yo"]), false, false, [])
    ensures !ReadCrashes(s, 0)
  {
    hide Record, Parse, FirstLine, TableOk;
    SoloTable(s);
    EndsOfSlot(s, 0);
    assert s.procs[CLIENT].up == Record(CLIENT, "hi") + Record(CLIENT, "yo") by { RecordsOfTwo("hi", "yo"); }
    ParseOfRead(CLIENT, "hi", Record(CLIENT, "yo"));
    assert SlotOf(s.tables.entries, CLIENT) == 0;
  }

  // ------------------------------------------------------------- senders

  /** Every slot's pipe is read as the words of that slot's client. */
  predicate SenderKnown(s: System, i: nat)
    requires i < |s.tables.entries|
  {
    var e := s.tables.entries[i];
    && WriterOf(s, i) == Some(e.pid) && e.pid in s.procs
    && (s.procs[e.pid].up != "" ==>
          && s.procs[e.pid].backlog.texts != []
          && Parse(Take(s.procs[e.pid].up, READ_MAX)) == Parsed(e.pid, UpTo(s.procs[e.pid].backlog.texts[0], '\n'))
          && SlotOf(s.tables.entries, e.pid) == i)
  }

  predicate SendersKnown(s: System) {
    Running(s) ==> forall i: nat :: i < |s.tables.entries| ==> SenderKnown(s, i)
  }

  lemma SmallPipesKnow(cap: nat, s: System)
    requires cap <= READ_MAX && Reachable(cap, s)
    ensures SendersKnown(s)
  {
    hide SenderKnown, Sound, Aware, Apply, Enabled, ReadFits;
    var listener :| Reaches(cap, Init(listener), s);
    var run :| Legal(cap, Init(listener), run) && After(Init(listener), run) == s;
    Reached(cap, listener, run);
    if Running(s) {
      forall i: nat | i < |s.tables.entries| ensures SenderKnown(s, i) {
        KnownAt(cap, s, i);
      }
    }
  }

  lemma KnownAt(cap: nat, s: System, i: nat)
    requires cap <= READ_MAX && Sound(cap, s) && Aware(s) && Running(s) && i < |s.tables.entries|
    ensures SenderKnown(s, i)
  {
    hide Parse, OwnsExactly, DistinctPids, Pids, Records, Record, FirstLine;
    EndsOfSlot(s, i);
    var pid := EntryPid(s, i);
    if s.procs[pid].up != "" {
      SenderIsSlot(cap, s, i);
      PipeFacts(cap, s, pid);
      OldestFirst(pid, s.procs[pid].backlog);
      LineFits(pid, s.procs[pid].backlog.texts[0]);
    }
  }

  lemma LineFits(pid: nat, text: string)
    ensures |Decimal(pid)| + 1 + |UpTo(text, '\n')| < |Record(pid, text)|
  {
  }

  function Letters(n: nat): (s: string)
    ensures |s| == n && NulFree(s) && '\n' !in s
  {
    seq(n, _ => 'x')
  }

  lemma TextLength(text: string)
    ensures |Record(CLIENT, text)| == |text| + 3
  {
    assert Decimal(CLIENT) == "7";
  }

  lemma RecordLength(n: nat)
    ensures |Record(CLIENT, Letters(n))| == n + 3
  {
    hide Record;
    TextLength(Letters(n));
  }

  /** The child after a read that has left the NUL of its record behind. */
  function CutOff(pc: ChildPc): Proc {
    Proc(pc, false, false, "", [NUL], Backlog([NUL], []))
  }

  /** One byte beyond a read: the NUL of the record stays in the pipe as a record of nobody. */
  lemma CutsRecord(text: string, name: string)
    requires IsMessage(text) && text[0] == 'x' && |Record(CLIENT, text)| == READ_MAX + 1
    requires |Decimal(CLIENT)| < READ_MAX && name == Clip(FirstLine(CLIENT, text))
    ensures DoRead(Solo(Table("", ""), Scanning(0), Quiet(Checking, [text]), false, false, []), 0, "")
            == Solo(Table(name, ""), Writing(0, []), CutOff(Checking), false, false, [])
  {
    hide Record, Parse, DoRead, WriterOf, TableOk, FirstLine, UpTo, ReadCrashes, HandleCommand;
    var s := Solo(Table("", ""), Scanning(0), Quiet(Checking, [text]), false, false, []);
    RecordsOfOne(text);
    SoloTable(s);
    EndsOfSlot(s, 0);
    OwnRecordIsSafe(s, text);
    ReadsSomething(s, "");
    DrainsOne(s, CLIENT);
    OneCut(text);
    assert Record(CLIENT, text) + "" == Record(CLIENT, text);
    ParseOfRead(CLIENT, text, "");
    StartsAlike(text);
  }

  lemma Reads(cap: nat, s: System)
    requires s.pc == Scanning(0)
    ensures Enabled(cap, s, ReadRecord("")) && Apply(s, ReadRecord("")) == DoRead(s, 0, "")
  {
    hide DoRead;
  }

  lemma StartsAlike(text: string)
    requires text != "" && text[0] == 'x' && |Decimal(CLIENT)| < READ_MAX
    ensures FirstLine(CLIENT, text) != "" ==> FirstLine(CLIENT, text)[0] == 'x'
  {
    hide FirstLine;
  }

  lemma ClientDigits()
    ensures Decimal(CLIENT) == "7"
  {
  }

  /** Beyond the size of one read the parent is left with bytes of nobody. */
  lemma LargePipesConfuse(cap: nat) returns (name: string)
    requires cap > READ_MAX
    ensures Comes(cap, Solo(Table(name, ""), Writing(0, []), CutOff(Checking), false, false, []))
  {
    hide Comes, Record, DoRead, Letters, FirstLine, Clip, Decimal, Apply, Enabled, UpTo;
    ClientDigits();
    var text := Letters(READ_MAX - 2);
    RecordLength(READ_MAX - 2);
    LettersAre(READ_MAX - 2);
    name := Clip(FirstLine(CLIENT, text));
    FirstClient(cap);
    Tells(cap, Table("", ""), [], text);
    CutsRecord(text, name);
    Reads(cap, Solo(Table("", ""), Scanning(0), Quiet(Checking, [text]), false, false, []));
    Step(cap, Solo(Table("", ""), Scanning(0), Quiet(Checking, [text]), false, false, []), ReadRecord(""),
         Solo(Table(name, ""), Writing(0, []), CutOff(Checking), false, false, []));
  }

  lemma SoloTable(s: System)
    requires |s.tables.entries| == 1 && CLIENT in s.procs
    requires s == Solo(Table(s.tables.entries[0].name, s.tables.entries[0].room), s.pc, s.procs[CLIENT], s.usrPending, s.usrFlag, s.log)
    ensures TableOk(s)
  {
  }

  lemma ReadsSomething(s: System, beyond: string)
    requires s.pc == Scanning(0) && TableOk(s) && |s.tables.entries| == 1 && WriterOf(s, 0) == Some(CLIENT)
    requires CLIENT in s.procs && s.procs[CLIENT].up != "" && !ReadCrashes(s, 0)
    ensures DoRead(s, 0, beyond) == TakeRecord(Drain(s, CLIENT), 0, Take(s.procs[CLIENT].up, READ_MAX), beyond)
    ensures DoRead(s, 0, beyond).procs == Drain(s, CLIENT).procs
  {
    hide TakeRecord, Drain, WriterOf, ReadCrashes;
    CrashHalts(s, 0, beyond);
  }

  /** The read of a record of the client's own succeeds. */
  lemma OwnRecordIsSafe(s: System, text: string)
    requires TableOk(s) && |s.tables.entries| == 1 && s.tables.entries[0].pid == CLIENT && WriterOf(s, 0) == Some(CLIENT)
    requires CLIENT in s.procs && s.procs[CLIENT].up == Record(CLIENT, text) && IsMessage(text)
    ensures !ReadCrashes(s, 0)
  {
    hide TableOk, Record, Parse, WriterOf, FirstLine;
    assert Record(CLIENT, text) + "" == Record(CLIENT, text);
    ParseOfRead(CLIENT, text, "");
    assert SlotOf(s.tables.entries, CLIENT) == 0;
  }

  lemma OneCut(text: string)
    requires |Record(CLIENT, text)| == READ_MAX + 1
    ensures Skip(CLIENT, Backlog("", [text]), READ_MAX) == Backlog([NUL], [])
    ensures Rest(Record(CLIENT, text), READ_MAX) == [NUL]
  {
    assert [text][1..] == [];
  }

  /** Signalled once more, the parent reads the NUL, finds no sender in it, and its process ends. */
  lemma LargePipesCrash(cap: nat) returns (s: System)
    requires cap > READ_MAX
    ensures Reachable(cap, s) && s.pc.Scanning? && ReadCrashes(s, s.pc.i)
  {
    hide Comes, ReadCrashes, WriterOf, DoRead;
    var name := LargePipesConfuse(cap);
    var t := Table(name, "");
    Step(cap, Solo(t, Writing(0, []), CutOff(Checking), false, false, []), WritePost(false),
         Solo(t, Scanning(1), CutOff(Checking), false, false, []));
    ScanEnds(cap, t, CutOff(Checking), []);
    Acts(cap, t, Top, CutOff(Checking), false, false, [], CheckFlag);
    Acts(cap, t, Top, CutOff(ReadingSocket), false, false, [], ClientSends("hi"));
    Acts(cap, t, Top, CutOff(Telling("hi")), false, false, [], SignalParent);
    Scans(cap, t, CutOff(Forwarding("hi")), []);
    s := Solo(t, Scanning(0), CutOff(Forwarding("hi")), false, false, []);
    Started(cap, s);
    NulCrashes(s, name);
  }

  lemma NulCrashes(s: System, name: string)
    requires CLIENT in s.procs
    requires s == Solo(Table(name, ""), s.pc, CutOff(s.procs[CLIENT].pc), s.usrPending, s.usrFlag, s.log)
    ensures ReadCrashes(s, 0)
  {
    SoloTable(s);
    EndsOfSlot(s, 0);
    assert UpTo([NUL], NUL) == "";
  }

  /** No read of the parent's scan ends its process. */
  predicate ReadIsSafe(s: System) {
    s.pc.Scanning? ==> !ReadCrashes(s, s.pc.i)
  }

  lemma SmallPipesAreSafe(cap: nat, s: System)
    requires cap <= READ_MAX && Reachable(cap, s)
    ensures ReadIsSafe(s)
  {
    hide ReadCrashes, Sound, Aware, Apply, Enabled, ReadFits;
    var listener :| Reaches(cap, Init(listener), s);
    var run :| Legal(cap, Init(listener), run) && After(Init(listener), run) == s;
    Reached(cap, listener, run);
    if s.pc.Scanning? {
      AwareReadsSucceed(cap, s, s.pc.i);
    }
  }

  /**
   The parent survives every read of every run if and only if a pipe never holds more
   than one read takes.
   */
  lemma ReadsAreSafeIff(cap: nat)
    ensures (forall s :: Reachable(cap, s) ==> ReadIsSafe(s)) <==> cap <= 8191
  {
    hide ReadIsSafe, Reachable;
    if cap <= READ_MAX {
      forall s | Reachable(cap, s) ensures ReadIsSafe(s) {
        SmallPipesAreSafe(cap, s);
      }
    } else {
      var s := LargePipesCrash(cap);
      Unsafe(s);
    }
  }

  lemma Unsafe(s: System)
    requires s.pc.Scanning? && ReadCrashes(s, s.pc.i)
    ensures !ReadIsSafe(s)
  {
  }

  lemma Unattributed(s: System)
    requires Running(s) && |s.tables.entries| == 1 && s.tables.entries[0].pid == CLIENT
    requires CLIENT in s.procs && s.procs[CLIENT].up != "" && s.procs[CLIENT].backlog.texts == []
    ensures !SendersKnown(s)
  {
    assert !SenderKnown(s, 0);
  }

  /**
   The sender promise holds in every run if and only if a pipe never holds more than
   one read takes.
   */
  lemma SendersKnownIff(cap: nat)
    ensures (forall s :: Reachable(cap, s) ==> SendersKnown(s)) <==> cap <= 8191
  {
    hide SendersKnown, Reachable;
    if cap <= READ_MAX {
      forall s | Reachable(cap, s) ensures SendersKnown(s) {
        SmallPipesKnow(cap, s);
      }
    } else {
      var name := LargePipesConfuse(cap);
      var s := Solo(Table(name, ""), Writing(0, []), CutOff(Checking), false, false, []);
      Started(cap, s);
      Unattributed(s);
    }
  }

  // ------------------------------------------------------------- wake-ups

  lemma SmallPipesWoken(cap: nat, s: System)
    requires cap <= READ_MAX && Reachable(cap, s)
    ensures AllWoken(s)
  {
    hide Sound, Aware, AllWoken, Apply, Enabled, ReadFits, DeafRead;
    var listener :| Reaches(cap, Init(listener), s);
    var run :| Legal(cap, Init(listener), run) && After(Init(listener), run) == s;
    InitSound(cap, listener);
    InitAware(listener);
    InitWoken(listener);
    SmallPipesAreRead(cap, Init(listener), run);
    SmallPipesWake(cap, Init(listener), run);
    AwakeFrom(cap, Init(listener), run);
  }

  /** The parent handles what the client has said. */
  lemma Handles(cap: nat, name: string, room: string, text: string, out: Outcome)
    requires var t := Table(name, room);
             && IsMessage(text) && |Record(CLIENT, text)| <= READ_MAX
             && out == Handle(t, 0, CLIENT, UpTo(text, '\n'), "")
             && Comes(cap, Solo(t, Scanning(0), Quiet(Checking, [text]), false, false, []))
    ensures Comes(cap, Solo(out.tables, Writing(0, out.posts), Quiet(Checking, []), false, false, []))
  {
    hide Comes, Record, Handle, Parse, DoRead, WriterOf;
    var s := Solo(Table(name, room), Scanning(0), Quiet(Checking, [text]), false, false, []);
    ReadsAll(s, text, out);
    Step(cap, s, ReadRecord(""), Solo(out.tables, Writing(0, out.posts), Quiet(Checking, []), false, false, []));
  }

  lemma ReadsAll(s: System, text: string, out: Outcome)
    requires |s.tables.entries| == 1
    requires s == Solo(Table(s.tables.entries[0].name, s.tables.entries[0].room), Scanning(0), Quiet(Checking, [text]), false, false, [])
    requires IsMessage(text) && |Record(CLIENT, text)| <= READ_MAX
    requires out == Handle(s.tables, 0, CLIENT, UpTo(text, '\n'), "")
    ensures DoRead(s, 0, "") == Solo(out.tables, Writing(0, out.posts), Quiet(Checking, []), false, false, [])
  {
    hide Record, Handle, Parse, DoRead, WriterOf, TableOk;
    RecordsOfOne(text);
    SoloTable(s);
    EndsOfSlot(s, 0);
    RecordNotEmpty(CLIENT, text);
    OwnRecordIsSafe(s, text);
    ReadsSomething(s, "");
    DrainsOne(s, CLIENT);
    SkipAll(CLIENT, Backlog("", [text]), READ_MAX);
    assert Record(CLIENT, text) + "" == Record(CLIENT, text);
    ParseOfRecord(CLIENT, text, "");
  }

  /** A text that asks for no writes brings the parent back to the top of its loop. */
  lemma Says(cap: nat, name: string, room: string, text: string, name': string, room': string)
    requires IsMessage(text) && |Record(CLIENT, text)| <= READ_MAX <= cap
    requires Handle(Table(name, room), 0, CLIENT, UpTo(text, '\n'), "") == Outcome(Table(name', room'), [])
    requires Comes(cap, Solo(Table(name, room), Top, Quiet(Checking, []), false, false, []))
    ensures Comes(cap, Solo(Table(name', room'), Top, Quiet(Checking, []), false, false, []))
  {
    hide Comes, Record, Handle;
    var t' := Table(name', room');
    Tells(cap, Table(name, room), [], text);
    Handles(cap, name, room, text, Outcome(t', []));
    var done := Solo(t', Writing(0, []), Quiet(Checking, []), false, false, []);
    Step(cap, done, WritePost(false), done.(pc := Scanning(1)));
    ScanEnds(cap, t', Quiet(Checking, []), []);
  }

  lemma NamesItself()
    ensures Handle(Table("", ""), 0, CLIENT, UpTo("a", '\n'), "") == Outcome(Table("a", ""), [])
    ensures IsMessage("a") && |Record(CLIENT, "a")| <= READ_MAX
  {
    hide Record, HandleCommand, CheckCommand;
    TextLength("a");
    UpToWhole("a", '\n');
  }

  lemma Joins()
    ensures Handle(Table("a", ""), 0, CLIENT, UpTo("/join r", '\n'), "") == Outcome(Table("a", "r"), [])
    ensures IsMessage("/join r") && |Record(CLIENT, "/join r")| <= READ_MAX
  {
    hide Record, CheckCommand, CommandKind, Argument, SlotOf, SetRoom, ListPosts, UsersPosts, UpTo;
    TextLength("/join r");
    UpToWhole("/join r", '\n');
    JoinCommand();
    JoinArgument();
    JoinRoom();
  }

  lemma JoinRoom()
    ensures SetRoom(Table("a", "").entries, CLIENT, "r") == Table("a", "r").entries
  {
    assert SlotOf(Table("a", "").entries, CLIENT) == 0;
  }

  lemma JoinArgument()
    ensures Argument("/join r", "join", "") == "r"
  {
  }

  lemma JoinCommand()
    ensures CommandKind("/join r") == Join
  {
    assert "/join r"[1..] == "join r";
    assert !("add" <= "join r") by { assert "add"[0] != "join r"[0]; }
    assert "join" <= "join r";
  }

  function LineOf(text: string): string {
    "a: " + text + [NUL]
  }

  lemma TalksToItself(text: string)
    requires text != "" && text[0] == 'x' && '\n' !in text
    ensures Handle(Table("a", "r"), 0, CLIENT, UpTo(text, '\n'), "") == Outcome(Table("a", "r"), [Post(0, LineOf(text))])
  {
    UpToWhole(text, '\n');
    var t := Table("a", "r");
    assert SayPosts(t.entries, "r", LineOf(text), 1) == SayPosts(t.entries, "r", LineOf(text), 0) + [Post(0, LineOf(text))];
    assert ChatLine(t.entries[0], text) == LineOf(text);
  }

  /** The child whose pipe holds `down`. */
  function Listening(pc: ChildPc, flag: bool, pending: bool, down: string): Proc {
    Proc(pc, flag, pending, down, "", Backlog("", []))
  }

  /** The parent writes one line to its client and signals it; the child wakes and clears its flag. */
  lemma Wakes(cap: nat, line: string) returns (log: seq<Sent>)
    requires line != "" && |line| <= cap
    requires Comes(cap, Solo(Table("a", "r"), Writing(0, [Post(0, line)]), Quiet(Checking, []), false, false, []))
    ensures Comes(cap, Solo(Table("a", "r"), Writing(0, []), Listening(ReadingPipe, false, false, line), false, false, log))
  {
    hide Comes, Solo, Record, Apply, Enabled;
    var t := Table("a", "r");
    log := [Sent(CLIENT, line, true)];
    WritesLine(line, cap);
    Step(cap, Solo(t, Writing(0, [Post(0, line)]), Listening(Checking, false, false, ""), false, false, []), WritePost(true),
         Solo(t, Killing(0, CLIENT, []), Listening(Checking, false, false, line), false, false, log));
    SignalsClient(cap, line, log);
    Step(cap, Solo(t, Killing(0, CLIENT, []), Listening(Checking, false, false, line), false, false, log), SignalChild,
         Solo(t, Writing(0, []), Listening(Checking, false, true, line), false, false, log));
    Acts(cap, t, Writing(0, []), Listening(Checking, false, true, line), false, false, log, TakeSignal);
    Acts(cap, t, Writing(0, []), Listening(Checking, true, false, line), false, false, log, CheckFlag);
  }

  lemma SignalsClient(cap: nat, line: string, log: seq<Sent>)
    ensures var s := Solo(Table("a", "r"), Killing(0, CLIENT, []), Listening(Checking, false, false, line), false, false, log);
            && Enabled(cap, s, SignalChild)
            && Apply(s, SignalChild)
               == Solo(Table("a", "r"), Writing(0, []), Listening(Checking, false, true, line), false, false, log)
  {
  }

  lemma WritesLine(line: string, cap: nat)
    requires line != "" && |line| <= cap
    ensures var s := Solo(Table("a", "r"), Writing(0, [Post(0, line)]), Listening(Checking, false, false, ""), false, false, []);
            && Enabled(cap, s, WritePost(true))
            && Apply(s, WritePost(true))
               == Solo(Table("a", "r"), Killing(0, CLIENT, []), Listening(Checking, false, false, line), false, false, [Sent(CLIENT, line, true)])
  {
    assert "" + line == line;
    assert [] + [Sent(CLIENT, line, true)] == [Sent(CLIENT, line, true)];
    assert [Post(0, line)][1..] == [];
  }

  /** One byte beyond a read: the last byte of a line stays with a child that nobody will wake. */
  lemma LargePipesForget(cap: nat) returns (s: System)
    requires cap > READ_MAX
    ensures Reachable(cap, s) && !AllWoken(s)
  {
    hide Comes, Record, Handle, Letters, LineOf, Apply, Enabled, Take;
    FirstClient(cap);
    NamesItself();
    Says(cap, "", "", "a", "a", "");
    Joins();
    Says(cap, "a", "", "/join r", "a", "r");
    var text := Letters(READ_MAX - 3);
    RecordLength(READ_MAX - 3);
    LettersAre(READ_MAX - 3);
    Tells(cap, Table("a", "r"), [], text);
    TalksToItself(text);
    Handles(cap, "a", "r", text, Outcome(Table("a", "r"), [Post(0, LineOf(text))]));
    LineLength(text);
    var log := Wakes(cap, LineOf(text));
    Acts(cap, Table("a", "r"), Writing(0, []), Listening(ReadingPipe, false, false, LineOf(text)), false, false, log, ReadPipe);
    s := Solo(Table("a", "r"), Writing(0, []), Listening(ReadingSocket, false, false, Rest(LineOf(text), READ_MAX)), false, false, log);
    Started(cap, s);
    assert !Woken(s, CLIENT);
  }

  lemma LettersAre(n: nat)
    requires n > 0
    ensures Letters(n)[0] == 'x'
  {
  }

  lemma LineLength(text: string)
    ensures |LineOf(text)| == |text| + 4
  {
  }

  /**
   The wake-up promise holds in every run if and only if a pipe never holds more than
   one read takes.
   */
  lemma WakeUpsKeptIff(cap: nat)
    ensures (forall s :: Reachable(cap, s) ==> AllWoken(s)) <==> cap <= 8191
  {
    hide AllWoken, Reachable;
    if cap <= READ_MAX {
      forall s | Reachable(cap, s) ensures AllWoken(s) {
        SmallPipesWoken(cap, s);
      }
    } else {
      var s := LargePipesForget(cap);
    }
  }

  /**
   What a caller can check beforehand: a woken child that finds one chat line reads all
   of it, or is left unaware of the rest, according to the lengths of name and text.
   */
  lemma LoneLineIsHeardIff(s: System, pid: nat, e: Entry, text: string)
    requires pid in s.procs && s.procs[pid].pc.ReadingPipe? && s.procs[pid].down == ChatLine(e, text)
    requires !s.procs[pid].flag && !s.procs[pid].pending && !AboutToSignal(s, pid)
    ensures Woken(DoChild(s, pid, ReadPipe), pid) <==> |e.name| + |text| <= 8188
  {
    assert |ChatLine(e, text)| == |e.name| + |text| + 3;
  }
}
