/**
 Who the parent deals with, and who is told. As long as each read of the parent
 reaches the end of the pipe, every record it handles is one a child has written, so
 names, rooms, writes and signals concern only children that have installed their
 handler; and a child is told of every message it has not read.
 */
module ChatAwareness {
  import opened CStrings
  import opened ChatRecords
  import opened ChatTables
  import opened ChatRefinement
  import opened ChatServer
  import opened ChatSystem
  import opened ChatInvariant

  /** If the parent reads a pipe in this step, it reads all that is there. */
  predicate ReadFits(s: System, e: Event) {
    e.ReadRecord? && s.pc.Scanning? ==>
      var q := WriterOf(s, s.pc.i); q.Some? ==> |s.procs[q.value].up| <= READ_MAX
  }

  // ------------------------------------------------------------- the sender

  /**
   Whenever the parent finds something in the pipe of slot `i`, the process id it
   parses is that slot's, the search by process id comes back to slot `i`, and the
   content is the first line of the child's oldest unread text, as far as one read goes.
   */
  lemma SenderIsSlot(cap: nat, s: System, i: nat)
    requires Sound(cap, s) && Aware(s) && Running(s) && i < |s.tables.entries|
    requires EntryPid(s, i) in s.procs && s.procs[EntryPid(s, i)].up != ""
    ensures var e := s.tables.entries[i];
            var c := s.procs[e.pid];
            && c.backlog.texts != [] && IsMessage(c.backlog.texts[0]) && WriterOf(s, i) == Some(e.pid)
            && |Decimal(e.pid)| < READ_MAX && e.active
            && Parse(Take(c.up, READ_MAX)) == Parsed(e.pid, FirstLine(e.pid, c.backlog.texts[0]))
            && SlotOf(s.tables.entries, e.pid) == i
  {
    hide Parse, FirstLine, Records, Record, OwnsExactly;
    EndsOfSlot(s, i);
    var e := s.tables.entries[i];
    PipeFacts(cap, s, e.pid);
    OldestFirst(e.pid, s.procs[e.pid].backlog);
    ParseOfRead(e.pid, s.procs[e.pid].backlog.texts[0], Records(e.pid, s.procs[e.pid].backlog.texts[1..]));
    SlotOfEntry(s.tables.entries, i);
  }

  lemma OldestFirst(pid: nat, b: Backlog)
    requires b.cut == "" && Bytes(pid, b) != ""
    ensures b.texts != [] && b.texts[0] in b.texts
    ensures Bytes(pid, b) == Record(pid, b.texts[0]) + Records(pid, b.texts[1..])
  {
  }

  /** What the text that waits on slot `i` makes of the tables and whom it writes to. */
  function WaitingText(s: System, i: nat): string
    requires i < |s.tables.entries| && EntryPid(s, i) in s.procs && s.procs[EntryPid(s, i)].backlog.texts != []
    requires |Decimal(EntryPid(s, i))| < READ_MAX
  {
    FirstLine(EntryPid(s, i), s.procs[EntryPid(s, i)].backlog.texts[0])
  }

  /** What `DoRead` does when slot `i` has something to read. */
  lemma ReadOutcome(cap: nat, s: System, i: nat, beyond: string) returns (out: Outcome)
    requires Sound(cap, s) && Aware(s) && s.pc == Scanning(i) && i < |s.tables.entries|
    requires EntryPid(s, i) in s.procs && s.procs[EntryPid(s, i)].up != ""
    ensures var e := s.tables.entries[i];
            && s.procs[e.pid].backlog.texts != [] && |Decimal(e.pid)| < READ_MAX
            && SlotOf(s.tables.entries, e.pid) == i
            && out == Handle(s.tables, i, e.pid, WaitingText(s, i), beyond)
            && DoRead(s, i, beyond) == Drain(s, e.pid).(tables := out.tables, pc := Writing(i, out.posts))
  {
    hide Handle, Parse, FirstLine, Sound, Aware, Skip, Rest, WriterOf;
    SenderIsSlot(cap, s, i);
    DrainsOne(s, EntryPid(s, i));
    out := Handle(s.tables, i, EntryPid(s, i), WaitingText(s, i), beyond);
  }

  /** As long as its reads reach the ends of the pipes, no read ends the parent. */
  lemma AwareReadsSucceed(cap: nat, s: System, i: nat)
    requires Sound(cap, s) && Aware(s) && Running(s)
    ensures !ReadCrashes(s, i)
  {
    hide Aware, PipesPart, PlanPart, Parse, FirstLine, TableOk, WriterOf;
    if i < |s.tables.entries| {
      EndsOfSlot(s, i);
      if s.procs[EntryPid(s, i)].up != "" {
        SenderIsSlot(cap, s, i);
      }
    }
  }

  /** A read that fits empties the pipe. */
  lemma DrainEmpties(cap: nat, s: System, pid: nat)
    requires PipesPart(cap, s) && pid in s.procs && |s.procs[pid].up| <= READ_MAX
    ensures Drain(s, pid) == WithChild(s, pid, s.procs[pid].(up := "", backlog := NOTHING_UNREAD))
  {
    hide Bytes, Skip;
    PipeFacts(cap, s, pid);
    SkipAll(pid, s.procs[pid].backlog, READ_MAX);
  }

  // ---------------------------------------------------- one clause at a time

  /** No child falls back behind the installation of its handler. */
  ghost predicate StaysArmed(s: System, s': System) {
    forall p {:trigger Armed(s, p)} {:trigger Armed(s', p)} :: Armed(s, p) ==> Armed(s', p)
  }

  lemma SameIntroduced(s: System, s': System)
    requires Introduced(s) && s'.tables == s.tables && StaysArmed(s, s')
    ensures Introduced(s')
  {
    hide Armed;
  }

  lemma SameReach(s: System, s': System, todo: seq<Post>)
    requires ReachesArmed(s, todo) && StaysArmed(s, s') && s'.tables == s.tables
    ensures ReachesArmed(s', todo)
  {
    hide Armed;
  }

  lemma OneChildAware(s: System, s': System, pid: nat)
    requires ChildrenAware(s) && s'.procs.Keys <= s.procs.Keys + {pid}
    requires forall p {:trigger s'.procs[p]} :: p in s'.procs && p != pid ==> p in s.procs && s'.procs[p] == s.procs[p]
    requires pid in s'.procs ==> ChildAware(s'.procs[pid])
    ensures ChildrenAware(s')
  {
    hide ChildAware;
  }

  lemma ChildFacts(s: System, pid: nat)
    requires ChildrenAware(s) && pid in s.procs
    ensures ChildAware(s.procs[pid])
  {
  }

  // ------------------------------------------------------------------ steps

  lemma ActKeepsAware(cap: nat, s: System, pid: nat, act: Act)
    requires Aware(s) && Enabled(cap, s, Child(pid, act))
    ensures Aware(DoChild(s, pid, act))
  {
    hide Introduced, PlanAware, ChildrenAware, ChildAware, CanAct, ActOf;
    var s' := DoChild(s, pid, act);
    ChildFacts(s, pid);
    ActAware(cap, s.procs[pid], pid, act);
    OneChildAware(s, s', pid);
    assert StaysArmed(s, s');
    RestSame(s, s');
  }

  lemma ActAware(cap: nat, c: Proc, pid: nat, act: Act)
    requires ChildAware(c) && CanAct(cap, c, pid, act)
    ensures ChildAware(ActOf(c, pid, act)) && (ActOf(c, pid, act).pc.Starting? ==> c.pc.Starting?)
  {
  }

  lemma RestSame(s: System, s': System)
    requires Running(s) ==> Introduced(s) && PlanAware(s)
    requires s'.tables == s.tables && s'.pc == s.pc && StaysArmed(s, s')
    ensures Running(s') ==> Introduced(s') && PlanAware(s')
  {
    hide Introduced, ReachesArmed;
    if Running(s) {
      SameIntroduced(s, s');
      if s.pc.Writing? || s.pc.Killing? {
        SameReach(s, s', s.pc.todo);
      }
    }
  }

  lemma ReapKeepsIntroduced(s: System, pid: nat)
    requires DistinctPids(s.tables.entries) && Introduced(s)
    ensures Introduced(DoReap(s, pid))
  {
    hide OwnsExactly, Pids, DistinctPids, Remove, Released;
    var s', es := DoReap(s, pid), s.tables.entries;
    forall i | 0 <= i < |s'.tables.entries| && (s'.tables.entries[i].name != "" || s'.tables.entries[i].room != "")
      ensures Armed(s', s'.tables.entries[i].pid)
    {
      var e := s'.tables.entries[i];
      RemoveMembers(es, pid, e);
      var k :| 0 <= k < |es| && es[k] == e;
      assert Armed(s, es[k].pid);
    }
  }

  lemma AdmitKeepsAware(s: System, pid: nat, toFd: int, fromFd: int)
    requires ChildrenAware(s) && Introduced(s) && pid !in s.procs
    ensures Aware(DoAdmit(s, pid, toFd, fromFd))
  {
    var s' := DoAdmit(s, pid, toFd, fromFd);
    OneChildAware(s, s', pid);
    forall i | 0 <= i < |s'.tables.entries| && (s'.tables.entries[i].name != "" || s'.tables.entries[i].room != "")
      ensures Armed(s', s'.tables.entries[i].pid)
    {
      assert s'.tables.entries[i] == s.tables.entries[i];
    }
  }

  lemma HandledKeepsIntroduced(s: System, s': System, i: nat, posts: seq<Post>)
    requires Introduced(s) && StaysArmed(s, s') && SlotsKept(s.tables.entries, s'.tables.entries)
    requires OthersKept(s.tables.entries, s'.tables.entries, i)
    requires i < |s.tables.entries| && Armed(s, s.tables.entries[i].pid)
    requires ReachesKnown(s.tables.entries, i, posts)
    ensures Introduced(s') && ReachesArmed(s', posts)
  {
    hide Armed;
    var es, es' := s.tables.entries, s'.tables.entries;
    forall j | 0 <= j < |es'| && (es'[j].name != "" || es'[j].room != "") ensures Armed(s', es'[j].pid) {
      assert Armed(s, es[j].pid);
    }
    forall p | p in posts ensures p.slot < |es'| && Armed(s', es'[p.slot].pid) {
      assert Armed(s, es[p.slot].pid);
    }
  }

  /** Something in a child's pipe shows that the child is past its handler. */
  lemma SpokenIsArmed(cap: nat, s: System, pid: nat)
    requires PipesPart(cap, s) && ChildrenAware(s) && pid in s.procs && s.procs[pid].up != ""
    ensures Armed(s, pid)
  {
    PipeFacts(cap, s, pid);
    ChildFacts(s, pid);
    NoBytes(pid, s.procs[pid].backlog);
  }

  lemma EmptiedChild(s: System, s': System, pid: nat)
    requires ChildrenAware(s) && pid in s.procs
    requires s'.procs == s.procs[pid := s.procs[pid].(up := "", backlog := NOTHING_UNREAD)]
    ensures ChildrenAware(s') && StaysArmed(s, s')
  {
    ChildFacts(s, pid);
    OneChildAware(s, s', pid);
  }

  lemma HandledKeepsAware(s: System, s': System, i: nat, out: Outcome, content: string, beyond: string)
    requires ChildrenAware(s) && Introduced(s) && i < |s.tables.entries| && |s.tables.rooms| <= CHAT_ROOM
    requires Armed(s, EntryPid(s, i)) && SlotOf(s.tables.entries, EntryPid(s, i)) == i
    requires out == Handle(s.tables, i, EntryPid(s, i), content, beyond)
    requires var c := s.procs[EntryPid(s, i)];
             s' == WithChild(s, EntryPid(s, i), c.(up := "", backlog := NOTHING_UNREAD)).(tables := out.tables, pc := Writing(i, out.posts))
    ensures Aware(s')
  {
    hide Handle, ChildrenAware, Introduced, ReachesArmed, SlotsKept, OthersKept, ReachesKnown, Armed;
    HandleShape(s.tables, i, EntryPid(s, i), content, beyond);
    InProcs(s, EntryPid(s, i));
    EmptiedChild(s, s', EntryPid(s, i));
    HandledKeepsIntroduced(s, s', i, out.posts);
  }

  lemma InProcs(s: System, pid: nat)
    requires Armed(s, pid)
    ensures pid in s.procs
  {
  }

  lemma ReadKeepsAware(cap: nat, s: System, beyond: string)
    requires Sound(cap, s) && Aware(s) && s.pc.Scanning? && ReadFits(s, ReadRecord(beyond))
    ensures Aware(DoRead(s, s.pc.i, beyond))
  {
    hide Handle, Parse, ChildrenAware, Introduced, TableOk, PipesPart, Drain, TakeRecord, FirstLine;
    var i, s' := s.pc.i, DoRead(s, s.pc.i, beyond);
    if i < |s.tables.entries| {
      EndsOfSlot(s, i);
    }
    if i >= |s.tables.entries| || s.procs[EntryPid(s, i)].up == "" {
      MovesOn(s, s');
    } else {
      SpokenIsArmed(cap, s, EntryPid(s, i));
      RoomsFew(s);
      var out := ReadOutcome(cap, s, i, beyond);
      DrainEmpties(cap, s, EntryPid(s, i));
      HandledKeepsAware(s, s', i, out, WaitingText(s, i), beyond);
    }
  }

  /** Steps that move only the parent's place or its flags. */
  lemma MovesOn(s: System, s': System)
    requires Aware(s) && s'.procs == s.procs && s'.tables == s.tables
    requires Running(s') ==> Running(s)
    requires s'.pc == s.pc || !(s'.pc.Writing? || s'.pc.Killing?)
    ensures Aware(s')
  {
    hide ReachesArmed;
    assert ChildrenAware(s');
    assert StaysArmed(s, s');
    if Running(s') {
      SameIntroduced(s, s');
      if s.pc == s'.pc {
        RestSame(s, s');
      }
    }
  }

  lemma ReachTail(s: System, todo: seq<Post>)
    requires ReachesArmed(s, todo) && todo != []
    ensures todo[0].slot < |s.tables.entries| && Armed(s, s.tables.entries[todo[0].slot].pid)
    ensures ReachesArmed(s, todo[1..])
  {
    assert todo[0] in todo;
    assert forall p :: p in todo[1..] ==> p in todo;
  }

  /** The step changes nothing that awareness looks at, except one child that is armed. */
  lemma ArmedChanged(s: System, s': System, pid: nat, todo: seq<Post>)
    requires ChildrenAware(s) && Introduced(s) && ReachesArmed(s, todo) && s'.tables == s.tables
    requires s'.procs == s.procs || (Armed(s, pid) && s'.procs.Keys == s.procs.Keys
             && s'.procs == s.procs[pid := s.procs[pid].(down := s'.procs[pid].down, pending := s'.procs[pid].pending)])
    ensures ChildrenAware(s') && Introduced(s') && ReachesArmed(s', todo) && StaysArmed(s, s')
  {
    hide ReachesArmed, Introduced;
    if s'.procs != s.procs {
      ChildFacts(s, pid);
      OneChildAware(s, s', pid);
    } else {
      assert ChildrenAware(s');
    }
    assert StaysArmed(s, s');
    SameIntroduced(s, s');
    SameReach(s, s', todo);
  }

  lemma WriteKeepsAware(s: System, ok: bool)
    requires TableOk(s) && Aware(s) && s.pc.Writing?
    ensures Aware(DoWrite(s, s.pc.i, s.pc.todo, ok))
  {
    hide TableOk, ChildrenAware, Introduced, ReachesArmed, StaysArmed, ReaderOf, Armed, Enabled;
    var todo, s' := s.pc.todo, DoWrite(s, s.pc.i, s.pc.todo, ok);
    if todo == [] {
      MovesOn(s, s');
    } else {
      ReachTail(s, todo);
      EndsOfSlot(s, todo[0].slot);
      var pid := s.tables.entries[todo[0].slot].pid;
      ArmedChanged(s, s', pid, todo[1..]);
      StillArmed(s, s', pid);
    }
  }

  lemma StillArmed(s: System, s': System, pid: nat)
    requires StaysArmed(s, s') && Armed(s, pid)
    ensures Armed(s', pid)
  {
  }

  lemma KillKeepsAware(s: System)
    requires Aware(s) && s.pc.Killing?
    ensures Aware(DoKill(s, s.pc.i, s.pc.pid, s.pc.todo))
  {
    hide ChildrenAware, Introduced, ReachesArmed, StaysArmed, Armed;
    ArmedChanged(s, DoKill(s, s.pc.i, s.pc.pid, s.pc.todo), s.pc.pid, s.pc.todo);
  }

  lemma WaitKeepsAware(s: System, pid: nat)
    requires ChildrenAware(s)
    ensures ChildrenAware(s.(procs := s.procs - {pid}))
  {
    OneChildAware(s, s.(procs := s.procs - {pid}), pid);
  }

  lemma ReapKeepsAware(s: System, pid: nat)
    requires s.pc.Reaping? && TableOk(s) && Aware(s)
    ensures Aware(DoReap(s, pid))
  {
    hide ChildrenAware, Introduced, OwnsExactly, Pids, DistinctPids;
    WaitKeepsAware(s, pid);
    OneChildAware(s, DoReap(s, pid), pid);
    ReapKeepsIntroduced(s, pid);
  }

  lemma StepKeepsAware(cap: nat, s: System, e: Event)
    requires Sound(cap, s) && Aware(s) && Enabled(cap, s, e) && ReadFits(s, e)
    ensures Aware(Apply(s, e))
  {
    hide TableOk, PlanPart, PipesPart, ChildrenAware, Introduced, PlanAware, DoReap, DoAdmit, DoRead, DoWrite, DoKill, DoChild,
         DoCloseEntry, ReadFits, CanAct;
    match e
    case Reap(pid) => ReapKeepsAware(s, pid);
    case Admit(pid, toFd, fromFd) => AdmitKeepsAware(s, pid, toFd, fromFd);
    case ReadRecord(beyond) => ReadKeepsAware(cap, s, beyond);
    case WritePost(ok) => WriteKeepsAware(s, ok);
    case SignalChild => KillKeepsAware(s);
    case Child(pid, act) => ActKeepsAware(cap, s, pid, act);
    case WaitForChild(pid) => WaitKeepsAware(s, pid);
    case AcceptError => MovesOn(s, Apply(s, e));
    case BrokenPipe => NoChildren(Apply(s, e));
    case CloseListener => NoChildren(Apply(s, e));
    case CloseEntry => CloseKeepsAware(s);
    case _ => MovesOn(s, Apply(s, e));
  }

  lemma CloseKeepsAware(s: System)
    requires s.pc.Closing? && s.pc.i < |s.tables.entries| && ChildrenAware(s)
    ensures Aware(DoCloseEntry(s, s.pc.i))
  {
  }

  lemma NoChildren(s: System)
    requires s.procs == map[]
    ensures ChildrenAware(s)
  {
  }

  lemma InitAware(listener: int)
    ensures Aware(Init(listener))
  {
  }

  // ------------------------------------------------------------------- runs

  /** Every read of the parent in this run reaches the end of the pipe. */
  predicate Attentive(s: System, run: seq<Event>)
    decreases |run|
  {
    run == [] || (ReadFits(s, run[0]) && Attentive(Apply(s, run[0]), run[1..]))
  }

  lemma {:induction false} RunKeepsAware(cap: nat, s: System, run: seq<Event>)
    requires Sound(cap, s) && Aware(s) && Legal(cap, s, run) && Attentive(s, run)
    ensures Sound(cap, After(s, run)) && Aware(After(s, run))
    decreases |run|
  {
    hide Sound, Aware, Enabled, Apply, ReadFits;
    if run != [] {
      StepKeepsSound(cap, s, run[0]);
      StepKeepsAware(cap, s, run[0]);
      RunKeepsAware(cap, Apply(s, run[0]), run[1..]);
    }
  }

  /** A pipe that holds no more than one read takes is always read to its end. */
  lemma {:induction false} SmallPipesAreRead(cap: nat, s: System, run: seq<Event>)
    requires cap <= READ_MAX && Sound(cap, s) && Legal(cap, s, run)
    ensures Attentive(s, run)
    decreases |run|
  {
    hide Sound, Enabled, Apply, ReadFits;
    if run != [] {
      SmallReadFits(cap, s, run[0]);
      StepKeepsSound(cap, s, run[0]);
      SmallPipesAreRead(cap, Apply(s, run[0]), run[1..]);
    }
  }

  lemma SmallReadFits(cap: nat, s: System, e: Event)
    requires cap <= READ_MAX && Sound(cap, s)
    ensures ReadFits(s, e)
  {
    hide WriterOf;
    if e.ReadRecord? && s.pc.Scanning? && WriterOf(s, s.pc.i).Some? {
      PipeFacts(cap, s, WriterOf(s, s.pc.i).value);
    }
  }

  /** What holds after a run from the start. */
  lemma Reached(cap: nat, listener: int, run: seq<Event>)
    requires Legal(cap, Init(listener), run)
    ensures Sound(cap, After(Init(listener), run))
    ensures cap <= READ_MAX ==> Attentive(Init(listener), run)
    ensures Attentive(Init(listener), run) ==> Aware(After(Init(listener), run))
  {
    hide Sound, Aware, Enabled, Apply, ReadFits;
    InitSound(cap, listener);
    InitAware(listener);
    RunKeepsSound(cap, Init(listener), run);
    if cap <= READ_MAX {
      SmallPipesAreRead(cap, Init(listener), run);
    }
    if Attentive(Init(listener), run) {
      RunKeepsAware(cap, Init(listener), run);
    }
  }

  /**
   The parent signals only unreaped children that have installed their own handler,
   so no wake-up is swallowed by the handler a child inherits from the parent.
   */
  lemma SignalsFindTheirHandler(cap: nat, listener: int, run: seq<Event>, pid: nat)
    requires Legal(cap, Init(listener), run) && Attentive(Init(listener), run)
    ensures var s := After(Init(listener), run);
            && (AboutToSignal(s, pid) ==> pid in s.procs && !s.procs[pid].pc.Starting?)
            && (pid in s.procs && s.procs[pid].pending ==> !s.procs[pid].pc.Starting?)
  {
    hide Sound, Introduced, ReachesArmed, ChildrenAware, Apply, Enabled, ReadFits;
    Reached(cap, listener, run);
    var s := After(Init(listener), run);
    if AboutToSignal(s, pid) {
      assert Armed(s, pid);
    }
    if pid in s.procs {
      ChildFacts(s, pid);
    }
  }

  // --------------------------------------------------------------- wake-ups

  /** The parent is between its write to the child and its `kill`. */
  predicate AboutToSignal(s: System, pid: nat) {
    s.pc.Killing? && s.pc.pid == pid
  }

  /** A living child with unread bytes has been, or is about to be, told. */
  predicate Woken(s: System, pid: nat)
    requires pid in s.procs
  {
    var c := s.procs[pid];
    c.down != "" && !c.pc.Dead? ==> c.flag || c.pending || c.pc.ReadingPipe? || AboutToSignal(s, pid)
  }

  ghost predicate AllWoken(s: System) {
    forall p {:trigger s.procs[p]} {:trigger p in s.procs} :: p in s.procs ==> Woken(s, p)
  }

  /** A child reads more than one read can take, and nobody is about to tell it again. */
  predicate DeafRead(s: System, e: Event) {
    && e.Child? && e.act.ReadPipe? && e.pid in s.procs
    && var c := s.procs[e.pid];
       |c.down| > READ_MAX && !c.flag && !c.pending && !AboutToSignal(s, e.pid)
  }

  lemma ActWakes(cap: nat, s: System, pid: nat, act: Act)
    requires Alive(s, pid) && CanAct(cap, s.procs[pid], pid, act) && ChildAware(s.procs[pid]) && Woken(s, pid)
    ensures Woken(DoChild(s, pid, act), pid) <==> !DeafRead(s, Child(pid, act))
  {
    hide Record, IsMessage;
  }

  lemma OneWoken(s: System, s': System, pid: nat)
    requires AllWoken(s) && s'.procs.Keys <= s.procs.Keys + {pid}
    requires forall p {:trigger s'.procs[p]} :: p in s'.procs && p != pid ==> p in s.procs && s'.procs[p] == s.procs[p]
    requires pid in s'.procs ==> Woken(s', pid)
    requires forall p :: p != pid && AboutToSignal(s, p) ==> AboutToSignal(s', p)
    ensures AllWoken(s')
  {
    forall p | p in s'.procs ensures Woken(s', p) {
      if p != pid {
        assert s'.procs[p] == s.procs[p] && Woken(s, p);
      }
    }
  }

  /** Pipes to the children, their flags and places are as before, and no signal is owed less. */
  lemma SameWoken(s: System, s': System)
    requires AllWoken(s) && s'.procs.Keys <= s.procs.Keys && (s'.pc == s.pc || !s.pc.Killing?)
    requires forall p {:trigger s'.procs[p]} :: p in s'.procs ==>
               s'.procs[p] == s.procs[p].(up := s'.procs[p].up, backlog := s'.procs[p].backlog)
    ensures AllWoken(s')
  {
    forall p | p in s'.procs ensures Woken(s', p) {
      assert Woken(s, p);
    }
  }

  lemma WokenFacts(s: System, pid: nat)
    requires AllWoken(s) && pid in s.procs
    ensures Woken(s, pid)
  {
  }

  lemma WriteWakes(cap: nat, s: System, ok: bool)
    requires TableOk(s) && PlanPart(s) && Enabled(cap, s, WritePost(ok)) && AllWoken(s)
    ensures AllWoken(DoWrite(s, s.pc.i, s.pc.todo, ok))
  {
    hide TableOk, AllWoken, ReaderOf, DoWrite;
    var todo, s' := s.pc.todo, DoWrite(s, s.pc.i, s.pc.todo, ok);
    WriteFills(s, s.pc.i, todo, ok);
    if s'.procs == s.procs {
      SameWoken(s, s');
    } else {
      assert todo[0] in todo;
      EndsOfSlot(s, todo[0].slot);
      OneWoken(s, s', s.tables.entries[todo[0].slot].pid);
    }
  }

  lemma SignalWakes(s: System)
    requires s.pc.Killing? && AllWoken(s)
    ensures AllWoken(Apply(s, SignalChild))
  {
    hide AllWoken;
    var pid, s' := s.pc.pid, Apply(s, SignalChild);
    OneWoken(s, s', pid);
  }

  lemma ReadWakes(s: System, i: nat, beyond: string)
    requires s.pc == Scanning(i) && AllWoken(s)
    ensures AllWoken(DoRead(s, i, beyond))
  {
    hide AllWoken, DoRead, Drain, WriterOf, ReadCrashes;
    var s', q := DoRead(s, i, beyond), WriterOf(s, i);
    if s'.pc.Halted? {
      NobodyWaits(s');
    } else {
      if s'.procs != s.procs {
        DrainsOne(s, q.value);
      }
      SameWoken(s, s');
    }
  }

  /**
   One step keeps the promise "a child with unread bytes has been or is about to be
   told" exactly when it is not a child's read that leaves bytes behind unannounced.
   */
  lemma StepWakes(cap: nat, s: System, e: Event)
    requires Sound(cap, s) && Aware(s) && Enabled(cap, s, e) && AllWoken(s)
    ensures AllWoken(Apply(s, e)) <==> !DeafRead(s, e)
  {
    hide TableOk, PlanPart, PipesPart, Introduced, PlanAware, ChildrenAware, AllWoken, DoReap, DoAdmit, DoRead, DoWrite, DoKill, DoChild, CanAct,
         DeafRead;
    match e
    case ReadRecord(beyond) => ReadWakes(s, s.pc.i, beyond); NotDeaf(s, e);
    case WritePost(ok) => WriteWakes(cap, s, ok); NotDeaf(s, e);
    case SignalChild => SignalWakes(s); NotDeaf(s, e);
    case Admit(pid, toFd, fromFd) => AdmitWakes(s, pid, toFd, fromFd); NotDeaf(s, e);
    case Child(pid, act) => ChildWakes(cap, s, pid, act);
    case BrokenPipe => NobodyWaits(Apply(s, e)); NotDeaf(s, e);
    case _ => SameWoken(s, Apply(s, e)); NotDeaf(s, e);
  }

  lemma NotDeaf(s: System, e: Event)
    requires !e.Child?
    ensures !DeafRead(s, e)
  {
  }

  lemma NobodyWaits(s: System)
    requires s.procs == map[]
    ensures AllWoken(s)
  {
  }

  lemma AdmitWakes(s: System, pid: nat, toFd: int, fromFd: int)
    requires AllWoken(s) && s.pc.Accepting?
    ensures AllWoken(DoAdmit(s, pid, toFd, fromFd))
  {
    OneWoken(s, DoAdmit(s, pid, toFd, fromFd), pid);
  }

  lemma ChildWakes(cap: nat, s: System, pid: nat, act: Act)
    requires ChildrenAware(s) && AllWoken(s) && Enabled(cap, s, Child(pid, act))
    ensures AllWoken(DoChild(s, pid, act)) <==> !DeafRead(s, Child(pid, act))
  {
    hide AllWoken, ChildrenAware, DeafRead, CanAct, ActOf, Woken;
    var s' := DoChild(s, pid, act);
    ChildFacts(s, pid);
    WokenFacts(s, pid);
    ActWakes(cap, s, pid, act);
    if DeafRead(s, Child(pid, act)) {
      if AllWoken(s') {
        WokenFacts(s', pid);
      }
    } else {
      OneWoken(s, s', pid);
    }
  }

  /** In every state of the run, the first and the last included, every child is told of what it has not read. */
  ghost predicate KeepsAwake(s: System, run: seq<Event>)
    decreases |run|
  {
    AllWoken(s) && (run == [] || KeepsAwake(Apply(s, run[0]), run[1..]))
  }

  predicate NeverDeaf(s: System, run: seq<Event>)
    decreases |run|
  {
    run == [] || (!DeafRead(s, run[0]) && NeverDeaf(Apply(s, run[0]), run[1..]))
  }

  lemma {:induction false} AwakeFrom(cap: nat, s: System, run: seq<Event>)
    requires Sound(cap, s) && Aware(s) && AllWoken(s) && Legal(cap, s, run) && Attentive(s, run)
    ensures KeepsAwake(s, run) <==> NeverDeaf(s, run)
    ensures NeverDeaf(s, run) ==> AllWoken(After(s, run))
    decreases |run|
  {
    hide Sound, Aware, AllWoken, Enabled, Apply, ReadFits, DeafRead;
    if run != [] {
      StepWakes(cap, s, run[0]);
      StepKeepsSound(cap, s, run[0]);
      StepKeepsAware(cap, s, run[0]);
      if !DeafRead(s, run[0]) {
        AwakeFrom(cap, Apply(s, run[0]), run[1..]);
      }
    }
  }

  /**
   The exact condition for runs: no wake-up is lost anywhere in the run if and only if
   no child makes a read that leaves bytes behind with nobody about to tell it.
   */
  lemma AwakeIffNeverDeaf(cap: nat, listener: int, run: seq<Event>)
    requires Legal(cap, Init(listener), run) && Attentive(Init(listener), run)
    ensures KeepsAwake(Init(listener), run) <==> NeverDeaf(Init(listener), run)
  {
    hide Sound, Aware, AllWoken, Enabled, Apply, ReadFits, DeafRead;
    InitSound(cap, listener);
    InitAware(listener);
    InitWoken(listener);
    AwakeFrom(cap, Init(listener), run);
  }

  lemma InitWoken(listener: int)
    ensures AllWoken(Init(listener))
  {
  }

  /**
   No lost wake-up from parent to child: unread bytes in a living child's pipe mean
   that its flag is set, or the signal is pending, or the parent is between its
   `write` and its `kill`, or the child is between clearing its flag and its `read`.
   */
  lemma NoLostWakeUp(cap: nat, listener: int, run: seq<Event>, pid: nat)
    requires Legal(cap, Init(listener), run)
    requires Attentive(Init(listener), run) && NeverDeaf(Init(listener), run)
    requires var s := After(Init(listener), run); Alive(s, pid) && s.procs[pid].down != ""
    ensures var s := After(Init(listener), run);
            var c := s.procs[pid];
            c.flag || c.pending || c.pc.ReadingPipe? || AboutToSignal(s, pid)
  {
    hide Sound, Aware, AllWoken, Enabled, Apply, ReadFits, DeafRead;
    InitSound(cap, listener);
    InitAware(listener);
    InitWoken(listener);
    AwakeFrom(cap, Init(listener), run);
    WokenFacts(After(Init(listener), run), pid);
  }

  /** With pipes no larger than one read, every run is attentive and no child is deaf. */
  lemma {:induction false} SmallPipesWake(cap: nat, s: System, run: seq<Event>)
    requires cap <= READ_MAX && Sound(cap, s) && Legal(cap, s, run)
    ensures NeverDeaf(s, run)
    decreases |run|
  {
    hide Sound, Enabled, Apply, DeafRead;
    if run != [] {
      SmallReadHears(cap, s, run[0]);
      StepKeepsSound(cap, s, run[0]);
      SmallPipesWake(cap, Apply(s, run[0]), run[1..]);
    }
  }

  lemma SmallReadHears(cap: nat, s: System, e: Event)
    requires cap <= READ_MAX && Sound(cap, s)
    ensures !DeafRead(s, e)
  {
    if e.Child? && e.pid in s.procs {
      PipeFacts(cap, s, e.pid);
    }
  }
}
