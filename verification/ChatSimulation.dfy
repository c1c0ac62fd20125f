/**
 Whole runs of the concrete system replayed on the abstract state: what the parent's
 tables say is decided by who came, who was reaped and what texts were handled, and
 by nothing else the interleaving does.
 */
module ChatSimulation {
  import opened CStrings
  import opened ChatRecords
  import opened ChatTables
  import opened ChatRefinement
  import opened ChatServer
  import opened ChatSystem
  import opened ChatInvariant
  import opened ChatAwareness

  /** What an event means to the abstract state. */
  datatype Move = Come(pid: nat) | Go(pid: nat) | Ask(pid: nat, text: string, beyond: string) | Stay

  /** The parent is about to read something on slot `pc.i`. */
  predicate TextWaits(s: System) {
    && s.pc.Scanning? && s.pc.i < |s.tables.entries|
    && EntryPid(s, s.pc.i) in s.procs && |Decimal(EntryPid(s, s.pc.i))| < READ_MAX
    && s.procs[EntryPid(s, s.pc.i)].backlog.texts != []
  }

  /** A read asks for what the first line of the oldest text of the slot's own child says. */
  function MoveOf(s: System, e: Event): Move {
    match e
    case Admit(pid, _, _) => Come(pid)
    case Reap(pid) => Go(pid)
    case ReadRecord(beyond) =>
      if TextWaits(s) then Ask(EntryPid(s, s.pc.i), WaitingText(s, s.pc.i), beyond) else Stay
    case _ => Stay
  }

  function Play(a: Abstract, m: Move): Abstract {
    match m
    case Come(pid) => a.(clients := a.clients[pid := Profile("", "")])
    case Go(pid) => a.(clients := a.clients - {pid})
    case Ask(pid, text, beyond) =>
      if pid in a.clients then AbstractStep(a, pid, Classify(text, a.clients[pid].name != "", beyond)) else a
    case Stay => a
  }

  function Moves(s: System, run: seq<Event>): seq<Move>
    decreases |run|
  {
    if run == [] then [] else [MoveOf(s, run[0])] + Moves(Apply(s, run[0]), run[1..])
  }

  function Replay(a: Abstract, moves: seq<Move>): Abstract
    decreases |moves|
  {
    if moves == [] then a else Replay(Play(a, moves[0]), moves[1..])
  }

  lemma ReadSimulates(cap: nat, s: System, beyond: string, a: Abstract)
    requires Sound(cap, s) && Aware(s) && s.pc.Scanning? && Refines(s.tables, a)
    ensures Refines(DoRead(s, s.pc.i, beyond).tables, Play(a, MoveOf(s, ReadRecord(beyond))))
  {
    hide Refines, Handle, AbstractStep, Classify, Parse, Introduced, TableOk, PipesPart, ChildrenAware, FirstLine, Drain, TakeRecord;
    var i := s.pc.i;
    if i < |s.tables.entries| {
      EndsOfSlot(s, i);
      TextsAndBytes(cap, s, EntryPid(s, i));
      if s.procs[EntryPid(s, i)].up != "" {
        var out := ReadOutcome(cap, s, i, beyond);
        HandleRefines(s.tables, i, WaitingText(s, i), beyond, a);
        ClientOfSlot(s.tables, i, a);
      }
    }
  }

  /** A pipe has unread bytes exactly when there are texts they stand for. */
  lemma TextsAndBytes(cap: nat, s: System, pid: nat)
    requires PipesPart(cap, s) && ChildrenAware(s) && pid in s.procs
    ensures s.procs[pid].up == "" <==> s.procs[pid].backlog.texts == []
  {
    PipeFacts(cap, s, pid);
    ChildFacts(s, pid);
    NoBytes(pid, s.procs[pid].backlog);
  }

  lemma ClientOfSlot(t: Tables, i: nat, a: Abstract)
    requires Refines(t, a) && i < |t.entries|
    ensures t.entries[i].pid as int in a.clients && a.clients[t.entries[i].pid] == ProfileOf(t.entries[i])
  {
    KnownClient(t.entries, i, a.clients);
  }

  lemma ArrivalSimulates(t: Tables, e: Entry, a: Abstract)
    requires Refines(t, a) && e.pid as int !in Pids(t.entries) && e.name == "" && e.room == ""
    ensures Refines(t.(entries := t.entries + [e]), Play(a, Come(e.pid)))
  {
    AddRefines(t.entries, e, a.clients);
  }

  lemma DepartureSimulates(t: Tables, pid: nat, a: Abstract)
    requires Refines(t, a)
    ensures Refines(t.(entries := Remove(t.entries, pid)), Play(a, Go(pid)))
  {
    RemoveRefines(t.entries, pid, a.clients);
  }

  /** Every step of the concrete system is one move of the abstract one. */
  lemma StepSimulates(cap: nat, s: System, e: Event, a: Abstract)
    requires Sound(cap, s) && Aware(s) && Enabled(cap, s, e) && Refines(s.tables, a)
    ensures Refines(Apply(s, e).tables, Play(a, MoveOf(s, e)))
  {
    hide Refines, ChildrenAware, Introduced, PlanAware, PipesPart, PlanPart, OwnsExactly, DistinctPids, DoRead, DoWrite, DoKill,
         DoChild, Play, CanAct, ReaderOf, Remove;
    match e
    case Admit(pid, toFd, fromFd) =>
      ArrivalSimulates(s.tables, Entry(pid, "", "", toFd, fromFd, true), a);
    case Reap(pid) =>
      DepartureSimulates(s.tables, pid, a);
    case ReadRecord(beyond) =>
      ReadSimulates(cap, s, beyond, a);
    case _ =>
      Stays(a);
  }

  lemma Stays(a: Abstract)
    ensures Play(a, Stay) == a
  {
  }

  lemma {:induction false} RunFrom(cap: nat, s: System, run: seq<Event>, a: Abstract)
    requires Sound(cap, s) && Aware(s) && Legal(cap, s, run) && Attentive(s, run) && Refines(s.tables, a)
    ensures Refines(After(s, run).tables, Replay(a, Moves(s, run)))
    decreases |run|
  {
    hide Refines, Sound, Aware, ReadFits, Enabled, Apply, MoveOf, Play;
    if run != [] {
      StepSimulates(cap, s, run[0], a);
      StepKeepsSound(cap, s, run[0]);
      StepKeepsAware(cap, s, run[0]);
      RunFrom(cap, Apply(s, run[0]), run[1..], Play(a, MoveOf(s, run[0])));
      assert Moves(s, run)[1..] == Moves(Apply(s, run[0]), run[1..]);
    }
  }

  /**
   Forward simulation: after any run, with any interleaving of children, signals and
   partial progress, the tables refine the abstract state in which the clients came,
   asked and went in the order of the run.
   */
  lemma RunSimulates(cap: nat, listener: int, run: seq<Event>)
    requires Legal(cap, Init(listener), run) && Attentive(Init(listener), run)
    ensures Refines(After(Init(listener), run).tables,
                    Replay(Abstract(map[], []), Moves(Init(listener), run)))
  {
    InitSound(cap, listener);
    InitAware(listener);
    RunFrom(cap, Init(listener), run, Abstract(map[], []));
  }

  /** The run's interleaving does not matter to the tables: equal moves, equal names, rooms and room list. */
  lemma MovesDecideTables(cap: nat, l1: int, run1: seq<Event>, l2: int, run2: seq<Event>, i: nat)
    requires Legal(cap, Init(l1), run1) && Legal(cap, Init(l2), run2)
    requires Attentive(Init(l1), run1) && Attentive(Init(l2), run2)
    requires Moves(Init(l1), run1) == Moves(Init(l2), run2)
    requires i < |After(Init(l1), run1).tables.entries|
    ensures var t1, t2 := After(Init(l1), run1).tables, After(Init(l2), run2).tables;
            && t1.rooms == t2.rooms
            && exists j :: 0 <= j < |t2.entries| && t2.entries[j].pid == t1.entries[i].pid
                           && ProfileOf(t2.entries[j]) == ProfileOf(t1.entries[i])
  {
    RunSimulates(cap, l1, run1);
    RunSimulates(cap, l2, run2);
    var a := Replay(Abstract(map[], []), Moves(Init(l1), run1));
    ClientOfSlot(After(Init(l1), run1).tables, i, a);
    var t2 := After(Init(l2), run2).tables;
    var pid := After(Init(l1), run1).tables.entries[i].pid;
    assert pid as int in Pids(t2.entries);
    var j :| 0 <= j < |t2.entries| && t2.entries[j].pid == pid;
    ClientOfSlot(t2, j, a);
  }
}
