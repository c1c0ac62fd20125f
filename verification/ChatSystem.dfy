/**
 The chat server and its forked children as one transition system: every
 interleaving of the parent, the children, the pipes between them and the
 coalescing signals of section 2.4.1 of POSIX.1-2017 System Interfaces.
 */
module ChatSystem {
  import opened CStrings
  import opened ChatRecords
  import opened ChatTables
  import opened ChatServer

  /** Where a child is; `Starting` is before its signal handler is installed. */
  datatype ChildPc =
    | Starting
    | Checking
    | ReadingPipe                // the flag is cleared, the pipe not yet read
    | ReadingSocket
    | Telling(text: string)      // about to signal the parent
    | Forwarding(text: string)   // has signalled, about to write
    | Dead                       // exited, not yet reaped

  /**
   One child with its two pipes. `down` and `up` are unread bytes; `backlog` recalls
   which client texts the bytes of `up` stand for.
   */
  datatype Proc = Proc(pc: ChildPc, flag: bool, pending: bool, down: string, up: string, backlog: Backlog)

  /** Where the parent is. `todo` are the writes the record of slot `i` still asks for. */
  datatype ParentPc =
    | Top
    | Reaping
    | ClearingExited
    | Accepting
    | Scanning(i: nat)
    | Writing(i: nat, todo: seq<Post>)
    | Killing(i: nat, pid: nat, todo: seq<Post>)   // has written, about to signal
    | Closing(i: nat)   // shutting down; the entries before `i` are closed
    | Halted

  /** One attempted write to a child's pipe. */
  datatype Sent = Sent(pid: nat, bytes: string, ok: bool)

  datatype System = System(
    tables: Tables,
    pc: ParentPc,
    procs: map<nat, Proc>,     // the unreaped children
    open: map<int, End>,        // the parent's descriptors
    listener: int,
    usrPending: bool, usrFlag: bool,
    exitPending: bool, exitFlag: bool,
    log: seq<Sent>)

  datatype Event =
    // the parent
    | LookForExited
    | Reap(pid: nat)
    | NothingToReap
    | ClearExited
    | NoConnection
    | AcceptError
    | NotAdmitted
    | Admit(pid: nat, toFd: int, fromFd: int)
    | ReadRecord(beyond: string)
    | ReadFails
    | WritePost(ok: bool)
    | BrokenPipe
    | SignalChild
    | CloseEntry
    | WaitForChild(pid: nat)
    | CloseListener
    | DeliverToParent
    | DeliverExit
    // child `pid`
    | Child(pid: nat, act: Act)

  /** What a child does, or has done to it. */
  datatype Act =
    | TakeSignal
    | InstallHandler
    | CheckFlag
    | ReadPipe
    | Interrupted                // the read ended early because a handler ran
    | ClientSends(text: string)
    | ClientSilent
    | SignalParent
    | Forward(ok: bool)
    | Die

  predicate IsMessage(text: string) {
    text != "" && NulFree(text)
  }

  // ------------------------------------------------------------------ steps

  /** The child whose pipe end sits behind a descriptor of slot `i`. */
  function ReaderOf(s: System, i: nat): (q: Option<nat>)
    ensures q.Some? ==> q.value in s.procs
  {
    if i < |s.tables.entries| && s.tables.entries[i].toFd in s.open
       && s.open[s.tables.entries[i].toFd].ToChild? && s.open[s.tables.entries[i].toFd].pid in s.procs
    then Some(s.open[s.tables.entries[i].toFd].pid) else None
  }

  function WriterOf(s: System, i: nat): (q: Option<nat>)
    ensures q.Some? ==> q.value in s.procs
  {
    if i < |s.tables.entries| && s.tables.entries[i].fromFd in s.open
       && s.open[s.tables.entries[i].fromFd].FromChild? && s.open[s.tables.entries[i].fromFd].pid in s.procs
    then Some(s.open[s.tables.entries[i].fromFd].pid) else None
  }

  predicate Alive(s: System, pid: nat) {
    pid in s.procs && !s.procs[pid].pc.Dead?
  }

  /** Whether living child `c` can do `act`; `cap` is how many unread bytes a pipe holds. */
  predicate CanAct(cap: nat, c: Proc, pid: nat, act: Act) {
    match act
    case TakeSignal => c.pending
    case InstallHandler => c.pc.Starting?
    case CheckFlag => c.pc.Checking?
    case ReadPipe => c.pc.ReadingPipe?
    case Interrupted => c.pc.ReadingPipe? && c.flag
    case ClientSends(text) => c.pc.ReadingSocket? && IsMessage(text)
    case ClientSilent => c.pc.ReadingSocket?
    case SignalParent => c.pc.Telling?
    case Forward(ok) => c.pc.Forwarding? && (ok ==> |c.up| + |Record(pid, c.pc.text)| <= cap)
    case Die => true
  }

  predicate Enabled(cap: nat, s: System, e: Event) {
    match e
    case LookForExited => s.pc.Top?
    case Reap(pid) => s.pc.Reaping? && pid in s.procs && s.procs[pid].pc.Dead?
    case NothingToReap => s.pc.Reaping? && forall p <- s.procs :: !s.procs[p].pc.Dead?
    case ClearExited => s.pc.ClearingExited?
    case NoConnection => s.pc.Accepting?
    case AcceptError => s.pc.Accepting?
    case NotAdmitted => s.pc.Accepting?
    case Admit(pid, toFd, fromFd) =>
      && s.pc.Accepting? && |s.tables.entries| < MAX_CLIENT
      && 0 < pid <= PID_MAX && pid !in s.procs
      && toFd !in s.open && fromFd !in s.open && toFd != fromFd
    case ReadRecord(_) => s.pc.Scanning?
    case ReadFails => s.pc.Scanning? && s.pc.i < |s.tables.entries|
    case WritePost(ok) =>
      && s.pc.Writing?
      && (s.pc.todo != [] && s.pc.todo[0].bytes != "" ==>
            var q := ReaderOf(s, s.pc.todo[0].slot);
            && q.Some? && Alive(s, q.value)
            && (ok ==> |s.procs[q.value].down| + |s.pc.todo[0].bytes| <= cap))
    case BrokenPipe =>
      && s.pc.Writing? && s.pc.todo != [] && s.pc.todo[0].bytes != ""
      && (var q := ReaderOf(s, s.pc.todo[0].slot); q.Some? && !Alive(s, q.value))
    case SignalChild => s.pc.Killing?
    case CloseEntry => s.pc.Closing? && s.pc.i < |s.tables.entries|
    case WaitForChild(pid) => s.pc.Closing? && s.pc.i >= |s.tables.entries| && pid in s.procs && s.procs[pid].pc.Dead?
    case CloseListener =>
      // no child is left to wait for, or the wait has been interrupted by a signal
      s.pc.Closing? && s.pc.i >= |s.tables.entries| && (s.procs == map[] || s.usrFlag)
    case DeliverToParent => s.usrPending && !s.pc.Halted?
    case DeliverExit => s.exitPending && !s.pc.Halted?
    case Child(pid, act) => Alive(s, pid) && CanAct(cap, s.procs[pid], pid, act)
  }

  function WithChild(s: System, pid: nat, c: Proc): System {
    s.(procs := s.procs[pid := c])
  }

  /** The kernel ends the process and closes what it had open. */
  function Halt(s: System): System {
    s.(pc := Halted, procs := map[], open := map[])
  }

  /** One pass of the shutdown loop. */
  function DoCloseEntry(s: System, i: nat): (s': System)
    requires i < |s.tables.entries|
    ensures s'.pc == Closing(i + 1)
  {
    s.(pc := Closing(i + 1), open := s.open - {s.tables.entries[i].toFd, s.tables.entries[i].fromFd})
  }

  function DoReap(s: System, pid: nat): (s': System)
    ensures s'.pc == s.pc && s'.procs == s.procs - {pid}
  {
    s.(procs := s.procs - {pid},
       open := Released(s.open, s.tables.entries, pid),
       tables := s.tables.(entries := Remove(s.tables.entries, pid)))
  }

  function DoAdmit(s: System, pid: nat, toFd: int, fromFd: int): (s': System)
    ensures s'.pc == Top
  {
    s.(pc := Top,
       procs := s.procs[pid := Proc(Starting, false, false, "", "", NOTHING_UNREAD)],
       open := s.open[toFd := ToChild(pid)][fromFd := FromChild(pid)],
       tables := s.tables.(entries := s.tables.entries + [Entry(pid, "", "", toFd, fromFd, true)]))
  }

  /** One `read` takes what is unread, up to the buffer's size. */
  function Drain(s: System, pid: nat): (s': System)
    requires pid in s.procs
    ensures s' == s.(procs := s'.procs) && s'.procs.Keys == s.procs.Keys
    ensures forall p :: p in s.procs ==> s'.procs[p].down == s.procs[p].down
  {
    var c := s.procs[pid];
    WithChild(s, pid, c.(up := Rest(c.up, READ_MAX), backlog := Skip(pid, c.backlog, READ_MAX)))
  }

  /**
   The first record of the buffer decides what the tables become and what is to be
   written. A record without a sender or a content, and the `/list` of a stranger, end
   the process.
   */
  function TakeRecord(s: System, i: nat, buffer: string, beyond: string): (s': System)
    requires i < |s.tables.entries|
    ensures s'.log == s.log && s'.usrPending == s.usrPending && s'.usrFlag == s.usrFlag
    ensures s'.pc.Halted? ==> s' == Halt(s)
    ensures !s'.pc.Halted? ==> s'.procs == s.procs && s'.pc.Writing? && s'.pc.i == i
  {
    match Parse(buffer)
    case Malformed => Halt(s)
    case Parsed(from, content) =>
      var out := Handle(s.tables, i, from, content, beyond);
      if ListsForStranger(s.tables, from, content) then Halt(s)
      else s.(tables := out.tables, pc := Writing(i, out.posts))
  }

  /** The parent finds something in the pipe of slot `i`. */
  predicate FindsBytes(s: System, i: nat) {
    && i < |s.tables.entries| && s.tables.entries[i].active
    && var q := WriterOf(s, i);
       q.Some? && s.procs[q.value].up != ""
  }

  /**
   Reading slot `i` ends the process: without a sender or a content the parent
   dereferences NULL, and for a stranger's `/list` it uses slot -1.
   */
  predicate ReadCrashes(s: System, i: nat) {
    && FindsBytes(s, i)
    && var parsed := Parse(Take(s.procs[WriterOf(s, i).value].up, READ_MAX));
       parsed.Malformed? || ListsForStranger(s.tables, parsed.pid, parsed.content)
  }

  /** One pass of the scan loop for slot `i`: read what is there, handle its first record. */
  function DoRead(s: System, i: nat, beyond: string): (s': System)
    ensures s'.log == s.log && s'.usrPending == s.usrPending && s'.usrFlag == s.usrFlag
    ensures s'.pc.Halted? ==> s'.procs == map[] && s'.open == map[] && s'.tables == s.tables
    ensures !s'.pc.Halted? ==>
              if i >= |s.tables.entries| then s'.pc == Top else s'.pc == Scanning(i + 1) || (s'.pc.Writing? && s'.pc.i == i)
    ensures !s'.pc.Halted? ==>
              s'.procs == if FindsBytes(s, i) then Drain(s, WriterOf(s, i).value).procs else s.procs
  {
    if i >= |s.tables.entries| then s.(pc := Top)
    else if !FindsBytes(s, i) then s.(pc := Scanning(i + 1))
    else
      var pid := WriterOf(s, i).value;
      TakeRecord(Drain(s, pid), i, Take(s.procs[pid].up, READ_MAX), beyond)
  }

  lemma CrashHalts(s: System, i: nat, beyond: string)
    ensures DoRead(s, i, beyond).pc.Halted? <==> ReadCrashes(s, i)
  {
    hide Handle, Parse, WriterOf, Drain, ListsForStranger, Take;
  }

  /** The next write of the plan; an empty one returns 0 and is followed by no signal. */
  function DoWrite(s: System, i: nat, todo: seq<Post>, ok: bool): (s': System)
    ensures s'.tables == s.tables && s'.open == s.open && s'.listener == s.listener
    ensures s'.procs.Keys == s.procs.Keys && (s'.pc.Scanning? || s'.pc.Writing? || s'.pc.Killing?)
  {
    if todo == [] then s.(pc := Scanning(i + 1))
    else
      var p, q := todo[0], ReaderOf(s, todo[0].slot);
      if p.bytes == "" || q.None? then s.(pc := Writing(i, todo[1..]))
      else if !ok then s.(pc := Writing(i, todo[1..]), log := s.log + [Sent(q.value, p.bytes, false)])
      else
        var c := s.procs[q.value];
        WithChild(s, q.value, c.(down := c.down + p.bytes)).(
          pc := Killing(i, s.tables.entries[p.slot].pid, todo[1..]),
          log := s.log + [Sent(q.value, p.bytes, true)])
  }

  function DoKill(s: System, i: nat, pid: nat, todo: seq<Post>): (s': System)
    ensures s'.tables == s.tables && s'.open == s.open && s'.listener == s.listener
    ensures s'.procs.Keys == s.procs.Keys && s'.pc == Writing(i, todo)
  {
    var next := s.(pc := Writing(i, todo));
    if Alive(s, pid) then WithChild(next, pid, s.procs[pid].(pending := true)) else next
  }

  function ActOf(c: Proc, pid: nat, act: Act): Proc {
    match act
    case TakeSignal =>
      // before its own handler is installed the one inherited from the parent runs
      if c.pc.Starting? then c.(pending := false) else c.(pending := false, flag := true)
    case InstallHandler => c.(pc := Checking)
    case CheckFlag => if c.flag then c.(flag := false, pc := ReadingPipe) else c.(pc := ReadingSocket)
    case ReadPipe => c.(down := Rest(c.down, READ_MAX), pc := ReadingSocket)
    case Interrupted => c.(pc := ReadingSocket)
    case ClientSends(text) => c.(pc := Telling(text))
    case ClientSilent => c.(pc := Checking)
    case SignalParent => if c.pc.Telling? then c.(pc := Forwarding(c.pc.text)) else c
    case Forward(ok) =>
      if c.pc.Forwarding? && ok
      then c.(pc := Checking, up := c.up + Record(pid, c.pc.text), backlog := Append(c.backlog, c.pc.text))
      else c.(pc := Checking)
    case Die => c.(pc := Dead)
  }

  /** A step of child `pid`; forwarding raises the parent's signal, dying its SIGCHLD. */
  function DoChild(s: System, pid: nat, act: Act): (s': System)
    ensures s'.tables == s.tables && s'.open == s.open && s'.listener == s.listener
    ensures s'.procs.Keys == s.procs.Keys && s'.pc == s.pc && s'.log == s.log
  {
    if pid !in s.procs then s
    else
      WithChild(s, pid, ActOf(s.procs[pid], pid, act)).(
        usrPending := s.usrPending || act.SignalParent?,
        exitPending := s.exitPending || act.Die?)
  }

  function Apply(s: System, e: Event): System {
    match e
    case LookForExited => s.(pc := if s.exitFlag then Reaping else Accepting)
    case Reap(pid) => DoReap(s, pid)
    case NothingToReap => s.(pc := ClearingExited)
    case ClearExited => s.(pc := Accepting, exitFlag := false)
    case NoConnection => if s.usrFlag then s.(pc := Scanning(0), usrFlag := false) else s.(pc := Top)
    case AcceptError => s.(pc := Closing(0))
    case NotAdmitted => s.(pc := Top)
    case Admit(pid, toFd, fromFd) => DoAdmit(s, pid, toFd, fromFd)
    case ReadRecord(beyond) => if s.pc.Scanning? then DoRead(s, s.pc.i, beyond) else s
    case ReadFails => if s.pc.Scanning? then s.(pc := Scanning(s.pc.i + 1)) else s
    case WritePost(ok) => if s.pc.Writing? then DoWrite(s, s.pc.i, s.pc.todo, ok) else s
    case BrokenPipe => Halt(s)
    case SignalChild => if s.pc.Killing? then DoKill(s, s.pc.i, s.pc.pid, s.pc.todo) else s
    case CloseEntry => if s.pc.Closing? && s.pc.i < |s.tables.entries| then DoCloseEntry(s, s.pc.i) else s
    case WaitForChild(pid) => s.(procs := s.procs - {pid})
    case CloseListener => s.(pc := Halted, procs := map[], open := s.open - {s.listener})
    case DeliverToParent => s.(usrPending := false, usrFlag := true)
    case DeliverExit => s.(exitPending := false, exitFlag := true)
    case Child(pid, act) => DoChild(s, pid, act)
  }

  // ------------------------------------------------------------------- runs

  function Init(listener: int): System {
    System(Tables([], []), Top, map[], map[listener := Listener], listener, false, false, false, false, [])
  }

  /** Every event of the run is enabled where it happens. */
  predicate Legal(cap: nat, s: System, run: seq<Event>)
    decreases |run|
  {
    run == [] || (Enabled(cap, s, run[0]) && Legal(cap, Apply(s, run[0]), run[1..]))
  }

  function After(s: System, run: seq<Event>): System
    decreases |run|
  {
    if run == [] then s else After(Apply(s, run[0]), run[1..])
  }

  /** Two runs, one after the other. */
  lemma {:induction false} RunsJoin(cap: nat, s: System, first: seq<Event>, second: seq<Event>)
    requires Legal(cap, s, first) && Legal(cap, After(s, first), second)
    ensures Legal(cap, s, first + second) && After(s, first + second) == After(After(s, first), second)
    decreases |first|
  {
    hide Enabled, Apply;
    if first == [] {
      assert first + second == second;
    } else {
      assert (first + second)[1..] == first[1..] + second;
      RunsJoin(cap, Apply(s, first[0]), first[1..], second);
    }
  }

  ghost predicate Reaches(cap: nat, s: System, s': System) {
    exists run :: Legal(cap, s, run) && After(s, run) == s'
  }

  /** Some run from the start of the server ends here. */
  ghost predicate Reachable(cap: nat, s: System) {
    exists listener :: Reaches(cap, Init(listener), s)
  }

  lemma StepReaches(cap: nat, s: System, s': System, e: Event)
    requires Reaches(cap, s, s') && Enabled(cap, s', e)
    ensures Reaches(cap, s, Apply(s', e))
  {
    hide Enabled, Apply;
    var run :| Legal(cap, s, run) && After(s, run) == s';
    assert Legal(cap, s', [e]) && After(s', [e]) == Apply(s', e);
    RunsJoin(cap, s, run, [e]);
  }

  lemma StartReaches(cap: nat, s: System)
    ensures Reaches(cap, s, s)
  {
    assert Legal(cap, s, []) && After(s, []) == s;
  }
}
