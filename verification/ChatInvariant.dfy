/**
 What every step of the chat system keeps. `Sound` ties the parent's table, its
 descriptors, the children and the bytes in their pipes together; it holds in every
 run. `Aware` says that the parent deals only with children that are past the
 installation of their handler; it holds as long as each read of the parent reaches
 the end of the pipe.
 */
module ChatInvariant {
  import opened CStrings
  import opened ChatRecords
  import opened ChatCommands
  import opened ChatTables
  import opened ChatRefinement
  import opened ChatServer
  import opened ChatSystem

  // ---------------------------------------------------------------- soundness

  /** One entry per unreaped child, and the descriptors are the entries'. */
  ghost predicate TableOk(s: System) {
    && DistinctPids(s.tables.entries)
    && (forall p: nat :: p in s.procs <==> p as int in Pids(s.tables.entries))
    && OwnsExactly(s.open, s.listener, s.tables.entries)
    && (forall i {:trigger s.tables.entries[i]} :: 0 <= i < |s.tables.entries| ==>
          s.tables.entries[i].active && s.tables.entries[i].pid <= PID_MAX)
    && |s.tables.entries| <= MAX_CLIENT && |s.tables.rooms| <= CHAT_ROOM
  }

  /** Shutting down: what is still open belongs to the entries from `i` on. */
  ghost predicate OwedFrom(s: System, i: nat) {
    && i <= |s.tables.entries| && DistinctPids(s.tables.entries[i..])
    && OwnsExactly(s.open, s.listener, s.tables.entries[i..])
  }

  ghost predicate TablePart(s: System) {
    match s.pc
    case Halted => s.procs == map[] && s.open == map[]
    case Closing(i) => OwedFrom(s, i)
    case _ => TableOk(s)
  }

  predicate Running(s: System) {
    !s.pc.Halted? && !s.pc.Closing?
  }

  predicate PostsFit(es: seq<Entry>, todo: seq<Post>) {
    forall p <- todo :: p.slot < |es|
  }

  /** The writes still to be made go to slots of the table. */
  ghost predicate PlanPart(s: System) {
    match s.pc
    case Writing(i, todo) => i < |s.tables.entries| && PostsFit(s.tables.entries, todo)
    case Killing(i, pid, todo) => i < |s.tables.entries| && PostsFit(s.tables.entries, todo) && pid in s.procs
    case _ => true
  }

  /** The bytes a child has sent are what its backlog says, and fit the pipe. */
  ghost predicate PipeOk(cap: nat, pid: nat, c: Proc) {
    && c.up == Bytes(pid, c.backlog) && (forall t :: t in c.backlog.texts ==> IsMessage(t))
    && |c.up| <= cap && |c.down| <= cap
    && (c.pc.Telling? ==> IsMessage(c.pc.text)) && (c.pc.Forwarding? ==> IsMessage(c.pc.text))
  }

  ghost predicate PipesPart(cap: nat, s: System) {
    forall p {:trigger s.procs[p]} {:trigger p in s.procs} :: p in s.procs ==> PipeOk(cap, p, s.procs[p])
  }

  ghost predicate Sound(cap: nat, s: System) {
    TablePart(s) && PlanPart(s) && PipesPart(cap, s)
  }

  // ---------------------------------------------------------------- awareness

  predicate Armed(s: System, pid: nat) {
    pid in s.procs && !s.procs[pid].pc.Starting?
  }

  /** Nothing reaches a child before its handler, and no record in its pipe is cut. */
  predicate ChildAware(c: Proc) {
    && c.backlog.cut == ""
    && (c.pc.Starting? ==> c.backlog == NOTHING_UNREAD && c.down == "" && !c.pending)
  }

  ghost predicate ChildrenAware(s: System) {
    forall p {:trigger s.procs[p]} {:trigger p in s.procs} :: p in s.procs ==> ChildAware(s.procs[p])
  }

  /** Only a child that has sent something has a name or a room. */
  ghost predicate Introduced(s: System) {
    forall i {:trigger s.tables.entries[i]} :: 0 <= i < |s.tables.entries| ==>
      (s.tables.entries[i].name != "" || s.tables.entries[i].room != "" ==> Armed(s, s.tables.entries[i].pid))
  }

  ghost predicate ReachesArmed(s: System, todo: seq<Post>) {
    forall p :: p in todo ==> p.slot < |s.tables.entries| && Armed(s, s.tables.entries[p.slot].pid)
  }

  ghost predicate PlanAware(s: System) {
    match s.pc
    case Writing(i, todo) => ReachesArmed(s, todo)
    case Killing(i, pid, todo) => ReachesArmed(s, todo) && Armed(s, pid)
    case _ => true
  }

  ghost predicate Aware(s: System) {
    ChildrenAware(s) && (Running(s) ==> Introduced(s) && PlanAware(s))
  }

  // --------------------------------------------------- what one record does

  /** Handling a record, whoever it claims to be from, moves no slot and renames nobody. */
  ghost predicate SlotsKept(es: seq<Entry>, es': seq<Entry>) {
    && |es'| == |es|
    && forall j {:trigger es'[j]} {:trigger es[j]} :: 0 <= j < |es| ==>
         && es'[j] == es[j].(name := es'[j].name, room := es'[j].room)
         && (es[j].name != "" ==> es'[j].name == es[j].name)
  }

  /** A record from slot `i` itself leaves the other slots alone, but for evictions. */
  ghost predicate OthersKept(es: seq<Entry>, es': seq<Entry>, i: nat)
    requires SlotsKept(es, es')
  {
    forall j {:trigger es'[j]} {:trigger es[j]} :: 0 <= j < |es| && j != i ==>
      es'[j].name == es[j].name && (es'[j].room == es[j].room || es'[j].room == "")
  }

  ghost predicate ReachesKnown(es: seq<Entry>, i: nat, posts: seq<Post>) {
    forall p :: p in posts ==>
      p.slot < |es| && (p.slot == i || es[p.slot].name != "" || es[p.slot].room != "")
  }

  lemma CommandShape(t: Tables, from: int, content: string, beyond: string)
    requires |t.rooms| <= CHAT_ROOM
    ensures var out := HandleCommand(t, from, content, beyond);
            && SlotsKept(t.entries, out.tables.entries) && OthersKept(t.entries, out.tables.entries, SlotOf(t.entries, from))
            && (forall p :: p in out.posts ==> p.slot < |t.entries| && p.slot == SlotOf(t.entries, from))
            && |out.tables.rooms| <= CHAT_ROOM
            && (out.posts != [] ==> out.tables == t)
  {
    hide CheckCommand, SlotOf, Clip, Argument;
    var k := SlotOf(t.entries, from);
    match CommandKind(content)
    case List =>
      ListPostsAreRooms(t.rooms, k);
    case Users =>
      if k < |t.entries| {
        UsersPostsAreMembers(t.entries, k, |t.entries|);
      }
    case _ =>
  }

  lemma HandleShape(t: Tables, i: nat, from: int, content: string, beyond: string)
    requires i < |t.entries| && |t.rooms| <= CHAT_ROOM
    ensures var out := Handle(t, i, from, content, beyond);
            && SlotsKept(t.entries, out.tables.entries)
            && PostsFit(t.entries, out.posts)
            && |out.tables.rooms| <= CHAT_ROOM
            && (out.posts != [] ==> out.tables == t)
            && (SlotOf(t.entries, from) == i ==>
                  OthersKept(t.entries, out.tables.entries, i) && ReachesKnown(t.entries, i, out.posts))
  {
    hide HandleCommand, CheckCommand, SlotOf, Clip, Argument;
    var e := t.entries[i];
    if content != "" && content[0] == '/' {
      CommandShape(t, from, content, beyond);
    } else if e.name != "" && (content == "" || content[0] != '!') {
      SayPostsUpTo(t.entries, e.room, ChatLine(e, content), |t.entries|);
    }
  }

  lemma SlotsKeepTable(open: map<int, End>, listener: int, es: seq<Entry>, es': seq<Entry>)
    requires SlotsKept(es, es') && DistinctPids(es) && OwnsExactly(open, listener, es)
    ensures DistinctPids(es') && Pids(es') == Pids(es) && OwnsExactly(open, listener, es')
  {
    SamePids(es, es');
    forall fd | fd in open ensures fd == listener || HeldBy(es', fd) {
      if fd != listener {
        var k :| 0 <= k < |es| && (es[k].toFd == fd || es[k].fromFd == fd);
        assert es'[k].toFd == es[k].toFd && es'[k].fromFd == es[k].fromFd;
      }
    }
  }

  /** Behind the descriptors of slot `i` sit the two pipes of that slot's child. */
  lemma EndsOfSlot(s: System, i: nat)
    requires TableOk(s) && i < |s.tables.entries|
    ensures ReaderOf(s, i) == Some(s.tables.entries[i].pid) && WriterOf(s, i) == Some(s.tables.entries[i].pid)
    ensures s.tables.entries[i].pid in s.procs && s.tables.entries[i].active
  {
    assert s.tables.entries[i].pid as int in Pids(s.tables.entries);
  }

  function EntryPid(s: System, i: nat): (p: nat)
    requires i < |s.tables.entries|
  {
    s.tables.entries[i].pid
  }

  // -------------------------------------------------- soundness: the table

  lemma SameTableOk(s: System, s': System)
    requires TableOk(s) && s'.tables == s.tables && s'.open == s.open && s'.listener == s.listener
    requires s'.procs.Keys == s.procs.Keys
    ensures TableOk(s')
  {
    hide DistinctPids, OwnsExactly, Pids;
    assert forall p :: p in s'.procs <==> p in s.procs;
  }

  lemma RemoveKeepsOwnership(open: map<int, End>, listener: int, es: seq<Entry>, pid: int)
    requires OwnsExactly(open, listener, es) && DistinctPids(es)
    ensures OwnsExactly(Released(open, es, pid), listener, Remove(es, pid)) && DistinctPids(Remove(es, pid))
  {
    hide OwnsExactly, DistinctPids;
    RemoveKeepsDistinct(es, pid);
    if SlotOf(es, pid) < |es| {
      RemovalKeepsOwnership(open, listener, es, SlotOf(es, pid));
    }
  }

  lemma ReapKeepsTable(s: System, pid: nat)
    requires TableOk(s) && pid in s.procs
    ensures TableOk(DoReap(s, pid))
  {
    hide DistinctPids, OwnsExactly, Pids;
    var es := s.tables.entries;
    RemoveKeepsOwnership(s.open, s.listener, es, pid);
    forall p: nat ensures p in s.procs - {pid} <==> p as int in Pids(Remove(es, pid)) {
      RemovePids(es, pid, p);
    }
    forall i | 0 <= i < |Remove(es, pid)| ensures Remove(es, pid)[i] in es {
      RemoveMembers(es, pid, Remove(es, pid)[i]);
    }
  }

  lemma AdmitKeepsTable(s: System, pid: nat, toFd: int, fromFd: int)
    requires TableOk(s) && |s.tables.entries| < MAX_CLIENT && pid !in s.procs && pid <= PID_MAX
    requires toFd !in s.open && fromFd !in s.open && toFd != fromFd
    ensures TableOk(DoAdmit(s, pid, toFd, fromFd))
  {
    hide OwnsExactly, Pids, DistinctPids;
    var s', es := DoAdmit(s, pid, toFd, fromFd), s.tables.entries;
    var e := Entry(pid, "", "", toFd, fromFd, true);
    AdmissionKeepsOwnership(s.open, s.listener, es, e);
    AppendPid(es, e);
    assert forall p: nat :: p in s'.procs <==> p as int in Pids(es + [e]);
  }

  lemma HandledKeepsTable(s: System, s': System)
    requires TableOk(s) && SlotsKept(s.tables.entries, s'.tables.entries) && |s'.tables.rooms| <= CHAT_ROOM
    requires s'.open == s.open && s'.listener == s.listener && s'.procs.Keys == s.procs.Keys
    ensures TableOk(s')
  {
    hide DistinctPids, OwnsExactly, Pids;
    SlotsKeepTable(s.open, s.listener, s.tables.entries, s'.tables.entries);
    assert forall p :: p in s'.procs <==> p in s.procs;
  }

  lemma TakeKeepsTable(s: System, i: nat, buffer: string, beyond: string)
    requires TableOk(s) && i < |s.tables.entries|
    ensures var s' := TakeRecord(s, i, buffer, beyond);
            && TablePart(s') && PlanPart(s') && SlotsKept(s.tables.entries, s'.tables.entries)
  {
    hide TableOk, Handle, Parse, SlotOf, ListsForStranger;
    RoomsFew(s);
    match Parse(buffer)
    case Malformed =>
    case Parsed(from, content) =>
      HandleShape(s.tables, i, from, content, beyond);
      if !ListsForStranger(s.tables, from, content) {
        HandledKeepsTable(s, TakeRecord(s, i, buffer, beyond));
      }
  }

  /**
   Whatever the parent reads on a slot, the table and the plan stay in order, unless it
   is a read that ends the process; then nothing is left open.
   */
  lemma ReadKeepsTable(s: System, i: nat, beyond: string)
    requires TableOk(s) && s.pc == Scanning(i)
    ensures var s' := DoRead(s, i, beyond);
            && TablePart(s') && PlanPart(s') && !s'.pc.Closing? && SlotsKept(s.tables.entries, s'.tables.entries)
  {
    hide TableOk, TakeRecord, Drain, ReadCrashes;
    var q := WriterOf(s, i);
    if i < |s.tables.entries| && s.tables.entries[i].active && q.Some? && s.procs[q.value].up != "" {
      SameTableOk(s, Drain(s, q.value));
      TakeKeepsTable(Drain(s, q.value), i, Take(s.procs[q.value].up, READ_MAX), beyond);
    } else {
      SameTableOk(s, DoRead(s, i, beyond));
    }
  }

  lemma RoomsFew(s: System)
    requires TableOk(s)
    ensures |s.tables.rooms| <= CHAT_ROOM
  {
  }

  /** One pass of the shutdown loop closes two descriptors that are open, and pays what is owed for the entry. */
  lemma CloseKeepsTable(s: System, i: nat)
    requires s.pc == Closing(i) && OwedFrom(s, i) && i < |s.tables.entries|
    ensures s.tables.entries[i].toFd in s.open && s.tables.entries[i].fromFd in s.open
    ensures OwedFrom(DoCloseEntry(s, i), i + 1)
  {
    hide DistinctPids;
    var rest := s.tables.entries[i..];
    assert rest[0] == s.tables.entries[i];
    RemovalKeepsOwnership(s.open, s.listener, rest, 0);
    DropKeepsDistinct(rest, 0);
    assert rest[..0] + rest[1..] == s.tables.entries[i + 1..];
  }

  /** After the last entry only the listener is left to close. */
  lemma NothingOwed(s: System)
    requires s.pc.Closing? && OwedFrom(s, s.pc.i) && s.pc.i >= |s.tables.entries|
    ensures s.open - {s.listener} == map[]
  {
    assert s.tables.entries[s.pc.i..] == [];
    assert forall fd :: fd in s.open ==> fd == s.listener;
  }

  lemma StepKeepsTable(cap: nat, s: System, e: Event)
    requires TablePart(s) && Enabled(cap, s, e)
    ensures TablePart(Apply(s, e))
  {
    hide TableOk, OwedFrom, DoReap, DoAdmit, DoRead, DoWrite, DoKill, DoChild, DoCloseEntry, Handle;
    match e
    case Reap(pid) => ReapKeepsTable(s, pid);
    case Admit(pid, toFd, fromFd) => AdmitKeepsTable(s, pid, toFd, fromFd);
    case ReadRecord(beyond) => ReadKeepsTable(s, s.pc.i, beyond);
    case CloseEntry => CloseKeepsTable(s, s.pc.i);
    case CloseListener => NothingOwed(s);
    case AcceptError => OwedAtFirst(s);
    case BrokenPipe =>
    case _ => OthersKeepTable(cap, s, e);
  }

  lemma OwedAtFirst(s: System)
    requires TableOk(s)
    ensures OwedFrom(s.(pc := Closing(0)), 0)
  {
    hide DistinctPids, OwnsExactly;
    assert s.tables.entries[0..] == s.tables.entries;
  }

  /** The other steps touch neither tables nor descriptors. */
  predicate KeepsTables(e: Event) {
    !e.Reap? && !e.Admit? && !e.ReadRecord? && !e.CloseEntry? && !e.CloseListener? && !e.AcceptError? && !e.BrokenPipe?
  }

  lemma OthersFrame(cap: nat, s: System, e: Event)
    requires Enabled(cap, s, e) && KeepsTables(e)
    ensures var s' := Apply(s, e);
            && s'.tables == s.tables && s'.open == s.open && s'.listener == s.listener
            && (e.WaitForChild? ==> s.pc.Closing?)
            && (s'.pc.Closing? <==> s.pc.Closing?) && (s'.pc.Closing? ==> s'.pc == s.pc)
            && (s'.pc.Halted? <==> s.pc.Halted?)
            && (if e.WaitForChild? then s'.procs == s.procs - {e.pid} else s'.procs.Keys == s.procs.Keys)
  {
    hide CanAct, DoWrite, DoKill, DoChild, ReaderOf;
  }

  lemma OthersKeepTable(cap: nat, s: System, e: Event)
    requires TablePart(s) && Enabled(cap, s, e) && KeepsTables(e)
    ensures TablePart(Apply(s, e))
  {
    hide TableOk, OwedFrom, Apply, Enabled;
    OthersFrame(cap, s, e);
    var s' := Apply(s, e);
    match s.pc
    case Halted =>
      assert s'.procs.Keys == {} || s'.procs == map[];
    case Closing(i) => SameOwed(s, s', i);
    case _ => SameTableOk(s, s');
  }

  lemma SameOwed(s: System, s': System, i: nat)
    requires OwedFrom(s, i) && s'.tables == s.tables && s'.open == s.open && s'.listener == s.listener
    ensures OwedFrom(s', i)
  {
  }

  // --------------------------------------------- soundness: plan and pipes

  lemma WriteKeepsPlan(cap: nat, s: System, ok: bool)
    requires TableOk(s) && PlanPart(s) && Enabled(cap, s, WritePost(ok))
    ensures PlanPart(DoWrite(s, s.pc.i, s.pc.todo, ok))
  {
    hide TableOk, ReaderOf;
    var todo := s.pc.todo;
    if todo != [] {
      assert todo[0] in todo && forall p :: p in todo[1..] ==> p in todo;
      EndsOfSlot(s, todo[0].slot);
    }
  }

  lemma StepKeepsPlan(cap: nat, s: System, e: Event)
    requires TablePart(s) && PlanPart(s) && Enabled(cap, s, e)
    ensures PlanPart(Apply(s, e))
  {
    hide TableOk, OwedFrom, DoReap, DoAdmit, DoRead, DoWrite, DoKill, DoChild, DoCloseEntry;
    match e
    case ReadRecord(beyond) => ReadKeepsTable(s, s.pc.i, beyond);
    case WritePost(ok) => WriteKeepsPlan(cap, s, ok);
    case _ =>
  }

  lemma ActKeepsPipe(cap: nat, c: Proc, pid: nat, act: Act)
    requires PipeOk(cap, pid, c) && CanAct(cap, c, pid, act)
    ensures PipeOk(cap, pid, ActOf(c, pid, act))
  {
    hide Bytes, Record;
    if act.Forward? && act.ok {
      BytesAppend(pid, c.backlog, c.pc.text);
    }
  }

  lemma DrainKeepsPipe(cap: nat, s: System, pid: nat)
    requires pid in s.procs && PipeOk(cap, pid, s.procs[pid])
    ensures PipeOk(cap, pid, Drain(s, pid).procs[pid])
  {
    hide Bytes, Skip;
    BytesAfterSkip(pid, s.procs[pid].backlog, READ_MAX);
  }

  /** Child `pid` alone has changed. */
  lemma OnePipeOk(cap: nat, s: System, s': System, pid: nat)
    requires PipesPart(cap, s) && s'.procs.Keys <= s.procs.Keys + {pid}
    requires forall p {:trigger s'.procs[p]} :: p in s'.procs && p != pid ==> p in s.procs && s'.procs[p] == s.procs[p]
    requires pid in s'.procs ==> PipeOk(cap, pid, s'.procs[pid])
    ensures PipesPart(cap, s')
  {
    hide PipeOk;
  }

  lemma PipeFacts(cap: nat, s: System, pid: nat)
    requires PipesPart(cap, s) && pid in s.procs
    ensures PipeOk(cap, pid, s.procs[pid])
  {
  }

  lemma ReadKeepsPipes(cap: nat, s: System, i: nat, beyond: string)
    requires PipesPart(cap, s)
    ensures PipesPart(cap, DoRead(s, i, beyond))
  {
    hide PipeOk, Drain, DoRead, WriterOf, ReadCrashes;
    var s', q := DoRead(s, i, beyond), WriterOf(s, i);
    if !s'.pc.Halted? && s'.procs != s.procs {
      DrainKeepsPipe(cap, s, q.value);
      DrainsOne(s, q.value);
      OnePipeOk(cap, s, s', q.value);
    }
  }

  lemma DrainsOne(s: System, pid: nat)
    requires pid in s.procs
    ensures var c := s.procs[pid];
            Drain(s, pid).procs == s.procs[pid := c.(up := Rest(c.up, READ_MAX), backlog := Skip(pid, c.backlog, READ_MAX))]
  {
  }

  /** A write that succeeds goes to the end of one pipe. */
  lemma WriteFills(s: System, i: nat, todo: seq<Post>, ok: bool)
    ensures var s' := DoWrite(s, i, todo, ok);
            || s'.procs == s.procs
            || (todo != [] && todo[0].bytes != "" && ok
                && var q := ReaderOf(s, todo[0].slot);
                   q.Some? && s'.procs == s.procs[q.value := s.procs[q.value].(down := s.procs[q.value].down + todo[0].bytes)]
                           && s'.pc == Killing(i, s.tables.entries[todo[0].slot].pid, todo[1..]))
  {
    hide ReaderOf;
  }

  lemma WriteKeepsPipes(cap: nat, s: System, ok: bool)
    requires PipesPart(cap, s) && Enabled(cap, s, WritePost(ok))
    ensures PipesPart(cap, DoWrite(s, s.pc.i, s.pc.todo, ok))
  {
    hide ReaderOf, PipeOk, DoWrite;
    var s', todo := DoWrite(s, s.pc.i, s.pc.todo, ok), s.pc.todo;
    WriteFills(s, s.pc.i, todo, ok);
    if s'.procs != s.procs {
      var pid := ReaderOf(s, todo[0].slot).value;
      PipeFacts(cap, s, pid);
      LongerDown(cap, pid, s.procs[pid], todo[0].bytes);
      OnePipeOk(cap, s, s', pid);
    }
  }

  lemma LongerDown(cap: nat, pid: nat, c: Proc, bytes: string)
    requires PipeOk(cap, pid, c) && |c.down| + |bytes| <= cap
    ensures PipeOk(cap, pid, c.(down := c.down + bytes))
  {
  }

  lemma StepKeepsPipes(cap: nat, s: System, e: Event)
    requires PipesPart(cap, s) && Enabled(cap, s, e)
    ensures PipesPart(cap, Apply(s, e))
  {
    hide PipeOk, DoRead, DoWrite, DoAdmit, CanAct, ActOf;
    match e
    case ReadRecord(beyond) => ReadKeepsPipes(cap, s, s.pc.i, beyond);
    case WritePost(ok) => WriteKeepsPipes(cap, s, ok);
    case Admit(pid, toFd, fromFd) => AdmitKeepsPipes(cap, s, pid, toFd, fromFd);
    case SignalChild =>
      if Alive(s, s.pc.pid) {
        PendingKeepsPipe(cap, s, s.pc.pid);
        OnePipeOk(cap, s, Apply(s, e), s.pc.pid);
      }
    case Child(pid, act) =>
      ActKeepsPipe(cap, s.procs[pid], pid, act);
      OnePipeOk(cap, s, Apply(s, e), pid);
    case _ =>
  }

  lemma PendingKeepsPipe(cap: nat, s: System, pid: nat)
    requires PipesPart(cap, s) && pid in s.procs
    ensures PipeOk(cap, pid, s.procs[pid].(pending := true))
  {
    PipeFacts(cap, s, pid);
  }

  lemma AdmitKeepsPipes(cap: nat, s: System, pid: nat, toFd: int, fromFd: int)
    requires PipesPart(cap, s)
    ensures PipesPart(cap, DoAdmit(s, pid, toFd, fromFd))
  {
    OnePipeOk(cap, s, DoAdmit(s, pid, toFd, fromFd), pid);
  }

  lemma StepKeepsSound(cap: nat, s: System, e: Event)
    requires Sound(cap, s) && Enabled(cap, s, e)
    ensures Sound(cap, Apply(s, e))
  {
    hide TablePart, PlanPart, PipesPart, Enabled, Apply;
    StepKeepsTable(cap, s, e);
    StepKeepsPlan(cap, s, e);
    StepKeepsPipes(cap, s, e);
  }

  lemma InitSound(cap: nat, listener: int)
    ensures Sound(cap, Init(listener))
  {
  }

  /** Soundness holds in every reachable state, however large the pipes are. */
  lemma {:induction false} RunKeepsSound(cap: nat, s: System, run: seq<Event>)
    requires Sound(cap, s) && Legal(cap, s, run)
    ensures Sound(cap, After(s, run))
    decreases |run|
  {
    hide Sound, Enabled, Apply;
    if run != [] {
      StepKeepsSound(cap, s, run[0]);
      RunKeepsSound(cap, Apply(s, run[0]), run[1..]);
    }
  }

  /** A parent that has stopped does not run again. */
  lemma {:induction false} StoppedStays(cap: nat, s: System, run: seq<Event>)
    requires Legal(cap, s, run) && !Running(s)
    ensures !Running(After(s, run))
    decreases |run|
  {
    hide Enabled, Apply;
    if run != [] {
      StoppedStep(cap, s, run[0]);
      StoppedStays(cap, Apply(s, run[0]), run[1..]);
    }
  }

  lemma StoppedStep(cap: nat, s: System, e: Event)
    requires Enabled(cap, s, e) && !Running(s)
    ensures !Running(Apply(s, e))
  {
    hide DoChild, CanAct, ReaderOf;
  }
}
