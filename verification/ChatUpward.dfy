/**
 The other direction: when the parent is told of what its children have sent. A child
 signals before it writes, so the parent's scan can pass in between. Which steps lose
 an announcement, and which runs lose none, holds for pipes of any size.
 */
module ChatUpward {
  import opened CStrings
  import opened ChatRecords
  import opened ChatTables
  import opened ChatRefinement
  import opened ChatServer
  import opened ChatSystem
  import opened ChatInvariant

  /** The parent has been told, or its scan has yet to come to slot `k`. */
  predicate Due(s: System, k: nat) {
    || s.usrPending
    || s.usrFlag
    || (s.pc.Scanning? && s.pc.i <= k)
    || (s.pc.Writing? && s.pc.i < k)
    || (s.pc.Killing? && s.pc.i < k)
  }

  predicate Unread(s: System, k: nat) {
    k < |s.tables.entries| && EntryPid(s, k) in s.procs && s.procs[EntryPid(s, k)].up != ""
  }

  /** More than one read can take. */
  predicate TooMuch(s: System, k: nat) {
    Unread(s, k) && |s.procs[EntryPid(s, k)].up| > READ_MAX
  }

  /** While the parent runs, every slot with unread bytes is due. */
  ghost predicate UpOk(s: System) {
    Running(s) ==> forall k: nat {:trigger Unread(s, k)} :: Unread(s, k) ==> Due(s, k)
  }

  /** A child writes after the parent's scan has taken the signal and gone past its slot. */
  predicate LateWrite(s: System, e: Event) {
    && e.Child? && e.act.Forward? && e.act.ok
    && Running(s) && !Due(s, SlotOf(s.tables.entries, e.pid))
  }

  /**
   The parent's scan leaves unread bytes behind on its slot, with no signal to bring it
   back. A read that ends the process leaves nobody to be told.
   */
  predicate LeftBehind(s: System, e: Event) {
    && s.pc.Scanning? && Unread(s, s.pc.i) && !s.usrPending && !s.usrFlag
    && (e.ReadFails? || (e.ReadRecord? && TooMuch(s, s.pc.i) && !ReadCrashes(s, s.pc.i)))
  }

  predicate Loses(s: System, e: Event) {
    LateWrite(s, e) || LeftBehind(s, e)
  }

  // ------------------------------------------------------------ what is due

  /** The scan goes past slot `k` with nothing to bring it back. */
  predicate Passes(s: System, e: Event, k: nat) {
    s.pc == Scanning(k) && (e.ReadRecord? || e.ReadFails?) && !s.usrPending && !s.usrFlag
  }

  predicate Signals(e: Event) {
    e.Child? && e.act.SignalParent?
  }

  /** The due slots change only when somebody signals and when the scan passes one. */
  lemma StepDue(cap: nat, s: System, e: Event, k: nat)
    requires Sound(cap, s) && Enabled(cap, s, e) && Running(s) && Running(Apply(s, e)) && k < |s.tables.entries|
    ensures Due(Apply(s, e), k) <==> Signals(e) || (Due(s, k) && !Passes(s, e, k))
  {
    hide PipesPart, TableOk, PostsFit, DoReap, DoAdmit, DoRead, DoChild, DoWrite, DoKill, CanAct, ReaderOf;
    match e
    case ReadRecord(beyond) =>
    case Child(pid, act) => ChildPlace(s, pid, act);
    case Reap(pid) => ReapPlace(s, pid);
    case Admit(pid, toFd, fromFd) => AdmitPlace(s, pid, toFd, fromFd);
    case WritePost(ok) => WritePlace(s, ok);
    case SignalChild => KillPlace(s);
    case _ =>
  }

  lemma WritePlace(s: System, ok: bool)
    requires s.pc.Writing?
    ensures var s' := DoWrite(s, s.pc.i, s.pc.todo, ok);
            s'.usrPending == s.usrPending && s'.usrFlag == s.usrFlag
            && (s'.pc == Scanning(s.pc.i + 1) || ((s'.pc.Writing? || s'.pc.Killing?) && s'.pc.i == s.pc.i))
  {
    hide ReaderOf;
  }

  lemma KillPlace(s: System)
    requires s.pc.Killing?
    ensures var s' := DoKill(s, s.pc.i, s.pc.pid, s.pc.todo); s'.usrPending == s.usrPending && s'.usrFlag == s.usrFlag
  {
  }

  lemma ChildPlace(s: System, pid: nat, act: Act)
    requires pid in s.procs
    ensures var s' := DoChild(s, pid, act);
            s'.usrPending == (s.usrPending || act.SignalParent?) && s'.usrFlag == s.usrFlag && s'.pc == s.pc
            && s'.procs == s.procs[pid := ActOf(s.procs[pid], pid, act)]
  {
  }

  lemma ReapPlace(s: System, pid: nat)
    ensures var s' := DoReap(s, pid); s'.usrPending == s.usrPending && s'.usrFlag == s.usrFlag && s'.pc == s.pc
  {
  }

  lemma AdmitPlace(s: System, pid: nat, toFd: int, fromFd: int)
    ensures var s' := DoAdmit(s, pid, toFd, fromFd); s'.usrPending == s.usrPending && s'.usrFlag == s.usrFlag
  {
  }

  // ------------------------------------------------------------------- steps

  /** After a step that brings no new bytes and passes no slot by, what was due is due. */
  lemma QuietKeepsUpOk(cap: nat, s: System, e: Event)
    requires Sound(cap, s) && Enabled(cap, s, e) && UpOk(s) && Running(s) && Running(Apply(s, e))
    requires !e.ReadRecord? && !e.ReadFails?
    requires Apply(s, e).tables == s.tables
    requires forall k: nat :: Unread(Apply(s, e), k) ==> Unread(s, k)
    ensures UpOk(Apply(s, e))
  {
    hide Sound, Enabled, Apply, Due, Unread;
    forall k: nat | Unread(Apply(s, e), k) ensures Due(Apply(s, e), k) {
      InTable(s, k);
      StepDue(cap, s, e, k);
    }
  }

  lemma InTable(s: System, k: nat)
    ensures (Unread(s, k) ==> k < |s.tables.entries|) && (TooMuch(s, k) ==> Unread(s, k))
  {
  }

  lemma ReapKeepsUpOk(cap: nat, s: System, pid: nat)
    requires TableOk(s) && Enabled(cap, s, Reap(pid)) && UpOk(s)
    ensures UpOk(DoReap(s, pid))
  {
    hide OwnsExactly, Pids, DistinctPids, Remove, Released;
    var s', es := DoReap(s, pid), s.tables.entries;
    ReapPlace(s, pid);
    forall k: nat | Unread(s', k) ensures Due(s', k) {
      RemoveMembers(es, pid, s'.tables.entries[k]);
      var j: nat :| j < |es| && es[j] == s'.tables.entries[k];
      assert Unread(s, j);
    }
  }

  lemma AdmitKeepsUpOk(cap: nat, s: System, pid: nat, toFd: int, fromFd: int)
    requires Enabled(cap, s, Admit(pid, toFd, fromFd)) && UpOk(s)
    ensures UpOk(DoAdmit(s, pid, toFd, fromFd))
  {
    var s', es := DoAdmit(s, pid, toFd, fromFd), s.tables.entries;
    forall k: nat | Unread(s', k) ensures Due(s', k) {
      if k < |es| {
        assert s'.tables.entries[k] == es[k];
        assert Unread(s, k);
      }
    }
  }

  /** What a read on slot `i` leaves unread. */
  lemma ReadUnread(s: System, beyond: string, k: nat)
    requires TableOk(s) && s.pc.Scanning? && Running(DoRead(s, s.pc.i, beyond))
    ensures var s' := DoRead(s, s.pc.i, beyond);
            Unread(s', k) <==> (if k == s.pc.i then TooMuch(s, k) else Unread(s, k))
  {
    hide TableOk, DoRead, Drain, WriterOf;
    var i, s' := s.pc.i, DoRead(s, s.pc.i, beyond);
    ReadKeepsTable(s, i, beyond);
    if k < |s.tables.entries| {
      EndsOfSlot(s, k);
    }
    if i < |s.tables.entries| {
      EndsOfSlot(s, i);
      DrainsOne(s, EntryPid(s, i));
      if k < |s.tables.entries| && k != i {
        OtherPid(s, i, k);
      }
    }
  }

  lemma OtherPid(s: System, i: nat, k: nat)
    requires TableOk(s) && i < |s.tables.entries| && k < |s.tables.entries| && i != k
    ensures EntryPid(s, i) != EntryPid(s, k)
  {
    hide OwnsExactly, Pids;
  }

  lemma ReadHears(cap: nat, s: System, beyond: string)
    requires Sound(cap, s) && s.pc.Scanning? && UpOk(s) && Running(DoRead(s, s.pc.i, beyond))
    ensures UpOk(DoRead(s, s.pc.i, beyond)) <==> !LeftBehind(s, ReadRecord(beyond))
  {
    hide Sound, Unread, TableOk, TooMuch, ReadCrashes, DoRead, Due, Passes;
    var s', e := DoRead(s, s.pc.i, beyond), ReadRecord(beyond);
    CrashHalts(s, s.pc.i, beyond);
    SoundScan(cap, s);
    ApplyIs(s, e);
    PassesOnly(s, e);
    ReadKeepsTable(s, s.pc.i, beyond);
    forall k: nat ensures Unread(s', k) <==> (if k == s.pc.i then TooMuch(s, k) else Unread(s, k)) {
      ReadUnread(s, beyond, k);
    }
    forall k: nat | k < |s.tables.entries| ensures Due(s', k) <==> Due(s, k) && !Passes(s, e, k) {
      StepDue(cap, s, e, k);
    }
    forall k: nat ensures (Unread(s, k) ==> k < |s.tables.entries|) && (TooMuch(s, k) ==> Unread(s, k)) {
      InTable(s, k);
    }
  }

  /** A read passes its own slot, with nothing pending, and no other. */
  lemma PassesOnly(s: System, e: Event)
    requires s.pc.Scanning? && e.ReadRecord?
    ensures forall k: nat :: Passes(s, e, k) <==> k == s.pc.i && !s.usrPending && !s.usrFlag
    ensures Due(s, s.pc.i)
  {
  }

  lemma SoundScan(cap: nat, s: System)
    requires Sound(cap, s) && Running(s)
    ensures TableOk(s) && (s.pc.Scanning? ==> Enabled(cap, s, ReadRecord("")))
  {
    hide TableOk;
  }

  lemma FailHears(cap: nat, s: System)
    requires Sound(cap, s) && Enabled(cap, s, ReadFails) && UpOk(s)
    ensures UpOk(Apply(s, ReadFails)) <==> !LeftBehind(s, ReadFails)
  {
    hide Sound;
    var s' := Apply(s, ReadFails);
    forall k: nat ensures Unread(s', k) <==> Unread(s, k) {
    }
    forall k: nat ensures Due(s', k) <==> Due(s, k) && !Passes(s, ReadFails, k) {
    }
  }

  /** A child's own step changes what is unread on its own slot only, and only by a write. */
  lemma ChildUnread(cap: nat, s: System, pid: nat, act: Act, k: nat)
    requires TableOk(s) && Enabled(cap, s, Child(pid, act))
    ensures SlotOf(s.tables.entries, pid) < |s.tables.entries|
    ensures Unread(DoChild(s, pid, act), k) <==>
            Unread(s, k) || (act.Forward? && act.ok && k == SlotOf(s.tables.entries, pid))
  {
    hide OwnsExactly, Record, IsMessage, ActOf, CanAct, DoChild, DistinctPids;
    ChildPlace(s, pid, act);
    ActUp(cap, s.procs[pid], pid, act);
    assert pid as int in Pids(s.tables.entries);
    if k < |s.tables.entries| {
      SlotOfEntry(s.tables.entries, k);
    }
  }

  /** Only a successful write puts bytes into a child's own pipe. */
  lemma ActUp(cap: nat, c: Proc, pid: nat, act: Act)
    requires CanAct(cap, c, pid, act)
    ensures ActOf(c, pid, act).up == "" <==> c.up == "" && !(act.Forward? && act.ok)
  {
    hide Record;
    if act.Forward? {
      RecordNotEmpty(pid, c.pc.text);
    }
  }

  lemma RecordNotEmpty(pid: nat, text: string)
    ensures |Record(pid, text)| > 0
  {
  }

  lemma ChildHears(cap: nat, s: System, pid: nat, act: Act)
    requires Sound(cap, s) && Running(s) && Enabled(cap, s, Child(pid, act)) && UpOk(s)
    ensures UpOk(DoChild(s, pid, act)) <==> !LateWrite(s, Child(pid, act))
  {
    hide Sound, Unread, TableOk, Enabled, Due;
    var s', e := DoChild(s, pid, act), Child(pid, act);
    SoundScan(cap, s);
    forall k: nat
      ensures SlotOf(s.tables.entries, pid) < |s.tables.entries|
      ensures Unread(s', k) <==> Unread(s, k) || (act.Forward? && act.ok && k == SlotOf(s.tables.entries, pid))
    {
      ChildUnread(cap, s, pid, act, k);
    }
    forall k: nat | k < |s.tables.entries| ensures Due(s', k) <==> Signals(e) || Due(s, k) {
      StepDue(cap, s, e, k);
    }
    forall k: nat ensures Unread(s, k) ==> k < |s.tables.entries| {
      InTable(s, k);
    }
    var slot := SlotOf(s.tables.entries, pid);
    ChildUnread(cap, s, pid, act, slot);
  }

  lemma SameUnread(s: System, s': System)
    requires s'.tables == s.tables && s'.procs.Keys == s.procs.Keys
    requires forall p :: p in s.procs ==> s'.procs[p].up == s.procs[p].up
    ensures forall k: nat :: Unread(s', k) ==> Unread(s, k)
  {
  }

  lemma WriteLeavesUp(s: System, i: nat, todo: seq<Post>, ok: bool, p: nat)
    requires p in s.procs
    ensures DoWrite(s, i, todo, ok).procs[p].up == s.procs[p].up
  {
    hide ReaderOf;
  }

  lemma KillLeavesUp(s: System, i: nat, pid: nat, todo: seq<Post>, p: nat)
    requires p in s.procs
    ensures DoKill(s, i, pid, todo).procs[p].up == s.procs[p].up
  {
  }

  /** Writes, signals and the parent's other moves touch no upward pipe. */
  lemma OthersLeaveUnread(cap: nat, s: System, e: Event)
    requires Running(s) && Enabled(cap, s, e) && Running(Apply(s, e))
    requires !e.ReadRecord? && !e.ReadFails? && !e.Child? && !e.Reap? && !e.Admit?
    ensures Apply(s, e).tables == s.tables
    ensures forall k: nat :: Unread(Apply(s, e), k) ==> Unread(s, k)
  {
    hide Unread, ReaderOf, DoWrite, DoKill;
    forall p | p in s.procs ensures Apply(s, e).procs[p].up == s.procs[p].up {
      if e.WritePost? {
        WriteLeavesUp(s, s.pc.i, s.pc.todo, e.ok, p);
      } else if e.SignalChild? {
        KillLeavesUp(s, s.pc.i, s.pc.pid, s.pc.todo, p);
      }
    }
    SameUnread(s, Apply(s, e));
  }

  /**
   For pipes of any size: a step of the running system keeps "every slot with unread
   bytes is due" if and only if it is not a child's write after the scan has taken the
   signal and passed, nor a read that fails or falls short with no signal left.
   */
  lemma StepHears(cap: nat, s: System, e: Event)
    requires Sound(cap, s) && Enabled(cap, s, e) && UpOk(s)
    ensures UpOk(Apply(s, e)) <==> !Loses(s, e)
  {
    hide Sound, UpOk, LateWrite, LeftBehind, Apply, DoRead, ReadCrashes, DoReap, DoAdmit, DoChild, CanAct, ReaderOf;
    if !Running(s) || !Running(Apply(s, e)) {
      NotRunning(cap, s, e);
    } else {
      SoundScan(cap, s);
      match e
      case ReadRecord(beyond) => ApplyIs(s, e); ReadHears(cap, s, beyond); NotLate(s, e);
      case ReadFails => FailHears(cap, s); NotLate(s, e);
      case Child(pid, act) => ChildHears(cap, s, pid, act); NotBehind(s, e); ApplyIs(s, e);
      case Reap(pid) => ReapKeepsUpOk(cap, s, pid); NotLate(s, e); NotBehind(s, e); ApplyIs(s, e);
      case Admit(pid, toFd, fromFd) =>
        AdmitKeepsUpOk(cap, s, pid, toFd, fromFd); NotLate(s, e); NotBehind(s, e); ApplyIs(s, e);
      case _ =>
        OthersLeaveUnread(cap, s, e);
        QuietKeepsUpOk(cap, s, e);
        NotLate(s, e);
        NotBehind(s, e);
    }
  }

  lemma ApplyIs(s: System, e: Event)
    ensures e.Reap? ==> Apply(s, e) == DoReap(s, e.pid)
    ensures e.Admit? ==> Apply(s, e) == DoAdmit(s, e.pid, e.toFd, e.fromFd)
    ensures e.Child? ==> Apply(s, e) == DoChild(s, e.pid, e.act)
    ensures e.ReadRecord? && s.pc.Scanning? ==> Apply(s, e) == DoRead(s, s.pc.i, e.beyond)
  {
    hide DoReap, DoAdmit, DoChild, DoRead;
  }

  lemma NotLate(s: System, e: Event)
    requires !e.Child?
    ensures !LateWrite(s, e)
  {
  }

  lemma NotBehind(s: System, e: Event)
    requires !e.ReadRecord? && !e.ReadFails?
    ensures !LeftBehind(s, e)
  {
  }

  lemma NotRunning(cap: nat, s: System, e: Event)
    requires Enabled(cap, s, e) && (!Running(s) || !Running(Apply(s, e)))
    ensures UpOk(Apply(s, e)) && !Loses(s, e)
  {
    hide DoReap, DoAdmit, DoChild, DoRead, DoWrite, DoKill, DoCloseEntry, CanAct, ReaderOf, ReadCrashes;
    if e.ReadRecord? && s.pc.Scanning? {
      CrashHalts(s, s.pc.i, e.beyond);
    }
  }

  // -------------------------------------------------------------------- runs

  /** In every state of the run, every slot with unread bytes is due. */
  ghost predicate KeepsDue(s: System, run: seq<Event>)
    decreases |run|
  {
    UpOk(s) && (run == [] || KeepsDue(Apply(s, run[0]), run[1..]))
  }

  predicate NeverLoses(s: System, run: seq<Event>)
    decreases |run|
  {
    run == [] || (!Loses(s, run[0]) && NeverLoses(Apply(s, run[0]), run[1..]))
  }

  lemma {:induction false} DueFrom(cap: nat, s: System, run: seq<Event>)
    requires Sound(cap, s) && Legal(cap, s, run) && UpOk(s)
    ensures KeepsDue(s, run) <==> NeverLoses(s, run)
    decreases |run|
  {
    hide Sound, Enabled, Apply, UpOk, Loses;
    if run != [] {
      StepHears(cap, s, run[0]);
      StepKeepsSound(cap, s, run[0]);
      if !Loses(s, run[0]) {
        DueFrom(cap, Apply(s, run[0]), run[1..]);
      }
    }
  }

  /**
   The exact condition for runs: no message of a child is ever left without an
   announcement if and only if the run has no late write and no read that leaves
   bytes behind.
   */
  lemma HeardIffNeverLoses(cap: nat, listener: int, run: seq<Event>)
    requires Legal(cap, Init(listener), run)
    ensures KeepsDue(Init(listener), run) <==> NeverLoses(Init(listener), run)
  {
    hide Sound, Enabled, Apply, Loses;
    InitSound(cap, listener);
    DueFrom(cap, Init(listener), run);
  }

  // ------------------------------------------------------------- event order

  function SlotOfPid(s: System, pid: nat): nat {
    SlotOf(s.tables.entries, pid)
  }

  /** The scan goes past this child's slot with nothing to bring it back. */
  predicate PassesChild(s: System, e: Event, pid: nat) {
    Passes(s, e, SlotOfPid(s, pid))
  }

  predicate Silent(run: seq<Event>) {
    forall e <- run :: !Signals(e)
  }

  /** In the run the scan goes past the child's slot, and nobody signals after that. */
  predicate Swallowed(s: System, run: seq<Event>, pid: nat)
    decreases |run|
  {
    run != [] && ((PassesChild(s, run[0], pid) && Silent(run[1..])) || Swallowed(Apply(s, run[0]), run[1..], pid))
  }

  lemma SameSlot(es: seq<Entry>, es': seq<Entry>, pid: nat)
    requires |es| <= |es'| && forall j :: 0 <= j < |es| ==> es'[j].pid == es[j].pid
    requires SlotOf(es, pid) < |es|
    ensures SlotOf(es', pid) == SlotOf(es, pid)
  {
  }

  lemma PidStays(cap: nat, s: System, e: Event, pid: nat)
    requires Sound(cap, s) && Enabled(cap, s, e) && Running(s) && Running(Apply(s, e)) && pid in s.procs && e != Reap(pid)
    ensures SlotOfPid(s, pid) < |s.tables.entries| && pid in Apply(s, e).procs
    ensures !e.Reap? ==> SlotOfPid(Apply(s, e), pid) == SlotOfPid(s, pid)
  {
    hide Sound, TableOk, DoRead, DoAdmit, DoReap, SlotOf, Enabled, Apply;
    SoundScan(cap, s);
    PidListed(s, pid);
    ApplyIs(s, e);
    match e
    case ReadRecord(beyond) =>
      ScansWhenReading(cap, s, e);
      ReadKeepsTable(s, s.pc.i, beyond);
      SameSlot(s.tables.entries, Apply(s, e).tables.entries, pid);
    case Admit(p, toFd, fromFd) =>
      AdmitAppends(s, p, toFd, fromFd);
      SameSlot(s.tables.entries, Apply(s, e).tables.entries, pid);
    case Reap(p) =>
    case _ =>
      StillRuns(cap, s, e);
      OthersFrame(cap, s, e);
  }

  lemma PidListed(s: System, pid: nat)
    requires TableOk(s) && pid in s.procs
    ensures SlotOfPid(s, pid) < |s.tables.entries|
  {
    hide OwnsExactly, DistinctPids;
    assert pid as int in Pids(s.tables.entries);
  }

  lemma ScansWhenReading(cap: nat, s: System, e: Event)
    requires Enabled(cap, s, e)
    ensures e.ReadRecord? || e.ReadFails? ==> s.pc.Scanning?
  {
  }

  lemma AdmitAppends(s: System, pid: nat, toFd: int, fromFd: int)
    ensures var s' := DoAdmit(s, pid, toFd, fromFd);
            s.tables.entries <= s'.tables.entries && s.procs.Keys <= s'.procs.Keys
  {
  }

  lemma StillRuns(cap: nat, s: System, e: Event)
    requires Enabled(cap, s, e) && Running(s) && Running(Apply(s, e))
    ensures !e.CloseEntry? && !e.CloseListener? && !e.AcceptError? && !e.BrokenPipe? && !e.WaitForChild?
  {
    hide DoRead, DoAdmit, DoReap, DoChild, CanAct, ReaderOf;
  }

  lemma StepDueChild(cap: nat, s: System, e: Event, pid: nat)
    requires Sound(cap, s) && Enabled(cap, s, e) && Running(s) && Running(Apply(s, e)) && pid in s.procs && e != Reap(pid)
    ensures var s' := Apply(s, e);
            Due(s', SlotOfPid(s', pid)) <==> Signals(e) || (Due(s, SlotOfPid(s, pid)) && !PassesChild(s, e, pid))
  {
    hide Sound, Apply, Enabled;
    PidStays(cap, s, e, pid);
    StepDue(cap, s, e, SlotOfPid(s, pid));
    if e.Reap? {
      ReapAlone(cap, s, e.pid);
    }
  }

  lemma ReapAlone(cap: nat, s: System, pid: nat)
    requires Enabled(cap, s, Reap(pid))
    ensures s.pc.Reaping? && Apply(s, Reap(pid)).pc.Reaping?
  {
    hide DoReap;
  }

  /**
   Whether a child's slot is due after a run is decided by the order of events alone:
   it is not exactly when the scan has passed it and nobody has signalled since, or it
   was not at first and nobody has signalled at all.
   */
  lemma {:induction false} OrderDecides(cap: nat, s: System, run: seq<Event>, pid: nat)
    requires Sound(cap, s) && Legal(cap, s, run) && Running(After(s, run))
    requires pid in s.procs && Reap(pid) !in run
    ensures var s' := After(s, run);
            !Due(s', SlotOfPid(s', pid)) <==>
            Swallowed(s, run, pid) || (!Due(s, SlotOfPid(s, pid)) && Silent(run))
    decreases |run|
  {
    hide Sound, Enabled, Apply, Due, Running, SlotOfPid;
    if run != [] {
      var m := Apply(s, run[0]);
      if !Running(s) {
        StoppedStays(cap, s, run);
      } else if !Running(m) {
        StoppedStays(cap, m, run[1..]);
      } else {
        PidStays(cap, s, run[0], pid);
        StepDueChild(cap, s, run[0], pid);
        StepKeepsSound(cap, s, run[0]);
        OrderDecides(cap, m, run[1..], pid);
        assert Silent(run) <==> !Signals(run[0]) && Silent(run[1..]);
        assert PassesChild(s, run[0], pid) ==> !Signals(run[0]);
      }
    }
  }

  /**
   The late write by the order of events: between a child's signal and its write, the
   scan has gone past its slot, and nobody has signalled since.
   */
  lemma LateWriteByOrder(cap: nat, s: System, between: seq<Event>, pid: nat)
    requires Sound(cap, s) && Enabled(cap, s, Child(pid, SignalParent))
    requires var told := Apply(s, Child(pid, SignalParent));
             && Legal(cap, told, between) && Reap(pid) !in between
             && Running(After(told, between)) && Enabled(cap, After(told, between), Child(pid, Forward(true)))
    ensures var told := Apply(s, Child(pid, SignalParent));
            LateWrite(After(told, between), Child(pid, Forward(true))) <==> Swallowed(told, between, pid)
  {
    hide Sound, Swallowed, Legal, CanAct;
    var told := Apply(s, Child(pid, SignalParent));
    StepKeepsSound(cap, s, Child(pid, SignalParent));
    OrderDecides(cap, told, between, pid);
  }
}
