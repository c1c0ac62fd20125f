/**
 What follows once somebody has been told: the parent's scan comes to every slot, once
 and in order, and a child that has been signalled can empty its pipe by its own steps.
 */
module ChatProgress {
  import opened CStrings
  import opened ChatRecords
  import opened ChatTables
  import opened ChatServer
  import opened ChatSystem
  import opened ChatInvariant
  import opened ChatAwareness

  // ------------------------------------------------------------------- the scan

  /** Between the start of a scan and its end. */
  predicate InScan(s: System) {
    s.pc.Scanning? || s.pc.Writing? || s.pc.Killing?
  }

  /** The run is one scan, or the rest of one, up to the return to the top of the loop. */
  predicate ScansToEnd(s: System, run: seq<Event>)
    decreases |run|
  {
    if run == [] then s.pc.Top? else InScan(s) && ScansToEnd(Apply(s, run[0]), run[1..])
  }

  /** The slots that are read, or fail to be read, in this run. */
  function Visited(s: System, run: seq<Event>): seq<nat>
    decreases |run|
  {
    if run == [] then []
    else
      (if (run[0].ReadRecord? || run[0].ReadFails?) && s.pc.Scanning? && s.pc.i < |s.tables.entries| then [s.pc.i] else [])
      + Visited(Apply(s, run[0]), run[1..])
  }

  /** The slots from `i` up to the last. */
  function SlotsFrom(i: nat, n: nat): seq<nat>
    decreases n - i
  {
    if i >= n then [] else [i] + SlotsFrom(i + 1, n)
  }

  /** The slot the scan reads next. */
  function NextSlot(s: System): nat
    requires InScan(s)
  {
    if s.pc.Scanning? then s.pc.i else s.pc.i + 1
  }

  lemma ScanStep(cap: nat, s: System, e: Event)
    requires Sound(cap, s) && Enabled(cap, s, e) && InScan(s) && (InScan(Apply(s, e)) || Apply(s, e).pc.Top?)
    ensures var s' := Apply(s, e);
            var visits := (e.ReadRecord? || e.ReadFails?) && NextSlot(s) < |s.tables.entries|;
            && |s'.tables.entries| == |s.tables.entries|
            && (e.ReadRecord? || e.ReadFails? ==> s.pc.Scanning?)
            && (if InScan(s') then NextSlot(s') == NextSlot(s) + if visits then 1 else 0
                else NextSlot(s) >= |s.tables.entries| && !visits)
  {
    hide PlanPart, PipesPart, TableOk, DoRead, DoWrite, DoKill, DoChild, CanAct, ReaderOf;
    match e
    case ReadRecord(beyond) => ReadKeepsTable(s, s.pc.i, beyond);
    case WritePost(ok) => WriteMoves(s, s.pc.i, s.pc.todo, ok);
    case _ =>
  }

  lemma WriteMoves(s: System, i: nat, todo: seq<Post>, ok: bool)
    ensures var s' := DoWrite(s, i, todo, ok);
            s'.pc == Scanning(i + 1) || ((s'.pc.Writing? || s'.pc.Killing?) && s'.pc.i == i)
  {
    hide ReaderOf;
  }

  lemma {:induction false} ScanFrom(cap: nat, s: System, run: seq<Event>)
    requires Sound(cap, s) && Legal(cap, s, run) && InScan(s) && ScansToEnd(s, run)
    ensures Visited(s, run) == SlotsFrom(NextSlot(s), |s.tables.entries|)
    decreases |run|
  {
    hide Sound, Enabled, Apply, InScan, NextSlot;
    InScanIsNotTop(s);
    SlotOfStep(s);
    var m, rest := Apply(s, run[0]), run[1..];
    StepKeepsSound(cap, s, run[0]);
    ScanStep(cap, s, run[0]);
    if rest == [] {
      InScanIsNotTop(m);
      assert Visited(m, rest) == [];
    } else {
      ScanFrom(cap, m, rest);
    }
  }

  lemma InScanIsNotTop(s: System)
    ensures InScan(s) ==> !s.pc.Top?
  {
  }

  lemma SlotOfStep(s: System)
    requires InScan(s)
    ensures s.pc.Scanning? ==> NextSlot(s) == s.pc.i
  {
  }

  /**
   With the signal's flag set and no connection waiting, the parent clears the flag and
   reads every slot of the table once, in order, before it is back at the top.
   */
  lemma FlagStartsScan(cap: nat, s: System, run: seq<Event>)
    requires Sound(cap, s) && s.pc.Accepting? && s.usrFlag && Legal(cap, s, [Event.NoConnection] + run)
    requires ScansToEnd(Apply(s, Event.NoConnection), run)
    ensures !Apply(s, Event.NoConnection).usrFlag && Apply(s, Event.NoConnection).pc.Scanning?
    ensures Visited(Apply(s, Event.NoConnection), run) == SlotsFrom(0, |s.tables.entries|)
  {
    hide Sound, PlanPart, Enabled;
    var m := Apply(s, Event.NoConnection);
    assert ([Event.NoConnection] + run)[0] == Event.NoConnection && ([Event.NoConnection] + run)[1..] == run;
    StepKeepsSound(cap, s, Event.NoConnection);
    ScanFrom(cap, m, run);
  }

  // ------------------------------------------------------------------ a told child

  /** The run consists of steps of this child alone. */
  predicate OwnSteps(run: seq<Event>, pid: nat) {
    forall e <- run :: e.Child? && e.pid == pid
  }

  /** From `s` the child alone can come to `s'`. */
  ghost predicate CanReach(cap: nat, s: System, s': System, pid: nat) {
    exists run :: OwnSteps(run, pid) && Legal(cap, s, run) && After(s, run) == s'
  }

  lemma CanStay(cap: nat, s: System, pid: nat)
    ensures CanReach(cap, s, s, pid)
  {
    assert OwnSteps([], pid) && Legal(cap, s, []) && After(s, []) == s;
  }

  lemma CanStep(cap: nat, s: System, m: System, pid: nat, act: Act)
    requires CanReach(cap, s, m, pid) && Enabled(cap, m, Child(pid, act))
    ensures CanReach(cap, s, DoChild(m, pid, act), pid)
  {
    hide Enabled, Apply;
    ChildIs(m, pid, act);
    var run :| OwnSteps(run, pid) && Legal(cap, s, run) && After(s, run) == m;
    assert Legal(cap, m, [Child(pid, act)]) && After(m, [Child(pid, act)]) == DoChild(m, pid, act);
    RunsJoin(cap, s, run, [Child(pid, act)]);
    assert OwnSteps(run + [Child(pid, act)], pid);
  }

  lemma ChildIs(s: System, pid: nat, act: Act)
    ensures Apply(s, Child(pid, act)) == DoChild(s, pid, act)
    ensures pid in s.procs ==> DoChild(s, pid, act).procs[pid] == ActOf(s.procs[pid], pid, act)
  {
  }

  /** One step of the living child `pid`. */
  lemma Moves(cap: nat, s: System, m: System, pid: nat, act: Act) returns (m': System)
    requires CanReach(cap, s, m, pid) && Alive(m, pid) && CanAct(cap, m.procs[pid], pid, act)
    ensures CanReach(cap, s, m', pid) && pid in m'.procs && m'.procs[pid] == ActOf(m.procs[pid], pid, act)
  {
    hide CanReach, CanAct, ActOf, DoChild;
    CanStep(cap, s, m, pid, act);
    ChildIs(m, pid, act);
    m' := DoChild(m, pid, act);
  }

  /** Whatever it is doing, but for a read of its pipe, a child comes back to the check of its flag. */
  lemma ReturnsToCheck(cap: nat, s: System, pid: nat) returns (s': System)
    requires Alive(s, pid) && Armed(s, pid) && !s.procs[pid].pc.ReadingPipe?
    ensures CanReach(cap, s, s', pid) && pid in s'.procs && s'.procs[pid].pc.Checking?
    ensures var c, c' := s.procs[pid], s'.procs[pid]; c'.down == c.down && c'.flag == c.flag && c'.pending == c.pending
  {
    hide CanReach, Record;
    CanStay(cap, s, pid);
    s' := s;
    if s'.procs[pid].pc.ReadingSocket? {
      s' := Moves(cap, s, s', pid, ClientSilent);
    } else if s'.procs[pid].pc.Telling? {
      s' := Moves(cap, s, s', pid, SignalParent);
    }
    if s'.procs[pid].pc.Forwarding? {
      s' := Moves(cap, s, s', pid, Forward(false));
    }
  }

  /**
   No wake-up is in vain: a child that has been signalled, or whose flag is set, can by
   its own steps alone take as much out of its pipe as one read brings.
   */
  lemma ToldChildReads(cap: nat, s: System, pid: nat) returns (s': System)
    requires Alive(s, pid) && Armed(s, pid)
    requires s.procs[pid].flag || s.procs[pid].pending || s.procs[pid].pc.ReadingPipe?
    ensures CanReach(cap, s, s', pid)
    ensures pid in s'.procs && s'.procs[pid].down == Rest(s.procs[pid].down, READ_MAX)
  {
    hide CanReach, Record, IsMessage, Rest;
    if s.procs[pid].pc.ReadingPipe? {
      CanStay(cap, s, pid);
      s' := s;
    } else {
      s' := ReturnsToCheck(cap, s, pid);
      if s'.procs[pid].pending {
        s' := Moves(cap, s, s', pid, TakeSignal);
      }
      s' := Moves(cap, s, s', pid, CheckFlag);
    }
    s' := Moves(cap, s, s', pid, ReadPipe);
  }
}
