/**
 When the parent learns that a child has exited. The exit flag is cleared after the
 reaping loop, so an exit between the two can be forgotten.
 */
module ChatReaping {
  import opened CStrings
  import opened ChatRecords
  import opened ChatTables
  import opened ChatServer
  import opened ChatSystem
  import opened ChatInvariant

  predicate SomeDead(s: System) {
    exists p <- s.procs :: s.procs[p].pc.Dead?
  }

  /** While the parent runs, an exited child that is not reaped has been, or will be, announced. */
  predicate Noticed(s: System) {
    Running(s) && SomeDead(s) ==> s.exitFlag || s.exitPending
  }

  /** The flag is cleared although a child has exited since the reaping loop and its signal has been taken. */
  predicate Forgets(s: System, e: Event) {
    e.ClearExited? && SomeDead(s) && !s.exitPending
  }

  lemma FlagsOfRead(s: System, i: nat, beyond: string)
    ensures var s' := DoRead(s, i, beyond); s'.exitFlag == s.exitFlag && s'.exitPending == s.exitPending
  {
    hide TakeRecord, WriterOf, Drain, FindsBytes, Take;
    if FindsBytes(s, i) {
      DrainFinds(s, i);
      var pid := WriterOf(s, i).value;
      FlagsOfTake(Drain(s, pid), i, Take(s.procs[pid].up, READ_MAX), beyond);
    }
  }

  lemma FlagsOfTake(s: System, i: nat, buffer: string, beyond: string)
    requires i < |s.tables.entries|
    ensures var s' := TakeRecord(s, i, buffer, beyond); s'.exitFlag == s.exitFlag && s'.exitPending == s.exitPending
  {
    hide Handle, Parse, ListsForStranger;
  }

  lemma ReadKillsNobody(s: System, i: nat, beyond: string)
    requires !SomeDead(s)
    ensures !SomeDead(DoRead(s, i, beyond))
  {
    hide WriterOf, Drain, DoRead, FindsBytes;
    var s' := DoRead(s, i, beyond);
    if !s'.pc.Halted? && FindsBytes(s, i) {
      DrainFinds(s, i);
      DrainsOne(s, WriterOf(s, i).value);
    }
  }

  lemma DrainFinds(s: System, i: nat)
    requires FindsBytes(s, i)
    ensures WriterOf(s, i).Some? && i < |s.tables.entries|
  {
  }

  lemma FlagsOfWrite(s: System, i: nat, todo: seq<Post>, ok: bool)
    ensures var s' := DoWrite(s, i, todo, ok); s'.exitFlag == s.exitFlag && s'.exitPending == s.exitPending
    ensures !SomeDead(s) ==> !SomeDead(DoWrite(s, i, todo, ok))
  {
    hide ReaderOf;
  }

  lemma FlagsOfKill(s: System, i: nat, pid: nat, todo: seq<Post>)
    ensures var s' := DoKill(s, i, pid, todo); s'.exitFlag == s.exitFlag && s'.exitPending == s.exitPending
    ensures !SomeDead(s) ==> !SomeDead(DoKill(s, i, pid, todo))
  {
  }

  lemma FlagsOfChild(cap: nat, s: System, pid: nat, act: Act)
    requires Enabled(cap, s, Child(pid, act))
    ensures var s' := DoChild(s, pid, act); s'.exitFlag == s.exitFlag && s'.exitPending == (s.exitPending || act.Die?)
    ensures !SomeDead(s) ==> act.Die? || !SomeDead(DoChild(s, pid, act))
  {
    hide ActOf, CanAct;
    OnlyDyingDies(cap, s.procs[pid], pid, act);
  }

  lemma OnlyDyingDies(cap: nat, c: Proc, pid: nat, act: Act)
    requires CanAct(cap, c, pid, act) && !c.pc.Dead?
    ensures ActOf(c, pid, act).pc.Dead? <==> act.Die?
  {
    hide Record, IsMessage;
  }

  lemma FlagsOfReap(s: System, pid: nat)
    ensures var s' := DoReap(s, pid); s'.exitFlag == s.exitFlag && s'.exitPending == s.exitPending
    ensures !SomeDead(s) ==> !SomeDead(DoReap(s, pid))
  {
  }

  lemma FlagsOfAdmit(s: System, pid: nat, toFd: int, fromFd: int)
    ensures var s' := DoAdmit(s, pid, toFd, fromFd); s'.exitFlag == s.exitFlag && s'.exitPending == s.exitPending
    ensures !SomeDead(s) ==> !SomeDead(DoAdmit(s, pid, toFd, fromFd))
  {
  }

  /** A step keeps exited children announced exactly when it does not forget one. */
  lemma StepNotices(cap: nat, s: System, e: Event)
    requires Enabled(cap, s, e) && Noticed(s)
    ensures Noticed(Apply(s, e)) <==> !Forgets(s, e)
  {
    hide SomeDead, DoRead, DoWrite, DoKill, DoChild, DoReap, DoAdmit, DoCloseEntry, CanAct, ReaderOf;
    match e
    case ReadRecord(beyond) =>
      FlagsOfRead(s, s.pc.i, beyond);
      if !SomeDead(s) {
        ReadKillsNobody(s, s.pc.i, beyond);
      }
    case WritePost(ok) => FlagsOfWrite(s, s.pc.i, s.pc.todo, ok);
    case SignalChild => FlagsOfKill(s, s.pc.i, s.pc.pid, s.pc.todo);
    case Child(pid, act) => FlagsOfChild(cap, s, pid, act);
    case Reap(pid) => FlagsOfReap(s, pid);
    case Admit(pid, toFd, fromFd) => FlagsOfAdmit(s, pid, toFd, fromFd);
    case _ => SameDead(s, Apply(s, e));
  }

  lemma SameDead(s: System, s': System)
    ensures s'.procs == s.procs ==> (SomeDead(s') <==> SomeDead(s))
  {
  }

  predicate KeepsNoticed(s: System, run: seq<Event>)
    decreases |run|
  {
    Noticed(s) && (run == [] || KeepsNoticed(Apply(s, run[0]), run[1..]))
  }

  predicate NeverForgets(s: System, run: seq<Event>)
    decreases |run|
  {
    run == [] || (!Forgets(s, run[0]) && NeverForgets(Apply(s, run[0]), run[1..]))
  }

  lemma {:induction false} NoticedFrom(cap: nat, s: System, run: seq<Event>)
    requires Legal(cap, s, run) && Noticed(s)
    ensures KeepsNoticed(s, run) <==> NeverForgets(s, run)
    decreases |run|
  {
    hide Enabled, Apply, Noticed, Forgets;
    if run != [] {
      StepNotices(cap, s, run[0]);
      if !Forgets(s, run[0]) {
        NoticedFrom(cap, Apply(s, run[0]), run[1..]);
      }
    }
  }

  /**
   A run leaves no exited child unannounced in any of its states if and only if it never
   clears the flag over one whose signal it has taken after the reaping loop.
   */
  lemma NoticedIffNeverForgets(cap: nat, listener: int, run: seq<Event>)
    requires Legal(cap, Init(listener), run)
    ensures KeepsNoticed(Init(listener), run) <==> NeverForgets(Init(listener), run)
  {
    hide Enabled, Apply, Forgets;
    NoticedFrom(cap, Init(listener), run);
  }

  // ------------------------------------------------------------ a noticed exit

  /** Between the look at the flag and its clearing. */
  predicate InReaping(s: System) {
    s.pc.Reaping? || s.pc.ClearingExited?
  }

  /** At some point of the run no exited child is left unreaped. */
  predicate SomewhereClean(s: System, run: seq<Event>)
    decreases |run|
  {
    !SomeDead(s) || (run != [] && SomewhereClean(Apply(s, run[0]), run[1..]))
  }

  lemma ReapingStep(cap: nat, s: System, e: Event)
    requires Enabled(cap, s, e) && s.pc.Reaping?
    ensures Apply(s, e).pc.Reaping? || !SomeDead(s)
  {
    hide DoReap, DoChild, CanAct, ReaderOf;
  }

  lemma {:induction false} ReapsAll(cap: nat, s: System, run: seq<Event>)
    requires Legal(cap, s, run) && s.pc.Reaping? && !After(s, run).pc.Reaping?
    ensures SomewhereClean(s, run)
    decreases |run|
  {
    hide Enabled, Apply, SomeDead;
    if run != [] {
      ReapingStep(cap, s, run[0]);
      if SomeDead(s) {
        ReapsAll(cap, Apply(s, run[0]), run[1..]);
      }
    }
  }

  /**
   With the exit flag set at the top of its loop, the parent neither accepts a
   connection nor scans before a moment at which every exited child has been reaped.
   */
  lemma ExitsAreReaped(cap: nat, s: System, run: seq<Event>)
    requires s.pc.Top? && s.exitFlag && Legal(cap, s, [LookForExited] + run)
    requires !After(s, [LookForExited] + run).pc.Reaping?
    ensures SomewhereClean(Apply(s, LookForExited), run)
  {
    hide Enabled, SomeDead;
    var all := [LookForExited] + run;
    assert all[0] == LookForExited && all[1..] == run;
    ReapsAll(cap, Apply(s, LookForExited), run);
  }

  // ------------------------------------------------------------- a forgotten exit

  function Idle(pc: ChildPc): Proc {
    Proc(pc, false, false, "", "", NOTHING_UNREAD)
  }

  function Slot(pid: nat): Entry {
    Entry(pid, "", "", 2 * pid, 2 * pid + 1, true)
  }

  /** Two clients, 7 and 8, that have said nothing; `procs` are their children. */
  function Pair(at: ParentPc, procs: map<nat, Proc>, pending: bool, flag: bool): System {
    System(Tables([Slot(7), Slot(8)], []), at, procs,
           map[3 := Listener][14 := ToChild(7)][15 := FromChild(7)][16 := ToChild(8)][17 := FromChild(8)], 3,
           false, false, pending, flag, [])
  }

  /** The second client alone, once the first has been reaped. */
  function Single(at: ParentPc, pc: ChildPc, pending: bool, flag: bool): System {
    System(Tables([Slot(8)], []), at, map[8 := Idle(pc)], map[3 := Listener][16 := ToChild(8)][17 := FromChild(8)], 3,
           false, false, pending, flag, [])
  }

  lemma Next(cap: nat, s: System, e: Event, s': System)
    requires Reaches(cap, Init(3), s) && Enabled(cap, s, e) && Apply(s, e) == s'
    ensures Reaches(cap, Init(3), s')
  {
    hide Enabled, Apply, Reaches;
    StepReaches(cap, Init(3), s, e);
  }

  /** The first client alone. */
  function First(at: ParentPc): System {
    System(Tables([Slot(7)], []), at, map[7 := Idle(Starting)], map[3 := Listener][14 := ToChild(7)][15 := FromChild(7)], 3,
           false, false, false, false, [])
  }

  lemma FirstArrives(cap: nat)
    ensures Reaches(cap, Init(3), First(Accepting))
  {
    hide Reaches;
    StartReaches(cap, Init(3));
    Next(cap, Init(3), LookForExited, Init(3).(pc := Accepting));
    Next(cap, Init(3).(pc := Accepting), Admit(7, 14, 15), First(Top));
    Next(cap, First(Top), LookForExited, First(Accepting));
  }

  lemma SecondArrives(cap: nat)
    ensures Reaches(cap, Init(3), Pair(Top, map[7 := Idle(Starting)][8 := Idle(Starting)], false, false))
  {
    hide Reaches;
    FirstArrives(cap);
    assert [Slot(7)] + [Slot(8)] == [Slot(7), Slot(8)];
    Next(cap, First(Accepting), Admit(8, 16, 17), Pair(Top, map[7 := Idle(Starting)][8 := Idle(Starting)], false, false));
  }

  lemma FirstExits(cap: nat)
    ensures Reaches(cap, Init(3), Pair(Reaping, map[7 := Idle(Dead)][8 := Idle(Starting)], false, true))
  {
    hide Reaches;
    SecondArrives(cap);
    var alive, dead := map[7 := Idle(Starting)][8 := Idle(Starting)], map[7 := Idle(Dead)][8 := Idle(Starting)];
    assert alive[7 := Idle(Dead)] == dead;
    Next(cap, Pair(Top, alive, false, false), Child(7, Die), Pair(Top, dead, true, false));
    Next(cap, Pair(Top, dead, true, false), DeliverExit, Pair(Top, dead, false, true));
    Next(cap, Pair(Top, dead, false, true), LookForExited, Pair(Reaping, dead, false, true));
  }

  lemma FirstIsReaped(cap: nat)
    ensures var s := Pair(Reaping, map[7 := Idle(Dead)][8 := Idle(Starting)], false, true);
            Enabled(cap, s, Reap(7)) && Apply(s, Reap(7)) == Single(Reaping, Starting, false, true)
  {
    var s := Pair(Reaping, map[7 := Idle(Dead)][8 := Idle(Starting)], false, true);
    assert SlotOf(s.tables.entries, 7) == 0;
    assert s.procs - {7} == map[8 := Idle(Starting)];
    assert s.open - {14, 15} == map[3 := Listener][16 := ToChild(8)][17 := FromChild(8)];
    assert Remove(s.tables.entries, 7) == [Slot(8)];
  }

  lemma SecondStays(cap: nat)
    ensures Reaches(cap, Init(3), Single(ClearingExited, Starting, false, true))
  {
    hide Reaches, Pair, Apply, Enabled;
    FirstExits(cap);
    FirstIsReaped(cap);
    Next(cap, Pair(Reaping, map[7 := Idle(Dead)][8 := Idle(Starting)], false, true), Reap(7), Single(Reaping, Starting, false, true));
    AllReaped(cap);
    Next(cap, Single(Reaping, Starting, false, true), NothingToReap, Single(ClearingExited, Starting, false, true));
  }

  lemma AllReaped(cap: nat)
    ensures var s := Single(Reaping, Starting, false, true);
            Enabled(cap, s, NothingToReap) && Apply(s, NothingToReap) == Single(ClearingExited, Starting, false, true)
  {
  }

  lemma FlagIsCleared(cap: nat)
    ensures var s := Single(ClearingExited, Dead, true, true);
            Enabled(cap, s, DeliverExit) && Apply(s, DeliverExit) == Single(ClearingExited, Dead, false, true)
    ensures var s := Single(ClearingExited, Dead, false, true);
            Enabled(cap, s, ClearExited) && Apply(s, ClearExited) == Single(Accepting, Dead, false, false)
  {
  }

  /**
   The second child exits between the reaping loop and the clearing of the flag: it is
   left unreaped with neither flag nor signal.
   */
  lemma ExitCanBeForgotten(cap: nat) returns (s: System)
    ensures Reachable(cap, s) && !Noticed(s) && s.pc.Accepting?
  {
    hide Reaches, Apply, Enabled;
    SecondStays(cap);
    SecondExits(cap);
    FlagIsCleared(cap);
    Next(cap, Single(ClearingExited, Starting, false, true), Child(8, Die), Single(ClearingExited, Dead, true, true));
    Next(cap, Single(ClearingExited, Dead, true, true), DeliverExit, Single(ClearingExited, Dead, false, true));
    Next(cap, Single(ClearingExited, Dead, false, true), ClearExited, Single(Accepting, Dead, false, false));
    s := Single(Accepting, Dead, false, false);
    assert s.procs[8].pc.Dead?;
    IsReachable(cap, s);
  }

  lemma SecondExits(cap: nat)
    ensures var s := Single(ClearingExited, Starting, false, true);
            Enabled(cap, s, Child(8, Die)) && Apply(s, Child(8, Die)) == Single(ClearingExited, Dead, true, true)
  {
  }

  lemma IsReachable(cap: nat, s: System)
    requires Reaches(cap, Init(3), s)
    ensures Reachable(cap, s)
  {
  }
}
