/**
 The parent process of the chat server as it runs: fixed-size arrays with counts,
 searches, shifts, and the descriptor table of the kernel beneath it.
 */
module ChatServer {
  import opened CStrings
  import opened ChatCommands
  import opened ChatTables

  /** What an open descriptor of the parent is one end of. */
  datatype End = Listener | Connection | ToChild(pid: nat) | FromChild(pid: nat) | ChildSide

  /** How one pass through `accept` and what follows it ends. */
  datatype Admission = NoConnection | Refused | PipeFailed | ModeFailed | ForkFailed | Admitted(pid: nat)

  /** What the kernel has answered to one call. */
  datatype Answer = Accepted(ok: bool) | Piped(ok: bool) | ModesSet(ok: bool) | ForkReturned(pid: int)

  /**
   How a pass ends, and the answers that lead to it: each call is made only after the
   one before has succeeded, and none after the one that decides.
   */
  predicate Explains(answers: seq<Answer>, r: Admission, full: bool) {
    match r
    case NoConnection => answers == [Accepted(false)]
    case Refused => full && answers == [Accepted(true)]
    case PipeFailed =>
      !full && (answers == [Accepted(true), Piped(false)] || answers == [Accepted(true), Piped(true), Piped(false)])
    case ModeFailed => !full && answers == [Accepted(true), Piped(true), Piped(true), ModesSet(false)]
    case ForkFailed =>
      !full && |answers| == 5 && answers[4].ForkReturned? && answers[4].pid < 0
      && answers[..4] == [Accepted(true), Piped(true), Piped(true), ModesSet(true)]
    case Admitted(pid) =>
      !full && pid > 0 && answers == [Accepted(true), Piped(true), Piped(true), ModesSet(true), ForkReturned(pid)]
  }

  /** The descriptor belongs to one of the entries. */
  ghost predicate HeldBy(es: seq<Entry>, fd: int) {
    exists i :: 0 <= i < |es| && (es[i].toFd == fd || es[i].fromFd == fd)
  }

  /**
   The open descriptors are the listener and two per entry, each the end of the pipe
   its field says.
   */
  ghost predicate OwnsExactly(open: map<int, End>, listener: int, es: seq<Entry>) {
    && listener in open && open[listener] == Listener
    && (forall i {:trigger es[i]} :: 0 <= i < |es| ==>
          && es[i].toFd in open && open[es[i].toFd] == ToChild(es[i].pid)
          && es[i].fromFd in open && open[es[i].fromFd] == FromChild(es[i].pid))
    && (forall fd :: fd in open ==> fd == listener || HeldBy(es, fd))
  }

  lemma AdmissionKeepsOwnership(open: map<int, End>, listener: int, es: seq<Entry>, e: Entry)
    requires OwnsExactly(open, listener, es)
    requires e.toFd !in open && e.fromFd !in open && e.toFd != e.fromFd
    ensures OwnsExactly(open[e.toFd := ToChild(e.pid)][e.fromFd := FromChild(e.pid)], listener, es + [e])
  {
    var open', es' := open[e.toFd := ToChild(e.pid)][e.fromFd := FromChild(e.pid)], es + [e];
    assert forall i :: 0 <= i < |es| ==> es'[i] == es[i];
    forall fd | fd in open' ensures fd == listener || HeldBy(es', fd) {
      if fd == e.toFd || fd == e.fromFd {
        assert es'[|es|] == e;
      } else if fd != listener {
        var i :| 0 <= i < |es| && (es[i].toFd == fd || es[i].fromFd == fd);
        assert es'[i] == es[i];
      }
    }
  }

  lemma RemovalKeepsOwnership(open: map<int, End>, listener: int, es: seq<Entry>, k: nat)
    requires OwnsExactly(open, listener, es) && DistinctPids(es) && k < |es|
    ensures OwnsExactly(open - {es[k].toFd, es[k].fromFd}, listener, es[..k] + es[k + 1..])
  {
    var gone, open', es' := es[k], open - {es[k].toFd, es[k].fromFd}, es[..k] + es[k + 1..];
    forall i {:trigger es'[i]} | 0 <= i < |es'|
      ensures && es'[i].toFd in open' && open'[es'[i].toFd] == ToChild(es'[i].pid)
              && es'[i].fromFd in open' && open'[es'[i].fromFd] == FromChild(es'[i].pid)
    {
      var j := if i < k then i else i + 1;
      assert es'[i] == es[j] && es[j].pid != gone.pid;
    }
    forall fd | fd in open' ensures fd == listener || HeldBy(es', fd) {
      if fd != listener {
        SurvivorsHold(es, k, fd);
      }
    }
  }

  lemma SurvivorsHold(es: seq<Entry>, k: nat, fd: int)
    requires k < |es| && HeldBy(es, fd) && fd != es[k].toFd && fd != es[k].fromFd
    ensures HeldBy(es[..k] + es[k + 1..], fd)
  {
    var i :| 0 <= i < |es| && (es[i].toFd == fd || es[i].fromFd == fd);
    var es' := es[..k] + es[k + 1..];
    assert es'[if i < k then i else i - 1] == es[i];
  }

  lemma DropKeepsDistinct(es: seq<Entry>, k: nat)
    requires DistinctPids(es) && k < |es|
    ensures DistinctPids(es[..k] + es[k + 1..])
  {
    var rest := es[..k] + es[k + 1..];
    assert forall i :: 0 <= i < |rest| ==> rest[i] == es[if i < k then i else i + 1];
  }

  lemma Stranger(es: seq<Entry>, pid: int)
    requires SlotOf(es, pid) == |es|
    ensures pid !in Pids(es)
  {
  }

  lemma RestActive(es: seq<Entry>, k: nat)
    requires k < |es| && forall i :: 0 <= i < |es| ==> es[i].active
    ensures var rest := es[..k] + es[k + 1..]; forall i :: 0 <= i < |rest| ==> rest[i].active
  {
  }

  lemma NoRooms(slot: nat)
    ensures ListPosts([], slot) == []
  {
  }

  lemma FiveDistinct(a: int, b: int, c: int, d: int, e: int)
    requires |{a, b, c, d, e}| == 5
    ensures a != b && a != c && a != d && a != e && b != c && b != d && b != e && c != d && c != e && d != e
  {
  }

  /** The descriptors left when the child `pid` has been removed. */
  function Released(open: map<int, End>, es: seq<Entry>, pid: int): map<int, End> {
    var k := SlotOf(es, pid);
    if k < |es| then open - {es[k].toFd, es[k].fromFd} else open
  }

  /** What the kernel may answer when asked for a descriptor: -1, or one not in use. */
  predicate Offer(open: map<int, End>, fd: int) {
    fd == -1 || (fd >= 0 && fd !in open)
  }

  class Parent {
    const children: array<Entry>
    const roomTable: array<string>
    const listener: int
    var count: nat
    var roomCount: nat
    var open: map<int, End>
    var posted: seq<Post>   // every write to a child's pipe, in order
    ghost var answers: seq<Answer>   // what the kernel has answered, in order
    ghost var forked: set<int>     // the children it has made that are not reaped

    predicate Shaped()
      reads this`count, this`roomCount
    {
      && children.Length == MAX_CLIENT && roomTable.Length == CHAT_ROOM
      && count <= MAX_CLIENT && roomCount <= CHAT_ROOM
    }

    ghost function Entries(): seq<Entry>
      requires Shaped()
      reads this`count, this`roomCount, children
    {
      children[..count]
    }

    ghost function Rooms(): seq<string>
      requires Shaped()
      reads this`count, this`roomCount, roomTable
    {
      roomTable[..roomCount]
    }

    ghost function State(): Tables
      requires Shaped()
      reads this`count, this`roomCount, children, roomTable
    {
      Tables(Entries(), Rooms())
    }

    ghost predicate Valid()
      reads this, children
    {
      && Shaped()
      && DistinctPids(Entries())
      && OwnsExactly(open, listener, Entries())
      && forked == Pids(Entries())
      && forall i :: 0 <= i < count ==> children[i].active
    }

    constructor (listener: int)
      ensures Valid() && State() == Tables([], []) && posted == []
      ensures this.listener == listener && open == map[listener := Listener] && answers == []
      ensures fresh(children) && fresh(roomTable)
    {
      this.listener := listener;
      children := new Entry[MAX_CLIENT](_ => Entry(0, "", "", 0, 0, false));
      roomTable := new string[CHAT_ROOM](_ => "");
      count, roomCount, posted := 0, 0, [];
      open := map[listener := Listener];
      answers, forked := [], {};
    }

    // -------------------------------------------------------- descriptors

    method Close(fd: int)
      requires fd in open
      modifies this`open
      ensures open == old(open) - {fd}
    {
      open := open - {fd};
    }

    /** The kernel hands out a descriptor that is not in use, or fails. */
    method OpenOne(end: End) returns (fd: int)
      modifies this`open
      ensures fd == -1 ==> open == old(open)
      ensures fd != -1 ==> fd >= 0 && fd !in old(open) && open == old(open)[fd := end]
    {
      assert Offer(open, -1);
      fd :| Offer(open, fd);
      assert Offer(open, fd);
      if fd != -1 {
        open := open[fd := end];
      }
    }

    method AcceptConnection() returns (fd: int)
      modifies this`open, this`answers
      ensures answers == old(answers) + [Accepted(fd != -1)]
      ensures fd == -1 ==> open == old(open)
      ensures fd != -1 ==> fd >= 0 && fd !in old(open) && open == old(open)[fd := Connection]
    {
      fd := OpenOne(Connection);
      answers := answers + [Accepted(fd != -1)];
    }

    method Pipe() returns (ok: bool, r: int, w: int)
      modifies this`open, this`answers
      ensures answers == old(answers) + [Piped(ok)]
      ensures !ok ==> open == old(open)
      ensures ok ==> r != w && r !in old(open) && w !in old(open)
                     && open == old(open)[r := ChildSide][w := ChildSide]
    {
      r := OpenOne(ChildSide);
      w := -1;
      if r != -1 {
        w := OpenOne(ChildSide);
        if w == -1 {
          Close(r);
          assert open == old(open);
        }
      }
      ok := r != -1 && w != -1;
      answers := answers + [Piped(ok)];
    }

    /**
     One connection, from `accept` to the new table entry, with every way it can
     fail. Whatever happens, nothing stays open that no entry accounts for, and every
     child that `fork` makes gets an entry.
     */
    method Admit() returns (r: Admission)
      requires Valid()
      modifies this, children
      ensures Valid() && Rooms() == old(Rooms()) && posted == old(posted)
      ensures !r.Admitted? ==> open == old(open) && Entries() == old(Entries()) && forked == old(forked)
      ensures old(answers) <= answers && Explains(answers[|old(answers)|..], r, old(count) == 32)
      ensures r.Admitted? ==> forked == old(forked) + {r.pid as int}
      ensures r.Admitted? ==>
                && count == old(count) + 1
                && r.pid as int !in old(Pids(Entries()))
                && (var e := children[old(count)];
                    && e == Entry(r.pid, "", "", e.toFd, e.fromFd, true)
                    && e.toFd !in old(open) && e.fromFd !in old(open) && e.toFd != e.fromFd
                    && open == old(open)[e.toFd := ToChild(r.pid)][e.fromFd := FromChild(r.pid)]
                    && Entries() == old(Entries()) + [e])
    {
      hide DistinctPids, OwnsExactly, Pids;
      ghost var before := answers;
      var csock := AcceptConnection();
      if csock == -1 {
        assert answers[|before|..] == [Accepted(false)];
        return NoConnection;
      }
      if count >= MAX_CLIENT {
        Close(csock);
        assert open == old(open) && answers[|before|..] == [Accepted(true)];
        return Refused;
      }
      var piped, p0, p1, c0, c1 := OpenPipes(csock, old(open));
      if !piped {
        assert answers[|before|..] == [Accepted(true), Piped(false)]
               || answers[|before|..] == [Accepted(true), Piped(true), Piped(false)];
        return PipeFailed;
      }
      ghost var made := answers;
      r := ForkChild(csock, p0, p1, c0, c1, old(open));
      assert answers[|before|..] == [Accepted(true), Piped(true), Piped(true)] + answers[|made|..];
    }

    /** The pipes' modes and the fork; the parent's half of what follows. */
    method ForkChild(csock: int, p0: int, p1: int, c0: int, c1: int, ghost before: map<int, End>) returns (r: Admission)
      requires Shaped() && count < MAX_CLIENT && DistinctPids(Entries()) && forked == Pids(Entries())
      requires OwnsExactly(before, listener, Entries()) && forall i :: 0 <= i < count ==> children[i].active
      requires {csock, c0, c1, p0, p1} !! before.Keys && |{csock, c0, c1, p0, p1}| == 5
      requires open == before[csock := Connection][c0 := ChildSide][c1 := ChildSide][p0 := ChildSide][p1 := ChildSide]
      modifies this`open, this`answers, this`forked, this`count, children
      ensures Valid() && old(answers) <= answers
      ensures r.ModeFailed? || r.ForkFailed? || r.Admitted?
      ensures !r.Admitted? ==> open == before && Entries() == old(Entries()) && forked == old(forked)
      ensures match r
              case Admitted(pid) =>
                && pid > 0 && answers[|old(answers)|..] == [ModesSet(true), ForkReturned(pid)]
                && pid as int !in old(forked) && forked == old(forked) + {pid as int}
                && p1 !in before && c0 !in before && p1 != c0
                && open == before[p1 := ToChild(pid)][c0 := FromChild(pid)]
                && count == old(count) + 1 && Entries() == old(Entries()) + [Entry(pid, "", "", p1, c0, true)]
              case ForkFailed =>
                var made := answers[|old(answers)|..];
                |made| == 2 && made[0] == ModesSet(true) && made[1].ForkReturned? && made[1].pid < 0
              case _ => answers[|old(answers)|..] == [ModesSet(false)]
    {
      hide DistinctPids, OwnsExactly, Pids;
      var pid: int := -1;
      r := ModeFailed;
      var modeOk := SetModes();
      if modeOk {
        pid := Fork();
        r := if pid < 0 then ForkFailed else Admitted(pid);
      }
      if pid < 0 {
        CloseAll(csock, p0, p1, c0, c1, before);
        return;
      }
      KeepOwnEnds(csock, p0, p1, c0, c1, pid, before);
      if count < MAX_CLIENT {
        Enlist(Entry(pid, "", "", p1, c0, true), before);
      } else {
        assert false;
      }
    }

    /** After the fork the parent keeps one end of each pipe. */
    method KeepOwnEnds(csock: int, p0: int, p1: int, c0: int, c1: int, pid: nat, ghost before: map<int, End>)
      requires {csock, c0, c1, p0, p1} !! before.Keys && |{csock, c0, c1, p0, p1}| == 5
      requires open == before[csock := Connection][c0 := ChildSide][c1 := ChildSide][p0 := ChildSide][p1 := ChildSide]
      modifies this`open
      ensures open == before[p1 := ToChild(pid)][c0 := FromChild(pid)]
      ensures p1 !in before && c0 !in before && p1 != c0
    {
      FiveDistinct(csock, c0, c1, p0, p1);
      Close(csock);
      Close(p0);
      Close(c1);
      open := open[p1 := ToChild(pid)][c0 := FromChild(pid)];
      assert open == before[p1 := ToChild(pid)][c0 := FromChild(pid)];
    }

    /** Both pipes for an accepted connection; on failure the connection is closed too. */
    method OpenPipes(csock: int, ghost before: map<int, End>)
      returns (ok: bool, p0: int, p1: int, c0: int, c1: int)
      requires csock !in before && open == before[csock := Connection]
      modifies this`open, this`answers
      ensures if ok then answers == old(answers) + [Piped(true), Piped(true)]
              else answers == old(answers) + [Piped(false)] || answers == old(answers) + [Piped(true), Piped(false)]
      ensures !ok ==> open == before
      ensures ok ==> |{csock, c0, c1, p0, p1}| == 5 && {csock, c0, c1, p0, p1} !! before.Keys
      ensures ok ==> open == before[csock := Connection][c0 := ChildSide][c1 := ChildSide][p0 := ChildSide][p1 := ChildSide]
    {
      p0, p1 := -1, -1;
      ok, c0, c1 := Pipe();
      if !ok {
        Close(csock);
        assert open == before;
        return;
      }
      ok, p0, p1 := Pipe();
      if !ok {
        Close(c0);
        Close(c1);
        Close(csock);
        assert open == before;
        return;
      }
      assert {csock, c0, c1, p0, p1} - {csock} - {c0} - {c1} - {p0} == {p1};
    }

    method CloseAll(csock: int, p0: int, p1: int, c0: int, c1: int, ghost before: map<int, End>)
      requires {csock, c0, c1, p0, p1} !! before.Keys && |{csock, c0, c1, p0, p1}| == 5
      requires open == before[csock := Connection][c0 := ChildSide][c1 := ChildSide][p0 := ChildSide][p1 := ChildSide]
      modifies this`open
      ensures open == before
    {
      FiveDistinct(csock, c0, c1, p0, p1);
      Close(csock);
      Close(p0);
      Close(p1);
      Close(c0);
      Close(c1);
      assert open == before;
    }

    method Fork() returns (pid: int)
      requires Shaped() && forked == Pids(Entries())
      modifies this`answers, this`forked
      ensures pid != 0 && answers == old(answers) + [ForkReturned(pid)]
      ensures pid < 0 ==> forked == old(forked)
      ensures pid > 0 ==> pid !in old(forked) && forked == old(forked) + {pid}
      ensures pid > 0 ==> forall i :: 0 <= i < count ==> children[i].pid != pid
    {
      assert MayFork(-1);
      pid :| MayFork(pid);
      assert MayFork(pid);
      answers := answers + [ForkReturned(pid)];
      if pid > 0 {
        forked := forked + {pid};
      }
    }

    method SetModes() returns (ok: bool)
      modifies this`answers
      ensures answers == old(answers) + [ModesSet(ok)]
    {
      ok :| true;
      answers := answers + [ModesSet(ok)];
    }

    /** `fork` fails or returns a process id that no unreaped child has. */
    predicate MayFork(pid: int)
      requires Shaped()
      reads this`count, this`roomCount, children
    {
      pid < 0 || (pid > 0 && forall i :: 0 <= i < count ==> children[i].pid != pid)
    }

    /** The new child gets the slot after the last. */
    method Enlist(e: Entry, ghost before: map<int, End>)
      requires Shaped() && count < MAX_CLIENT && DistinctPids(Entries())
      requires forall i :: 0 <= i < count ==> children[i].active && children[i].pid != e.pid
      requires e.active && OwnsExactly(before, listener, Entries())
      requires e.toFd !in before && e.fromFd !in before && e.toFd != e.fromFd
      requires open == before[e.toFd := ToChild(e.pid)][e.fromFd := FromChild(e.pid)]
      requires forked == Pids(Entries()) + {e.pid as int}
      modifies this`count, children
      ensures Valid() && count == old(count) + 1 && Entries() == old(Entries()) + [e]
    {
      ghost var es := Entries();
      AdmissionKeepsOwnership(before, listener, es, e);
      AppendPid(es, e);
      children[count] := e;
      count := count + 1;
      assert Entries() == es + [e];
    }

    /** `clean_active_process` for one process id that `waitpid` returned. */
    method RemoveChild(pid: int)
      requires Valid()
      modifies this, children
      ensures Valid() && Rooms() == old(Rooms()) && posted == old(posted)
      ensures Entries() == Remove(old(Entries()), pid)
      ensures open == Released(old(open), old(Entries()), pid)
      ensures answers == old(answers) && forked == old(forked) - {pid}
    {
      hide DistinctPids, OwnsExactly, Pids;
      var i := FindClient(pid);
      if i != -1 {
        DropSlot(i);
      } else {
        Stranger(Entries(), pid);
      }
    }

    method DropSlot(i: nat)
      requires Valid() && i < count
      modifies this`open, this`count, this`forked, children
      ensures Valid() && forked == old(forked) - {old(Entries())[i].pid as int}
      ensures Entries() == old(Entries())[..i] + old(Entries())[i + 1..]
      ensures open == old(open) - {old(Entries())[i].toFd, old(Entries())[i].fromFd}
    {
      hide DistinctPids, OwnsExactly, Pids;
      ghost var es := Entries();
      ghost var rest := es[..i] + es[i + 1..];
      DropKeepsDistinct(es, i);
      RestActive(es, i);
      DropPids(es, i);
      CloseEnds(i);
      children[i] := children[i].(active := false);
      CloseGap(i, es);
      count := count - 1;
      forked := forked - {es[i].pid as int};
      assert Entries() == rest;
      assert forall j :: 0 <= j < count ==> children[j] == rest[j];
    }

    method CloseEnds(i: nat)
      requires Valid() && i < count
      modifies this`open
      ensures open == old(open) - {Entries()[i].toFd, Entries()[i].fromFd}
      ensures OwnsExactly(open, listener, Entries()[..i] + Entries()[i + 1..])
    {
      RemovalKeepsOwnership(open, listener, Entries(), i);
      Close(children[i].toFd);
      Close(children[i].fromFd);
      assert open == old(open) - {Entries()[i].toFd, Entries()[i].fromFd};
    }

    /** The shift that closes slot `i` up. */
    method CloseGap(i: nat, ghost es: seq<Entry>)
      requires Shaped() && i < count == |es|
      requires forall j :: 0 <= j < count && j != i ==> children[j] == es[j]
      modifies children
      ensures children[..count - 1] == es[..i] + es[i + 1..]
    {
      var j := i;
      while j < count - 1
        invariant i <= j <= count - 1
        invariant forall k :: 0 <= k < i ==> children[k] == es[k]
        invariant forall k :: i <= k < j ==> children[k] == es[k + 1]
        invariant forall k :: j < k < count ==> children[k] == es[k]
      {
        children[j] := children[j + 1];
        j := j + 1;
      }
    }

    /** `clean_active_process`: `reaped` is what successive calls of `waitpid` return. */
    method CleanActiveProcess(reaped: seq<int>)
      requires Valid()
      modifies this, children
      ensures Valid() && Rooms() == old(Rooms()) && posted == old(posted)
      ensures Entries() == Without(old(Entries()), set p | p in reaped)
      ensures open.Keys <= old(open).Keys
      ensures answers == old(answers)
    {
      hide DistinctPids, OwnsExactly, Pids, Remove, SlotOf;
      ghost var es := Entries();
      ReapIsStableFilter(es, reaped);
      var n := 0;
      while n < |reaped|
        invariant n <= |reaped| && Valid() && Rooms() == old(Rooms()) && posted == old(posted)
        invariant RemoveEach(Entries(), reaped[n..]) == RemoveEach(es, reaped)
        invariant open.Keys <= old(open).Keys
        invariant answers == old(answers)
      {
        assert reaped[n..][1..] == reaped[n + 1..];
        RemoveChild(reaped[n]);
        n := n + 1;
      }
      assert reaped[n..] == [];
    }

    /** The shutdown loop and the final `close` leave no descriptor open. */
    method Shutdown()
      requires Valid()
      modifies this`open
      ensures open == map[]
    {
      ghost var es := Entries();
      var i := 0;
      while i < count
        invariant i <= count && Owed(es, i)
      {
        OwnedPair(es, i);
        Close(children[i].toFd);
        Close(children[i].fromFd);
        i := i + 1;
      }
      assert es[i..] == [];
      assert forall fd :: fd in open ==> fd == listener;
      Close(listener);
    }

    /** From slot `i` on, the shutdown still has to close exactly what the entries hold. */
    ghost predicate Owed(es: seq<Entry>, i: nat)
      reads this`open
    {
      i <= |es| && DistinctPids(es[i..]) && OwnsExactly(open, listener, es[i..])
    }

    lemma OwnedPair(es: seq<Entry>, i: nat)
      requires Owed(es, i) && i < |es|
      ensures es[i].toFd in open && es[i].fromFd in open && es[i].toFd != es[i].fromFd
      ensures DistinctPids(es[i + 1..])
      ensures OwnsExactly(open - {es[i].toFd} - {es[i].fromFd}, listener, es[i + 1..])
    {
      hide DistinctPids;
      var rest := es[i..];
      assert rest[0] == es[i];
      RemovalKeepsOwnership(open, listener, rest, 0);
      DropKeepsDistinct(rest, 0);
      assert rest[..0] + rest[1..] == es[i + 1..];
      assert open - {es[i].toFd} - {es[i].fromFd} == open - {es[i].toFd, es[i].fromFd};
    }

    // ----------------------------------------------------------- dispatch

    /** The search for the sender's slot; -1 when there is none. */
    method FindClient(from: int) returns (k: int)
      requires Shaped()
      ensures k == if SlotOf(Entries(), from) < count then SlotOf(Entries(), from) else -1
    {
      var i := 0;
      while i < count
        invariant i <= count
        invariant forall j :: 0 <= j < i ==> children[j].pid != from
      {
        if children[i].pid == from {
          assert Entries()[i].pid == from;
          return i;
        }
        i := i + 1;
      }
      return -1;
    }

    method SetName(i: nat, name: string)
      requires Valid() && i < count
      modifies children
      ensures Valid()
      ensures Entries() == old(Entries())[i := old(children[i]).(name := name)]
    {
      children[i] := children[i].(name := name);
      assert Entries() == old(Entries())[i := old(children[i]).(name := name)];
      RewriteKeepsValid(old(Entries()));
    }

    method SetClientRoom(from: int, room: string)
      requires Valid()
      modifies children
      ensures Valid()
      ensures Entries() == SetRoom(old(Entries()), from, room)
    {
      var k := FindClient(from);
      if k != -1 {
        children[k] := children[k].(room := room);
        assert Entries() == old(Entries())[k := old(Entries())[k].(room := room)];
        RewriteKeepsValid(old(Entries()));
      }
    }

    /** Names and rooms may be rewritten freely; the invariant does not speak of them. */
    lemma RewriteKeepsValid(es: seq<Entry>)
      requires Shaped() && |es| == count && DistinctPids(es) && OwnsExactly(open, listener, es) && forked == Pids(es)
      requires forall j :: 0 <= j < count ==>
                 children[j] == es[j].(name := children[j].name, room := children[j].room) && es[j].active
      ensures Valid()
    {
      var now := Entries();
      assert forall j :: 0 <= j < |es| ==> now[j] == es[j].(name := now[j].name, room := now[j].room);
      SamePids(es, now);
      forall fd | fd in open ensures fd == listener || HeldBy(now, fd) {
        if fd != listener {
          var i :| 0 <= i < |es| && (es[i].toFd == fd || es[i].fromFd == fd);
          assert now[i].toFd == es[i].toFd && now[i].fromFd == es[i].fromFd;
        }
      }
    }

    method CreateRoom(name: string)
      requires Shaped()
      modifies this`roomCount, roomTable
      ensures Shaped() && Rooms() == AddRoom(old(Rooms()), name)
    {
      if roomCount < CHAT_ROOM {
        roomTable[roomCount] := Clip(name);
        roomCount := roomCount + 1;
      }
    }

    /** First loop of `rm`: everybody in the room is moved out of it. */
    method EvictRoom(room: string)
      requires Valid()
      modifies children
      ensures Valid() && Entries() == ClearRoom(old(Entries()), room)
    {
      hide DistinctPids, OwnsExactly, Pids;
      ghost var es := Entries();
      var k := 0;
      while k < count
        invariant k <= count
        invariant forall j :: 0 <= j < k ==> children[j] == LeaveRoom(es[j], room)
        invariant forall j :: k <= j < count ==> children[j] == es[j]
      {
        if children[k].room == room {
          children[k] := children[k].(room := "");
        }
        k := k + 1;
      }
      assert Entries() == ClearRoom(es, room);
      RewriteKeepsValid(es);
    }

    /** Second loop of `rm`: the first room of that name is shifted out of the list. */
    method DeleteRoom(name: string)
      requires Shaped()
      modifies this`roomCount, roomTable
      ensures Shaped() && Rooms() == RemoveRoom(old(Rooms()), name)
    {
      ghost var rs := Rooms();
      var k := 0;
      while k < roomCount
        invariant k <= roomCount && Rooms() == rs && roomCount == old(roomCount)
        invariant forall j :: 0 <= j < k ==> rs[j] != name
      {
        if roomTable[k] == name {
          assert rs[k] == name && RoomIndex(rs, name) == k;
          ShiftRooms(k);
          roomCount := roomCount - 1;
          assert Rooms() == rs[..k] + rs[k + 1..];
          return;
        }
        k := k + 1;
      }
      assert RoomIndex(rs, name) == |rs|;
    }

    method ShiftRooms(k: nat)
      requires Shaped() && k < roomCount
      modifies roomTable
      ensures roomTable[..roomCount - 1] == old(Rooms()[..k] + Rooms()[k + 1..])
    {
      ghost var rs := Rooms();
      if k < roomCount - 1 {
        var j := k;
        while j < roomCount - 1
          invariant k <= j <= roomCount - 1
          invariant forall m :: 0 <= m < k ==> roomTable[m] == rs[m]
          invariant forall m :: k <= m < j ==> roomTable[m] == rs[m + 1]
          invariant forall m :: j < m < roomCount ==> roomTable[m] == rs[m]
        {
          roomTable[j] := roomTable[j + 1];
          j := j + 1;
        }
      }
    }

    method WriteTo(slot: nat, bytes: string)
      modifies this`posted
      ensures posted == old(posted) + [Post(slot, bytes)]
    {
      posted := posted + [Post(slot, bytes)];
    }

    method SendRoomList(slot: nat)
      requires Shaped()
      modifies this`posted
      ensures posted == old(posted) + ListPosts(Rooms(), slot)
    {
      var k := 0;
      while k < roomCount
        invariant k <= roomCount && posted == old(posted) + ListPosts(Rooms()[..k], slot)
      {
        assert Rooms()[..k + 1][..k] == Rooms()[..k];
        WriteTo(slot, roomTable[k]);
        k := k + 1;
      }
      assert Rooms()[..k] == Rooms();
    }

    method SendUsers(slot: nat)
      requires Shaped() && slot < count
      modifies this`posted
      ensures posted == old(posted) + UsersPosts(Entries(), slot, count)
    {
      var k := 0;
      while k < count
        invariant k <= count && posted == old(posted) + UsersPosts(Entries(), slot, k)
      {
        if children[k].room == children[slot].room {
          WriteTo(slot, children[k].name + "\n");
        }
        k := k + 1;
      }
    }

    method Broadcast(i: nat, content: string)
      requires Shaped() && i < count
      modifies this`posted
      ensures posted == old(posted) + if children[i].room == "" then []
                                      else SayPosts(Entries(), children[i].room, ChatLine(children[i], content), count)
    {
      var line := children[i].name + ": " + content + [NUL];
      var room := children[i].room;
      if room == "" {
        return;
      }
      var j := 0;
      while j < count
        invariant j <= count && posted == old(posted) + SayPosts(Entries(), room, line, j)
      {
        if children[j].active && children[j].room == room {
          WriteTo(j, line);
        }
        j := j + 1;
      }
    }

    method SendWhisper(from: int, argument: string)
      requires Shaped()
      modifies this`posted
      ensures posted == old(posted) + WhisperPosts(Entries(), SlotOf(Entries(), from), argument)
    {
      hide Strtok, WhisperLine, SlotOf, SlotNamed;
      var words := Strtok(argument, ' ');
      if words.token.None? {
        return;
      }
      var name, text := words.token.value, words.rest;
      var client := FindClient(from);
      if client != -1 {
        var k := 0;
        while k < count
          invariant k <= count && posted == old(posted)
          invariant forall j :: 0 <= j < k ==> children[j].name != name
        {
          if children[k].name == name {
            assert Entries()[k].name == name && SlotNamed(Entries(), name) == k;
            WriteTo(k, WhisperLine(children[client], text));
            return;
          }
          k := k + 1;
        }
        assert SlotNamed(Entries(), name) == count;
      }
    }

    /**
     What the parent does with one record read on slot `i`: the tables move as
     `Handle` says and exactly its writes are made. `inTable` is false when the parent
     would use slot -1; then it has done nothing before.
     */
    method HandleRecord(i: nat, from: int, content: string, beyond: string) returns (inTable: bool)
      requires Valid() && i < count
      modifies this`posted, this`roomCount, children, roomTable
      ensures inTable <==> !old(ListsForStranger(State(), from, content))
      ensures Valid() && count == old(count)
      ensures State() == old(Handle(State(), i, from, content, beyond)).tables
      ensures posted == old(posted) + old(Handle(State(), i, from, content, beyond)).posts
    {
      hide DistinctPids, OwnsExactly, Pids, HandleCommand, CheckCommand, SlotOf, SayPosts, WhisperPosts, Argument, Clip;
      ghost var plan := Handle(State(), i, from, content, beyond);
      inTable := true;
      if content != "" && content[0] == '/' {
        inTable := HandleSlash(from, content, beyond);
        assert posted == old(posted) + plan.posts;
      } else if children[i].name == "" {
        SetName(i, Clip(content));
        assert plan.posts == [];
      } else if content != "" && content[0] == '!' {
        if CheckCommand(content, "whisper") {
          SendWhisper(from, Argument(content, "whisper", beyond));
        } else {
          assert plan.posts == [];
        }
      } else {
        Broadcast(i, content);
        assert posted == old(posted) + plan.posts;
      }
    }

    method HandleSlash(from: int, content: string, beyond: string) returns (inTable: bool)
      requires Valid()
      modifies this`posted, this`roomCount, children, roomTable
      ensures inTable <==> !(CommandKind(content).List? && old(roomCount) > 0 && SlotOf(old(Entries()), from) >= count)
      ensures Valid() && count == old(count)
      ensures State() == old(HandleCommand(State(), from, content, beyond)).tables
      ensures posted == old(posted) + old(HandleCommand(State(), from, content, beyond)).posts
    {
      hide DistinctPids, OwnsExactly, Pids, CommandKind, SlotOf, ListPosts, UsersPosts, AddRoom, SetRoom, ClearRoom, RemoveRoom, Argument, Clip;
      inTable := true;
      match CommandKind(content)
      case Add =>
        CreateRoom(Argument(content, "add", beyond));
      case Join =>
        SetClientRoom(from, Clip(Argument(content, "join", beyond)));
      case Rm =>
        EvictRoom(Argument(content, "rm", beyond));
        DeleteRoom(Argument(content, "rm", beyond));
      case List =>
        var k := FindClient(from);
        if k == -1 {
          inTable := roomCount == 0;
        } else if roomCount > 0 {
          SendRoomList(k);
        } else {
          NoRooms(SlotOf(Entries(), from));
        }
      case Leave =>
        SetClientRoom(from, "");
      case Users =>
        var k := FindClient(from);
        if k != -1 {
          SendUsers(k);
        }
      case Other =>
    }
  }
}
