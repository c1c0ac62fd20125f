/**
 The server's `select` loop: descriptor sets are changed, and descriptor numbers
 given back and handed out again, while the loop walks over them.
 */
module SelectLoop {
  const FD_SETSIZE: nat := 1024

  /** What the loop does for one ready descriptor; -1 is a failed `accept`. */
  datatype Action = Accepting(newfd: int) | Reading(fd: nat, kept: bool)

  function KeyOf(a: Action, listener: nat): nat {
    if a.Accepting? then listener else a.fd
  }

  /** The stages of serving one client, in their order. */
  datatype Stage = TakeType | TakeSize | Allocate | TakeBody | Process | SendAnswer

  const STAGES: seq<Stage> := [TakeType, TakeSize, Allocate, TakeBody, Process, SendAnswer]

  /** What is done outside the loop's own variables, and whether it succeeds. */
  datatype Call = Accepted(newfd: int) | Staged(fd: nat, stage: Stage, ok: bool)

  /**
   The calls that serve client `fd`: the stages in order up to the first that fails,
   which processing never does; the client is kept if and only if all six succeed.
   */
  predicate ServedBy(fd: nat, kept: bool, calls: seq<Call>) {
    && 1 <= |calls| <= |STAGES| && |calls| != 5
    && (kept ==> |calls| == |STAGES|)
    && forall j :: 0 <= j < |calls| ==> calls[j] == Staged(fd, STAGES[j], j < |calls| - 1 || kept)
  }

  /** The first stages, all of which have succeeded. */
  predicate AllDone(fd: nat, calls: seq<Call>) {
    |calls| <= |STAGES| && forall j :: 0 <= j < |calls| ==> calls[j] == Staged(fd, STAGES[j], true)
  }

  lemma NoneDone(fd: nat)
    ensures AllDone(fd, [])
  {
  }

  /** One more stage of a reception, with its outcome. */
  ghost function Done(fd: nat, calls: seq<Call>, ok: bool): (now: seq<Call>)
    requires AllDone(fd, calls) && |calls| < 4
    ensures now == calls + [Staged(fd, STAGES[|calls|], ok)]
    ensures if ok then AllDone(fd, now) else ServedBy(fd, false, now)
  {
    calls + [Staged(fd, STAGES[|calls|], ok)]
  }

  /** The calls an entry of the log stands for. */
  predicate DoneBy(a: Action, calls: seq<Call>) {
    match a
    case Accepting(newfd) => calls == [Accepted(newfd)]
    case Reading(fd, kept) => ServedBy(fd, kept, calls)
  }

  function Joined(parts: seq<seq<Call>>): seq<Call> {
    if parts == [] then [] else Joined(parts[..|parts| - 1]) + parts[|parts| - 1]
  }

  /** The log is what the calls say: entry by entry, nothing left out and nothing added. */
  predicate Recorded(log: seq<Action>, parts: seq<seq<Call>>) {
    |parts| == |log| && forall k :: 0 <= k < |log| ==> DoneBy(log[k], parts[k])
  }

  lemma RecordNone()
    ensures Recorded([], []) && Joined([]) == []
  {
  }

  lemma RecordOne(log: seq<Action>, parts: seq<seq<Call>>, a: Action, calls: seq<Call>)
    requires Recorded(log, parts) && DoneBy(a, calls)
    ensures Recorded(log + [a], parts + [calls]) && Joined(parts + [calls]) == Joined(parts) + calls
  {
    assert (parts + [calls])[..|parts|] == parts;
  }

  predicate Ascending(log: seq<Action>, listener: nat) {
    forall a, b :: 0 <= a < b < |log| ==> KeyOf(log[a], listener) < KeyOf(log[b], listener)
  }

  ghost predicate Serves(log: seq<Action>, listener: nat, fd: nat) {
    exists k :: 0 <= k < |log| && KeyOf(log[k], listener) == fd
  }

  /** The log serves these descriptors and no other, and reads from all but the listener. */
  ghost predicate Covers(log: seq<Action>, listener: nat, fds: set<nat>) {
    && (forall k :: 0 <= k < |log| && log[k].Reading? ==> log[k].fd != listener)
    && (forall k :: 0 <= k < |log| ==> KeyOf(log[k], listener) in fds)
    && forall fd :: fd in fds ==> Serves(log, listener, fd)
  }

  function Dropped(log: seq<Action>): set<nat> {
    set k | 0 <= k < |log| && log[k].Reading? && !log[k].kept :: log[k].fd
  }

  function Added(log: seq<Action>): set<int> {
    set k | 0 <= k < |log| && log[k].Accepting? && log[k].newfd != -1 :: log[k].newfd
  }

  /** No connection is read after it was accepted in the same round. */
  ghost predicate NewcomersWait(log: seq<Action>) {
    forall a, b :: 0 <= a < b < |log| && log[a].Accepting? && log[b].Reading? ==> log[a].newfd != log[b].fd
  }

  predicate MayAccept(open: set<nat>, fd: int) {
    fd == -1 || (0 <= fd < FD_SETSIZE && fd !in open)
  }

  class Server {
    const listener: nat
    var master: set<nat>
    var fdmax: nat
    ghost var open: set<nat>      // sockets the kernel has open for us
    ghost var accepted: nat       // how many connections were ever accepted
    ghost var closed: nat         // how many of them were closed
    ghost var calls: seq<Call>    // everything done for the loop, in order
    var heap: set<nat>      // allocated buffers
    var brk: nat            // every buffer lies below

    /**
     `fdmax` is the maximum of `master`, which is the listener and the open
     connections.
     */
    ghost predicate Valid()
      reads this
    {
      && listener in master
      && fdmax in master && (forall fd :: fd in master ==> fd <= fdmax) && fdmax < FD_SETSIZE
      && open == master
      && accepted == closed + |master - {listener}|
      && HeapOk()
    }

    ghost predicate HeapOk()
      reads this`heap, this`brk
    {
      forall p :: p in heap ==> p < brk
    }

    constructor (listener: nat)
      requires listener < FD_SETSIZE
      ensures Valid() && this.listener == listener && master == {listener} && heap == {} && accepted == 0
    {
      this.listener := listener;
      master, fdmax, open := {listener}, listener, {listener};
      accepted, closed, calls, heap, brk := 0, 0, [], {}, 0;
    }

    // -------------------------------------------------------------- kernel

    method Close(fd: nat)
      requires fd in open
      modifies this`open, this`closed
      ensures open == old(open) - {fd}
      ensures closed == old(closed) + if fd == listener then 0 else 1
    {
      open := open - {fd};
      if fd != listener {
        closed := closed + 1;
      }
    }

    /** `recv_all` of a field, and `send_all` of the answer: they succeed or fail. */
    method Transfer(fd: nat, stage: Stage) returns (ok: bool)
      requires fd in open
      modifies this`calls
      ensures calls == old(calls) + [Staged(fd, stage, ok)]
    {
      ok :| true;
      calls := calls + [Staged(fd, stage, ok)];
    }

    /** The frame is displayed, played or refused; whatever comes of it is answered. */
    method ProcessFrame(fd: nat, buffer: nat)
      requires fd in open && buffer in heap
      modifies this`calls
      ensures calls == old(calls) + [Staged(fd, Process, true)]
    {
      calls := calls + [Staged(fd, Process, true)];
    }

    method Malloc(fd: nat) returns (p: nat, got: bool)
      requires HeapOk()
      modifies this`heap, this`brk, this`calls
      ensures HeapOk()
      ensures calls == old(calls) + [Staged(fd, Allocate, got)]
      ensures got ==> p !in old(heap) && heap == old(heap) + {p}
      ensures !got ==> heap == old(heap)
    {
      p := brk;
      got :| true;
      calls := calls + [Staged(fd, Allocate, got)];
      if got {
        heap := heap + {p};
        brk := brk + 1;
      }
    }

    method Free(p: nat)
      requires p in heap
      modifies this`heap
      ensures old(HeapOk()) ==> HeapOk()
      ensures heap == old(heap) - {p}
    {
      heap := heap - {p};
    }

    // ---------------------------------------------------------- the branches

    /**
     One ready client, along every path through the reception, the processing and
     the answer: the body buffer is freed exactly once if it was allocated, and the
     connection is closed once unless it is kept.
     */
    method ServeClient(i: nat) returns (kept: bool, ghost done: seq<Call>)
      requires Valid() && i in master && i != listener
      modifies this
      ensures Valid() && heap == old(heap) && accepted == old(accepted)
      ensures calls == old(calls) + done && ServedBy(i, kept, done)
      ensures kept ==> master == old(master) && fdmax == old(fdmax)
      ensures !kept ==> master == old(master) - {i}
    {
      hide ServedBy;
      kept, done := Attend(i);
      if !kept {
        Forget(i);
      }
    }

    /** Reception, processing and answer, with the buffer they need in between. */
    method Attend(i: nat) returns (kept: bool, ghost done: seq<Call>)
      requires i in open && HeapOk()
      modifies this`heap, this`brk, this`calls
      ensures HeapOk() && heap == old(heap)
      ensures calls == old(calls) + done && ServedBy(i, kept, done)
    {
      hide ServedBy, AllDone;
      ghost var before := calls;
      var buffer, held;
      kept, buffer, held, done := ReceiveFrame(i);
      if kept {
        ghost var more;
        kept, more := AnswerFrame(i, buffer, done);
        assert before + done + more == before + (done + more);
        done := done + more;
      }
      if held {
        Free(buffer);
        assert heap == old(heap);
      }
    }

    /** Up to the frame's body; a buffer may be held although the body is not complete. */
    method ReceiveFrame(i: nat) returns (ok: bool, buffer: nat, held: bool, ghost done: seq<Call>)
      requires i in open && HeapOk()
      modifies this`heap, this`brk, this`calls
      ensures HeapOk() && calls == old(calls) + done
      ensures if ok then held && |done| == 4 && AllDone(i, done) else ServedBy(i, false, done)
      ensures held ==> buffer !in old(heap) && heap == old(heap) + {buffer}
      ensures !held ==> heap == old(heap)
    {
      hide AllDone, ServedBy;
      buffer, held, done := 0, false, [];
      NoneDone(i);
      ok := Transfer(i, TakeType);
      done := Done(i, done, ok);
      if !ok {
        return;
      }
      ok := Transfer(i, TakeSize);
      done := Done(i, done, ok);
      if !ok {
        return;
      }
      buffer, held := Malloc(i);
      ok := held;
      done := Done(i, done, ok);
      if !ok {
        return;
      }
      ok := Transfer(i, TakeBody);
      done := Done(i, done, ok);
    }

    /** Processing and answering a frame that has been received. */
    method AnswerFrame(i: nat, buffer: nat, ghost before: seq<Call>) returns (ok: bool, ghost more: seq<Call>)
      requires i in open && buffer in heap && |before| == 4 && AllDone(i, before)
      modifies this`calls
      ensures calls == old(calls) + more && ServedBy(i, ok, before + more)
    {
      ProcessFrame(i, buffer);
      ok := Transfer(i, SendAnswer);
      more := [Staged(i, Process, true), Staged(i, SendAnswer, ok)];
    }

    /** `client_cleanup`: close, clear, and lower `fdmax` if it was the highest. */
    method Forget(i: nat)
      requires Valid() && i in master && i != listener
      modifies this`master, this`fdmax, this`open, this`closed
      ensures Valid() && master == old(master) - {i}
    {
      Close(i);
      master := master - {i};
      assert master - {listener} == (old(master) - {listener}) - {i};
      if i == fdmax {
        while fdmax !in master
          invariant listener in master && listener <= fdmax <= old(fdmax)
          invariant forall fd :: fd in master ==> fd <= fdmax
          invariant master == old(master) - {i} && open == master && accepted == closed + |master - {listener}|
          decreases fdmax
        {
          fdmax := fdmax - 1;
        }
      }
    }

    method AcceptClient() returns (newfd: int)
      requires Valid()
      modifies this`master, this`fdmax, this`open, this`accepted, this`calls
      ensures Valid() && calls == old(calls) + [Accepted(newfd)]
      ensures newfd == -1 ==> master == old(master) && fdmax == old(fdmax) && accepted == old(accepted)
      ensures newfd != -1 ==> 0 <= newfd < FD_SETSIZE && newfd !in old(master) && master == old(master) + {newfd}
      ensures newfd != -1 ==> accepted == old(accepted) + 1
    {
      assert MayAccept(master, -1);
      newfd :| MayAccept(master, newfd);
      assert MayAccept(master, newfd);
      calls := calls + [Accepted(newfd)];
      if newfd != -1 {
        open := open + {newfd};
        accepted := accepted + 1;
        master := master + {newfd};
        assert master - {listener} == (old(master) - {listener}) + {newfd};
        if newfd > fdmax {
          fdmax := newfd;
        }
      }
    }

    // ------------------------------------------------------------- the round

    /**
     One round after `select`: every ready descriptor is served exactly once, in
     ascending order, and nothing else is, each by its calls in full; a connection
     accepted in the round waits
     for the next one; what remains watched is exactly what was not dropped, and the
     newcomer.
     */
    method Round(ready: set<nat>) returns (log: seq<Action>, ghost parts: seq<seq<Call>>)
      requires Valid() && ready <= master
      modifies this
      ensures Valid() && heap == old(heap)
      ensures calls == old(calls) + Joined(parts) && Recorded(log, parts)
      ensures Ascending(log, listener) && Covers(log, listener, ready)
      ensures NewcomersWait(log)
      ensures forall fd :: fd in master <==> (fd in old(master) && fd !in Dropped(log)) || fd in Added(log)
    {
      hide Progress, Ascending, Covers, NewcomersWait, Dropped, Added, Recorded, Joined, ServedBy;
      log, parts := [], [];
      RecordNone();
      var i := 0;
      Start(listener, ready, master);
      while i <= fdmax
        invariant Valid() && heap == old(heap)
        invariant calls == old(calls) + Joined(parts) && Recorded(log, parts)
        invariant Progress(log, listener, ready, i, old(master), master)
        decreases FD_SETSIZE - i
      {
        StillWatched(log, listener, ready, i, old(master), master);
        if i !in ready {
          Skip(log, listener, ready, i, old(master), master);
        } else if i == listener {
          ghost var watched := master;
          var newfd := AcceptClient();
          Accept(log, listener, ready, old(master), watched, newfd);
          RecordOne(log, parts, Accepting(newfd), [Accepted(newfd)]);
          parts := parts + [[Accepted(newfd)]];
          log := log + [Accepting(newfd)];
        } else {
          ghost var watched := master;
          var kept, done := ServeClient(i);
          Read(log, listener, ready, i, old(master), watched, kept);
          RecordOne(log, parts, Reading(i, kept), done);
          parts := parts + [done];
          log := log + [Reading(i, kept)];
        }
        i := i + 1;
      }
      Finish(log, listener, ready, i, old(master), master);
    }

    /** Every socket that is still open is closed, each once. */
    method Shutdown()
      requires Valid()
      modifies this`open, this`closed
      ensures open == {} && closed == accepted
    {
      Close(listener);
      var i := 0;
      while i <= fdmax
        invariant i <= fdmax + 1
        invariant open == (set fd | fd in master && fd >= i && fd != listener)
        invariant accepted == closed + |open|
      {
        if i in master && i != listener {
          Close(i);
        }
        i := i + 1;
      }
    }

    /**
     A whole run: any number of rounds, each for any set of ready descriptors, and
     the shutdown after `select` has failed.
     */
    method Run(rounds: nat)
      requires Valid() && heap == {}
      modifies this
      ensures open == {} && closed == accepted && heap == {}
    {
      var left := rounds;
      while left > 0
        invariant Valid() && heap == {}
      {
        var ready: set<nat> :| ready <= master;
        var log, parts := Round(ready);
        left := left - 1;
      }
      Shutdown();
    }
  }

  function Before(ready: set<nat>, i: nat): set<nat> {
    set fd | fd in ready && fd < i
  }

  /** What holds when the walk has come to descriptor `i`. */
  ghost predicate Progress(log: seq<Action>, listener: nat, ready: set<nat>, i: nat, was: set<nat>, now: set<nat>) {
    && Ascending(log, listener) && Covers(log, listener, Before(ready, i))
    && NewcomersWait(log)
    && (forall fd :: fd in ready && fd >= i ==> fd in was && fd in now && fd !in Added(log))
    && (forall fd :: fd in now <==> (fd in was && fd !in Dropped(log)) || fd in Added(log))
    && (forall fd :: fd in Dropped(log) ==> fd < i)
  }

  lemma Start(listener: nat, ready: set<nat>, was: set<nat>)
    requires ready <= was
    ensures Progress([], listener, ready, 0, was, was)
  {
  }

  lemma StillWatched(log: seq<Action>, listener: nat, ready: set<nat>, i: nat, was: set<nat>, now: set<nat>)
    requires Progress(log, listener, ready, i, was, now)
    ensures i in ready ==> i in now
  {
  }

  /** Past the highest watched descriptor every ready one has been served. */
  lemma Finish(log: seq<Action>, listener: nat, ready: set<nat>, i: nat, was: set<nat>, now: set<nat>)
    requires Progress(log, listener, ready, i, was, now) && forall fd :: fd in now ==> fd < i
    ensures Ascending(log, listener) && Covers(log, listener, ready) && NewcomersWait(log)
    ensures forall fd :: fd in now <==> (fd in was && fd !in Dropped(log)) || fd in Added(log)
  {
    assert Before(ready, i) == ready;
  }

  lemma Skip(log: seq<Action>, listener: nat, ready: set<nat>, i: nat, was: set<nat>, now: set<nat>)
    requires Progress(log, listener, ready, i, was, now) && i !in ready
    ensures Progress(log, listener, ready, i + 1, was, now)
  {
    assert Before(ready, i + 1) == Before(ready, i);
  }

  lemma Accept(log: seq<Action>, listener: nat, ready: set<nat>, was: set<nat>, now: set<nat>, newfd: int)
    requires Progress(log, listener, ready, listener, was, now) && listener in ready
    requires newfd == -1 || (newfd >= 0 && newfd !in now)
    ensures Progress(log + [Accepting(newfd)], listener, ready, listener + 1, was, if newfd == -1 then now else now + {newfd})
  {
    hide Ascending, Covers;
    Logged(log, Accepting(newfd));
    OneMore(log, Accepting(newfd), listener, ready, listener);
    AcceptWaits(log, listener, newfd);
  }

  lemma AcceptWaits(log: seq<Action>, listener: nat, newfd: int)
    requires NewcomersWait(log)
    ensures NewcomersWait(log + [Accepting(newfd)])
  {
  }

  lemma ReadWaits(log: seq<Action>, fd: nat, kept: bool)
    requires NewcomersWait(log) && fd as int !in Added(log)
    ensures NewcomersWait(log + [Reading(fd, kept)])
  {
    assert forall a :: 0 <= a < |log| && log[a].Accepting? && log[a].newfd != -1 ==> log[a].newfd in Added(log);
  }

  lemma Read(log: seq<Action>, listener: nat, ready: set<nat>, i: nat, was: set<nat>, now: set<nat>, kept: bool)
    requires Progress(log, listener, ready, i, was, now) && i in ready && i != listener
    ensures Progress(log + [Reading(i, kept)], listener, ready, i + 1, was, if kept then now else now - {i})
  {
    hide Ascending, Covers;
    Logged(log, Reading(i, kept));
    OneMore(log, Reading(i, kept), listener, ready, i);
    ReadWaits(log, i, kept);
  }

  lemma Logged(log: seq<Action>, a: Action)
    ensures Dropped(log + [a]) == Dropped(log) + if a.Reading? && !a.kept then {a.fd} else {}
    ensures Added(log + [a]) == Added(log) + if a.Accepting? && a.newfd != -1 then {a.newfd} else {}
  {
    var now := log + [a];
    assert forall k :: 0 <= k < |log| ==> now[k] == log[k];
    assert now[|log|] == a;
  }

  lemma OneMore(log: seq<Action>, a: Action, listener: nat, ready: set<nat>, i: nat)
    requires Ascending(log, listener) && Covers(log, listener, Before(ready, i))
    requires i in ready && KeyOf(a, listener) == i && (a.Reading? ==> i != listener)
    ensures Ascending(log + [a], listener)
    ensures Covers(log + [a], listener, Before(ready, i + 1))
  {
    var now := log + [a];
    forall fd | fd in Before(ready, i + 1) ensures Serves(now, listener, fd) {
      if fd < i {
        assert fd in Before(ready, i);
        var k :| 0 <= k < |log| && KeyOf(log[k], listener) == fd;
        assert now[k] == log[k];
      } else {
        assert now[|log|] == a;
      }
    }
  }
}
