/**
 What the chat system promises over whole runs, from the first accepted client to
 shutdown, for every interleaving and every outcome of the system calls: who sent
 what, which descriptors are open, whom a line reaches, what a name is.
 */
module ChatTheorems {
  import opened CStrings
  import opened ChatRecords
  import opened ChatTables
  import opened ChatRefinement
  import opened ChatServer
  import opened ChatSystem
  import opened ChatInvariant
  import opened ChatAwareness

  // ----------------------------------------------------------------- sender

  /**
   Sender identity: as long as the parent's reads reach the ends of the pipes, what it
   would parse from the pipe of slot `i` names that slot's process id, the search by
   process id returns `i`, and the content is the first line of the oldest text the
   client of that very child sent: all of it if and only if process id, colon and line
   fit one read.
   */
  lemma SenderIdentity(cap: nat, listener: int, run: seq<Event>, i: nat)
    requires Legal(cap, Init(listener), run) && Attentive(Init(listener), run)
    requires var s := After(Init(listener), run);
             Running(s) && i < |s.tables.entries|
    ensures var s := After(Init(listener), run);
            var e := s.tables.entries[i];
            && WriterOf(s, i) == Some(e.pid)
            && (s.procs[e.pid].up != "" ==>
                  && s.procs[e.pid].backlog.texts != []
                  && var line := UpTo(s.procs[e.pid].backlog.texts[0], '\n');
                     var parsed := Parse(Take(s.procs[e.pid].up, READ_MAX));
                     && parsed.Parsed? && parsed.pid == e.pid && parsed.content <= line
                     && (parsed.content == line <==> |Decimal(e.pid)| + 1 + |line| <= READ_MAX)
                     && SlotOf(s.tables.entries, e.pid) == i)
  {
    hide Parse, Sound, Aware, ReadFits, Apply, Enabled;
    Reached(cap, listener, run);
    var s := After(Init(listener), run);
    SlotEnds(cap, s, i);
    if s.procs[EntryPid(s, i)].up != "" {
      SenderIsSlot(cap, s, i);
    }
  }

  lemma SlotEnds(cap: nat, s: System, i: nat)
    requires Sound(cap, s) && Running(s) && i < |s.tables.entries|
    ensures WriterOf(s, i) == Some(s.tables.entries[i].pid) && ReaderOf(s, i) == Some(s.tables.entries[i].pid)
    ensures s.tables.entries[i].pid in s.procs
  {
    hide TableOk, PipesPart, WriterOf, ReaderOf;
    EndsOfSlot(s, i);
  }

  // ------------------------------------------------------------ descriptors

  lemma {:induction false} OwnedCount(open: map<int, End>, listener: int, es: seq<Entry>)
    requires OwnsExactly(open, listener, es) && DistinctPids(es)
    ensures |open| == 1 + 2 * |es|
    decreases |es|
  {
    if es == [] {
      forall fd ensures fd in open.Keys <==> fd in {listener} {
        assert !HeldBy(es, fd);
      }
      assert open.Keys == {listener};
    } else {
      var k := |es| - 1;
      var gone := {es[k].toFd, es[k].fromFd};
      RemovalKeepsOwnership(open, listener, es, k);
      DropKeepsDistinct(es, k);
      OwnedCount(open - gone, listener, es[..k] + es[k + 1..]);
      assert open[es[k].toFd] != open[es[k].fromFd];
      assert |gone| == 2 && (open - gone).Keys == open.Keys - gone;
    }
  }

  /**
   Descriptor conservation, for pipes of any size: while the server runs the parent
   holds the listener and two descriptors per entry and nothing else, all distinct,
   and entries and unreaped children correspond one to one; during the shutdown it
   holds those of the entries still to be closed; afterwards nothing is open.
   */
  lemma DescriptorsConserved(cap: nat, listener: int, run: seq<Event>)
    requires Legal(cap, Init(listener), run)
    ensures var s := After(Init(listener), run);
            match s.pc
            case Halted => s.open == map[]
            case Closing(i) =>
              && i <= |s.tables.entries|
              && OwnsExactly(s.open, s.listener, s.tables.entries[i..])
              && |s.open| == 1 + 2 * (|s.tables.entries| - i)
            case _ =>
              && OwnsExactly(s.open, s.listener, s.tables.entries)
              && |s.open| == 1 + 2 * |s.tables.entries|
              && DistinctPids(s.tables.entries)
              && (forall p: nat :: p in s.procs <==> p as int in Pids(s.tables.entries))
              && |s.tables.entries| <= 32
  {
    hide OwnsExactly, DistinctPids, Pids, PlanPart, PipesPart;
    Reached(cap, listener, run);
    var s := After(Init(listener), run);
    if s.pc.Closing? {
      OwnedCount(s.open, s.listener, s.tables.entries[s.pc.i..]);
    } else if !s.pc.Halted? {
      OwnedCount(s.open, s.listener, s.tables.entries);
    }
  }

  // ------------------------------------------------------------------ rooms

  /** The writes a plan amounts to: process id and bytes, empty writes left out. */
  function Targets(es: seq<Entry>, posts: seq<Post>): seq<(nat, string)> {
    if posts == [] then []
    else
      var last := posts[|posts| - 1];
      Targets(es, posts[..|posts| - 1])
      + if last.bytes == "" || last.slot >= |es| then [] else [(es[last.slot].pid, last.bytes)]
  }

  function Logged(log: seq<Sent>): seq<(nat, string)> {
    seq(|log|, i requires 0 <= i < |log| => (log[i].pid, log[i].bytes))
  }

  predicate Serving(s: System) {
    s.pc.Writing? || s.pc.Killing?
  }

  function Slot(s: System): nat
    requires Serving(s)
  {
    s.pc.i
  }

  function Todo(s: System): seq<Post>
    requires Serving(s)
  {
    s.pc.todo
  }

  /** Every event of the run happens while a plan is being served. */
  predicate InService(s: System, run: seq<Event>)
    decreases |run|
  {
    run == [] || (Serving(s) && InService(Apply(s, run[0]), run[1..]))
  }

  lemma {:induction false} TargetsStep(es: seq<Entry>, todo: seq<Post>)
    requires todo != []
    ensures Targets(es, todo) == Targets(es, [todo[0]]) + Targets(es, todo[1..])
  {
    if |todo| > 1 {
      var n := |todo| - 1;
      TargetsStep(es, todo[..n]);
      assert todo[..n][1..] == todo[1..][..n - 1];
    } else {
      assert todo == [todo[0]];
    }
  }

  /**
   From `s` to `s'` the parent has made the first of the plan's writes, in order: all
   of them if the scan has moved on, all but the remaining ones if it has not, and
   some of them if the process has ended.
   */
  ghost predicate Served(s: System, s': System) {
    && Serving(s)
    && s'.tables == s.tables && s.log <= s'.log
    && var made, plan := Logged(s'.log[|s.log|..]), Targets(s.tables.entries, Todo(s));
       if Serving(s') then Slot(s') == Slot(s) && made + Targets(s.tables.entries, Todo(s')) == plan
       else if s'.pc.Halted? then made <= plan
       else s'.pc == Scanning(Slot(s) + 1) && made == plan
  }

  /** The next post of a plan has somewhere to go. */
  lemma NextReader(cap: nat, s: System)
    requires Sound(cap, s) && s.pc.Writing? && s.pc.todo != []
    ensures s.pc.todo[0].slot < |s.tables.entries|
    ensures ReaderOf(s, s.pc.todo[0].slot) == Some(s.tables.entries[s.pc.todo[0].slot].pid)
    ensures s.tables.entries[s.pc.todo[0].slot].pid in s.procs
  {
    hide TableOk, PipesPart, ReaderOf;
    assert s.pc.todo[0] in s.pc.todo;
    EndsOfSlot(s, s.pc.todo[0].slot);
  }

  lemma WriteServes(s: System, ok: bool)
    requires s.pc.Writing?
    requires s.pc.todo != [] ==>
               && s.pc.todo[0].slot < |s.tables.entries|
               && ReaderOf(s, s.pc.todo[0].slot) == Some(s.tables.entries[s.pc.todo[0].slot].pid)
               && s.tables.entries[s.pc.todo[0].slot].pid in s.procs
    ensures Served(s, Apply(s, WritePost(ok)))
  {
    hide ReaderOf, Targets;
    var es, s', todo := s.tables.entries, Apply(s, WritePost(ok)), s.pc.todo;
    if todo == [] {
      TargetsNone(es);
    } else {
      TargetsStep(es, todo);
      TargetsOne(es, todo[0]);
      assert Logged([]) == [];
    }
  }

  lemma TargetsNone(es: seq<Entry>)
    ensures Targets(es, []) == []
  {
  }

  lemma TargetsOne(es: seq<Entry>, p: Post)
    requires p.slot < |es|
    ensures Targets(es, [p]) == if p.bytes == "" then [] else [(es[p.slot].pid, p.bytes)]
  {
    assert [p][..0] == [];
  }

  /** One step while a plan is being served makes at most the plan's next write. */
  lemma ServingStep(cap: nat, s: System, e: Event)
    requires Sound(cap, s) && Serving(s) && Enabled(cap, s, e)
    ensures Served(s, Apply(s, e))
  {
    hide Sound, Served, Apply, ReaderOf;
    if e.WritePost? {
      if s.pc.todo != [] {
        NextReader(cap, s);
      }
      WriteServes(s, e.ok);
    } else {
      OthersServe(cap, s, e);
    }
  }

  lemma OthersServe(cap: nat, s: System, e: Event)
    requires Serving(s) && Enabled(cap, s, e) && !e.WritePost?
    ensures Served(s, Apply(s, e))
  {
    hide Targets, DoChild, CanAct, ReaderOf, DoRead, DoReap, DoAdmit, DoWrite, DoCloseEntry;
    var s' := Apply(s, e);
    assert s'.log == s.log && s'.log[|s.log|..] == [] && Logged([]) == [];
  }

  lemma ServedFurther(s: System, m: System, s': System)
    requires Served(s, m) && Serving(m) && Served(m, s')
    ensures Served(s, s')
  {
    hide Targets, Logged;
    LoggedSplits(s.log, m.log, s'.log);
  }

  lemma ServedNothing(s: System)
    requires Serving(s)
    ensures Served(s, s)
  {
    hide Targets;
    assert Logged(s.log[|s.log|..]) == [];
  }

  /**
   Whatever the children do meanwhile, and whether or not SIGPIPE ends the process on
   the way, the writes attempted for one record are the first of the planned ones, in
   order; they are all of them when the scan moves on.
   */
  lemma {:induction false} PlanIsServed(cap: nat, s: System, run: seq<Event>)
    requires Sound(cap, s) && Serving(s) && Legal(cap, s, run) && InService(s, run)
    ensures Served(s, After(s, run))
    decreases |run|
  {
    hide Sound, Enabled, Apply, Serving, Served;
    if run == [] {
      ServedNothing(s);
    } else {
      var m := Apply(s, run[0]);
      ServingStep(cap, s, run[0]);
      StepKeepsSound(cap, s, run[0]);
      if run[1..] != [] {
        PlanIsServed(cap, m, run[1..]);
        ServedFurther(s, m, After(m, run[1..]));
      }
    }
  }

  lemma LoggedSplits(a: seq<Sent>, b: seq<Sent>, c: seq<Sent>)
    requires a <= b <= c
    ensures Logged(c[|a|..]) == Logged(b[|a|..]) + Logged(c[|b|..])
  {
    assert c[|a|..] == b[|a|..] + c[|b|..];
  }

  lemma {:induction false} TargetsPointwise(es: seq<Entry>, posts: seq<Post>)
    requires forall p :: p in posts ==> p.slot < |es| && p.bytes != ""
    ensures |Targets(es, posts)| == |posts|
    ensures forall k :: 0 <= k < |posts| ==> Targets(es, posts)[k] == (es[posts[k].slot].pid, posts[k].bytes)
  {
    if posts != [] {
      TargetsPointwise(es, posts[..|posts| - 1]);
    }
  }

  /** The clients in the same room as slot `i`. */
  ghost predicate SharesRoom(t: Tables, i: nat, pid: nat)
    requires i < |t.entries|
  {
    exists j :: 0 <= j < |t.entries| && t.entries[j].pid == pid && t.entries[j].room == t.entries[i].room
  }

  /** Everybody in the sender's room, and nobody else, once each. */
  ghost predicate ReachesRoom(t: Tables, i: nat, line: string, writes: seq<(nat, string)>)
    requires i < |t.entries|
  {
    && (forall k :: 0 <= k < |writes| ==> writes[k].1 == line && SharesRoom(t, i, writes[k].0))
    && (forall a, b :: 0 <= a < b < |writes| ==> writes[a].0 != writes[b].0)
    && (if t.entries[i].room == "" then writes == []
        else forall p: nat :: SharesRoom(t, i, p) ==> (p, line) in writes)
  }

  lemma ChatTargets(t: Tables, i: nat, content: string)
    requires DistinctPids(t.entries) && i < |t.entries|
    requires forall j :: 0 <= j < |t.entries| ==> t.entries[j].active
    ensures var e := t.entries[i];
            ReachesRoom(t, i, ChatLine(e, content),
                        Targets(t.entries, if e.room == "" then [] else SayPosts(t.entries, e.room, ChatLine(e, content), |t.entries|)))
  {
    hide SayPosts, Targets;
    var e, line := t.entries[i], ChatLine(t.entries[i], content);
    if e.room == "" {
      TargetsNone(t.entries);
    } else {
      var posts := SayPosts(t.entries, e.room, line, |t.entries|);
      SayPostsUpTo(t.entries, e.room, line, |t.entries|);
      RoomPosts(t, i, line, posts);
    }
  }

  lemma RoomPosts(t: Tables, i: nat, line: string, posts: seq<Post>)
    requires DistinctPids(t.entries) && i < |t.entries| && t.entries[i].room != "" && line != ""
    requires forall j :: 0 <= j < |t.entries| ==> t.entries[j].active
    requires SlotsIncrease(posts)
    requires forall p :: p in posts <==> Addressed(t.entries, t.entries[i].room, line, |t.entries|, p)
    ensures ReachesRoom(t, i, line, Targets(t.entries, posts))
  {
    hide Targets;
    var e, writes := t.entries[i], Targets(t.entries, posts);
    TargetsPointwise(t.entries, posts);
    forall k | 0 <= k < |writes| ensures writes[k].1 == line && SharesRoom(t, i, writes[k].0) {
      assert posts[k] in posts;
    }
    forall a, b | 0 <= a < b < |writes| ensures writes[a].0 != writes[b].0 {
      assert posts[a] in posts && posts[b] in posts && posts[a].slot < posts[b].slot;
    }
    forall p: nat | SharesRoom(t, i, p) ensures (p, line) in writes {
      var j :| 0 <= j < |t.entries| && t.entries[j].pid == p && t.entries[j].room == e.room;
      assert Addressed(t.entries, e.room, line, |t.entries|, Post(j, line));
      var k :| 0 <= k < |posts| && posts[k] == Post(j, line);
      assert writes[k] == (p, line);
    }
  }

  predicate IsChat(content: string) {
    content == "" || (content[0] != '/' && content[0] != '!')
  }

  /** The parent is about to read a chat line that the client of slot `pc.i` sent. */
  predicate ChatLineWaits(s: System) {
    && s.pc.Scanning? && s.pc.i < |s.tables.entries|
    && var e := s.tables.entries[s.pc.i];
       && e.name != "" && e.pid in s.procs && s.procs[e.pid].up != ""
       && s.procs[e.pid].backlog.texts != [] && |Decimal(e.pid)| < READ_MAX
       && IsChat(WaitingText(s, s.pc.i))
  }

  function WaitingLine(s: System): string
    requires ChatLineWaits(s)
  {
    s.tables.entries[s.pc.i].name + ": " + WaitingText(s, s.pc.i) + [NUL]
  }

  lemma ChatLineIsPlanned(cap: nat, s: System, beyond: string)
    requires Sound(cap, s) && Aware(s) && ChatLineWaits(s)
    ensures var m := Apply(s, ReadRecord(beyond));
            && Sound(cap, m) && m.pc.Writing? && m.tables == s.tables && m.log == s.log
            && ReachesRoom(s.tables, s.pc.i, WaitingLine(s), Targets(s.tables.entries, m.pc.todo))
  {
    hide ReachesRoom, Targets, SayPosts, DoRead, Parse, Sound, Aware, DistinctPids, Pids, FirstLine;
    var content := WaitingText(s, s.pc.i);
    var out := ReadOutcome(cap, s, s.pc.i, beyond);
    StepKeepsSound(cap, s, ReadRecord(beyond));
    TableFacts(cap, s);
    ChatTargets(s.tables, s.pc.i, content);
  }

  lemma TableFacts(cap: nat, s: System)
    requires Sound(cap, s) && Running(s)
    ensures DistinctPids(s.tables.entries)
    ensures forall j :: 0 <= j < |s.tables.entries| ==> s.tables.entries[j].active
  {
    hide DistinctPids, OwnsExactly, Pids;
  }

  /**
   Room isolation: from any reachable state in which the parent reads a chat line of
   a named client, through whatever the children do meanwhile, the parent makes the
   first of these writes and no others: the line "name: text" once to each client
   whose room is the sender's room, none if the sender has no room. It has made them
   all when its scan moves on; only the end of the process can keep it from that.
   */
  lemma RoomIsolation(cap: nat, listener: int, run: seq<Event>, beyond: string, serving: seq<Event>)
    returns (writes: seq<(nat, string)>)
    requires Legal(cap, Init(listener), run) && Attentive(Init(listener), run)
    requires var s := After(Init(listener), run);
             && ChatLineWaits(s)
             && Legal(cap, Apply(s, ReadRecord(beyond)), serving)
             && InService(Apply(s, ReadRecord(beyond)), serving)
    ensures var s := After(Init(listener), run);
            var s' := After(Apply(s, ReadRecord(beyond)), serving);
            && ReachesRoom(s.tables, s.pc.i, WaitingLine(s), writes)
            && s'.tables == s.tables && s.log <= s'.log
            && Logged(s'.log[|s.log|..]) <= writes
            && (Serving(s') || s'.pc.Halted? || (s'.pc == Scanning(s.pc.i + 1) && Logged(s'.log[|s.log|..]) == writes))
  {
    hide Targets, Logged, InService, Legal, ReachesRoom, Sound, Aware, ChatLineWaits, Apply, WaitingLine;
    Reached(cap, listener, run);
    var s := After(Init(listener), run);
    var m := Apply(s, ReadRecord(beyond));
    ChatLineIsPlanned(cap, s, beyond);
    PlanIsServed(cap, m, serving);
    SlotOfRead(s, beyond);
    writes := Targets(s.tables.entries, Todo(m));
  }

  lemma SlotOfRead(s: System, beyond: string)
    requires ChatLineWaits(s) && Apply(s, ReadRecord(beyond)).pc.Writing?
    ensures Apply(s, ReadRecord(beyond)).pc.i == s.pc.i
  {
    hide DoRead;
  }

  /** How one step may change the pipe to child `pid` and the log of writes. */
  ghost predicate PipeStep(s: System, s': System, pid: nat)
    requires pid in s.procs && pid in s'.procs
  {
    var d, d' := s.procs[pid].down, s'.procs[pid].down;
    || (s'.log == s.log && (d' == d || (s.procs[pid].pc.ReadingPipe? && d' == Rest(d, READ_MAX))))
    || (exists w :: s'.log == s.log + [w] && d' == if w.pid == pid && w.ok then d + w.bytes else d)
  }

  /**
   A pipe to a child grows only by a logged successful write to that very child, and
   every such write is in it; otherwise it stays or loses what the child reads.
   */
  lemma OnlyWritesFillPipes(cap: nat, s: System, e: Event, pid: nat)
    requires Sound(cap, s) && Enabled(cap, s, e) && pid in s.procs && pid in Apply(s, e).procs
    ensures PipeStep(s, Apply(s, e), pid)
  {
    hide Sound, PipeStep, ReaderOf, DoWrite, DoRead;
    if e.WritePost? {
      if s.pc.todo != [] {
        NextReader(cap, s);
      }
      WriteFillsPipe(s, e.ok, pid);
    } else if e.ReadRecord? {
      ReadFillsNothing(s, s.pc.i, e.beyond, pid);
    } else {
      OthersFillNothing(cap, s, e, pid);
    }
  }

  lemma WriteFillsPipe(s: System, ok: bool, pid: nat)
    requires s.pc.Writing? && pid in s.procs
    requires s.pc.todo != [] ==> var q := ReaderOf(s, s.pc.todo[0].slot); q.Some? && q.value in s.procs
    requires s.pc.todo != [] ==> s.pc.todo[0].slot < |s.tables.entries|
    ensures pid in DoWrite(s, s.pc.i, s.pc.todo, ok).procs
    ensures PipeStep(s, DoWrite(s, s.pc.i, s.pc.todo, ok), pid)
  {
    hide ReaderOf;
    var s' := DoWrite(s, s.pc.i, s.pc.todo, ok);
    if s'.log != s.log {
      assert s'.log == s.log + [Sent(ReaderOf(s, s.pc.todo[0].slot).value, s.pc.todo[0].bytes, ok)];
    }
  }

  lemma ReadFillsNothing(s: System, i: nat, beyond: string, pid: nat)
    requires pid in s.procs && pid in DoRead(s, i, beyond).procs
    ensures PipeStep(s, DoRead(s, i, beyond), pid)
  {
    hide PipeStep, DoRead, ReadCrashes;
    SamePipe(s, DoRead(s, i, beyond), pid);
  }

  lemma SamePipe(s: System, s': System, pid: nat)
    requires pid in s.procs && pid in s'.procs && s'.log == s.log && s'.procs[pid].down == s.procs[pid].down
    ensures PipeStep(s, s', pid)
  {
  }

  lemma OthersFillNothing(cap: nat, s: System, e: Event, pid: nat)
    requires Enabled(cap, s, e) && pid in s.procs && pid in Apply(s, e).procs && !e.WritePost? && !e.ReadRecord?
    ensures PipeStep(s, Apply(s, e), pid)
  {
    hide ReaderOf, DoRead, DoWrite, DoChild, DoKill, DoReap, DoAdmit, CanAct, Rest;
    match e
    case Child(p, act) => ChildFillsNothing(cap, s, p, act, pid);
    case SignalChild => KillFillsNothing(s, s.pc.i, s.pc.pid, s.pc.todo, pid);
    case Admit(p, toFd, fromFd) => AdmitFillsNothing(s, p, toFd, fromFd, pid);
    case Reap(p) => ReapFillsNothing(s, p);
    case _ =>
  }

  lemma ChildFillsNothing(cap: nat, s: System, p: nat, act: Act, pid: nat)
    requires Enabled(cap, s, Child(p, act)) && pid in s.procs
    ensures PipeStep(s, DoChild(s, p, act), pid)
  {
    hide Record, IsMessage, Rest;
  }

  lemma KillFillsNothing(s: System, i: nat, to: nat, todo: seq<Post>, pid: nat)
    requires pid in s.procs
    ensures PipeStep(s, DoKill(s, i, to, todo), pid)
  {
  }

  lemma AdmitFillsNothing(s: System, p: nat, toFd: int, fromFd: int, pid: nat)
    requires pid in s.procs && p !in s.procs
    ensures pid in DoAdmit(s, p, toFd, fromFd).procs && PipeStep(s, DoAdmit(s, p, toFd, fromFd), pid)
  {
  }

  lemma ReapFillsNothing(s: System, p: nat)
    ensures DoReap(s, p).log == s.log
  {
  }

  // ------------------------------------------------------------------ names

  /** Some entry of the table has this process id and this name. */
  ghost predicate Named(s: System, pid: nat, name: string) {
    exists i :: 0 <= i < |s.tables.entries| && s.tables.entries[i].pid == pid && s.tables.entries[i].name == name
  }

  lemma ReapKeepsName(es: seq<Entry>, gone: nat, i: nat)
    requires DistinctPids(es) && i < |es| && es[i].pid != gone
    ensures es[i] in Remove(es, gone)
  {
    RemoveMembers(es, gone, es[i]);
  }

  lemma NoRename(s: System, beyond: string, i: nat)
    requires TableOk(s) && s.pc.Scanning? && i < |s.tables.entries| && s.tables.entries[i].name != ""
    ensures var es' := DoRead(s, s.pc.i, beyond).tables.entries;
            i < |es'| && es'[i].pid == s.tables.entries[i].pid && es'[i].name == s.tables.entries[i].name
  {
    hide DoRead, TableOk;
    ReadKeepsTable(s, s.pc.i, beyond);
    assert DoRead(s, s.pc.i, beyond).tables.entries[i].pid == s.tables.entries[i].pid;
  }

  lemma OthersKeepTables(s: System, e: Event)
    requires !e.Reap? && !e.ReadRecord? && !e.Admit?
    ensures Apply(s, e).tables == s.tables
  {
    hide DoRead, DoReap, DoAdmit, DoWrite, DoKill, DoChild;
  }

  lemma StepKeepsName(cap: nat, s: System, e: Event, pid: nat, name: string)
    requires Sound(cap, s) && Enabled(cap, s, e) && e != Reap(pid)
    requires Named(s, pid, name) && name != ""
    ensures Named(Apply(s, e), pid, name)
  {
    hide PlanPart, PipesPart, OwnsExactly, Pids, DistinctPids, DoRead, DoWrite, DoKill, DoChild, Remove, ReaderOf, CanAct;
    var es, es' := s.tables.entries, Apply(s, e).tables.entries;
    var i: nat :| i < |es| && es[i].pid == pid && es[i].name == name;
    if e.Reap? {
      ReapKeepsName(es, e.pid, i);
      var j: nat :| j < |es'| && es'[j] == es[i];
    } else if e.ReadRecord? {
      NoRename(s, e.beyond, i);
    } else {
      if !e.Admit? {
        OthersKeepTables(s, e);
      }
      assert es'[i] == es[i];
    }
  }

  /** A client's name never changes once it is set, until its child is reaped. */
  lemma {:induction false} NameIsPermanent(cap: nat, s: System, run: seq<Event>, pid: nat, name: string)
    requires Sound(cap, s) && Legal(cap, s, run) && Reap(pid) !in run
    requires Named(s, pid, name) && name != ""
    ensures Named(After(s, run), pid, name)
    decreases |run|
  {
    hide Named, Sound, Apply, Enabled;
    if run != [] {
      StepKeepsName(cap, s, run[0], pid, name);
      StepKeepsSound(cap, s, run[0]);
      NameIsPermanent(cap, Apply(s, run[0]), run[1..], pid, name);
    }
  }
}
