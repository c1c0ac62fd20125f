/**
 The chat server's tables as values: what each client record does to the entries
 and rooms, which bytes it makes the parent write to whom, and the abstract state
 (a map from process ids to profiles, and a list of rooms) that all of it refines.
 */
module ChatTables {
  import opened CStrings
  import opened ChatCommands

  const MAX_CLIENT: nat := 32
  const CHAT_ROOM: nat := 4
  const NAME: nat := 32
  const WHISPER_MAX: nat := 1024

  /** One slot of `active_children`. */
  datatype Entry = Entry(pid: nat, name: string, room: string, toFd: int, fromFd: int, active: bool)

  datatype Tables = Tables(entries: seq<Entry>, rooms: seq<string>)

  /** One `write` to the pipe of the client in `slot`. */
  datatype Post = Post(slot: nat, bytes: string)

  datatype Outcome = Outcome(tables: Tables, posts: seq<Post>)

  /** `strncpy(dst, src, NAME - 1)` and a NUL at `dst[NAME - 1]`. */
  function Clip(s: string): (c: string)
    ensures c <= s && |c| == if |s| < NAME then |s| else NAME - 1
  {
    if |s| < NAME then s else s[..NAME - 1]
  }

  ghost predicate DistinctPids(es: seq<Entry>) {
    forall i, j :: 0 <= i < j < |es| ==> es[i].pid != es[j].pid
  }

  ghost function Pids(es: seq<Entry>): set<int> {
    set i | 0 <= i < |es| :: es[i].pid as int
  }

  /** A table whose slots keep their process ids keeps its set of process ids. */
  lemma SamePids(es: seq<Entry>, es': seq<Entry>)
    requires |es| == |es'| && forall j :: 0 <= j < |es| ==> es'[j].pid == es[j].pid
    ensures Pids(es') == Pids(es)
    ensures DistinctPids(es) ==> DistinctPids(es')
  {
    forall p ensures p in Pids(es) <==> p in Pids(es') {
      if p in Pids(es) {
        var j :| 0 <= j < |es| && es[j].pid == p;
        assert es'[j].pid == p;
      }
    }
  }

  lemma AppendPid(es: seq<Entry>, e: Entry)
    requires DistinctPids(es) && e.pid as int !in Pids(es)
    ensures DistinctPids(es + [e]) && Pids(es + [e]) == Pids(es) + {e.pid as int}
  {
    assert forall i :: 0 <= i < |es| ==> es[i].pid as int in Pids(es);
    forall p ensures p in Pids(es + [e]) <==> p in Pids(es) || p == e.pid as int {
      if p in Pids(es) {
        var j :| 0 <= j < |es| && es[j].pid == p;
        assert (es + [e])[j].pid == p;
      }
      assert (es + [e])[|es|] == e;
    }
  }

  lemma DropPids(es: seq<Entry>, k: nat)
    requires DistinctPids(es) && k < |es|
    ensures Pids(es[..k] + es[k + 1..]) == Pids(es) - {es[k].pid as int}
  {
    var rest := es[..k] + es[k + 1..];
    forall p ensures p in Pids(rest) <==> p in Pids(es) && p != es[k].pid as int {
      if p in Pids(es) && p != es[k].pid as int {
        var j :| 0 <= j < |es| && es[j].pid == p;
        assert rest[if j < k then j else j - 1].pid == p;
      }
      if p in Pids(rest) {
        var j :| 0 <= j < |rest| && rest[j].pid == p;
        assert rest[j] == es[if j < k then j else j + 1];
      }
    }
  }

  // ---------------------------------------------------------------- searches

  /** Where a search loop stops: the first element that passes, or the length. */
  function FirstWhere<T>(s: seq<T>, passes: T -> bool): (k: nat)
    ensures k <= |s|
    ensures k < |s| ==> passes(s[k])
    ensures forall j :: 0 <= j < k ==> !passes(s[j])
  {
    if s == [] || passes(s[0]) then 0 else 1 + FirstWhere(s[1..], passes)
  }

  /** The first slot of a process id, or the number of slots. */
  function SlotOf(es: seq<Entry>, pid: int): (k: nat)
    ensures k <= |es|
    ensures k < |es| ==> es[k].pid == pid
    ensures forall j :: 0 <= j < k ==> es[j].pid != pid
  {
    FirstWhere(es, (e: Entry) => e.pid == pid)
  }

  function SlotNamed(es: seq<Entry>, name: string): (k: nat)
    ensures k <= |es|
    ensures k < |es| ==> es[k].name == name
    ensures forall j :: 0 <= j < k ==> es[j].name != name
  {
    FirstWhere(es, (e: Entry) => e.name == name)
  }

  function RoomIndex(rooms: seq<string>, name: string): (k: nat)
    ensures k <= |rooms|
    ensures k < |rooms| ==> rooms[k] == name
    ensures forall j :: 0 <= j < k ==> rooms[j] != name
  {
    FirstWhere(rooms, (room: string) => room == name)
  }

  // ---------------------------------------------------------- table updates

  function AddRoom(rooms: seq<string>, name: string): seq<string> {
    if |rooms| < CHAT_ROOM then rooms + [Clip(name)] else rooms
  }

  function RemoveRoom(rooms: seq<string>, name: string): seq<string> {
    var k := RoomIndex(rooms, name);
    if k < |rooms| then rooms[..k] + rooms[k + 1..] else rooms
  }

  function SetRoom(es: seq<Entry>, pid: int, room: string): seq<Entry> {
    var k := SlotOf(es, pid);
    if k < |es| then es[k := es[k].(room := room)] else es
  }

  function LeaveRoom(e: Entry, room: string): Entry {
    if e.room == room then e.(room := "") else e
  }

  function ClearRoom(es: seq<Entry>, room: string): seq<Entry> {
    seq(|es|, i requires 0 <= i < |es| => LeaveRoom(es[i], room))
  }

  /** What one reaped process id does: its slot is closed up by shifting. */
  function Remove(es: seq<Entry>, pid: int): seq<Entry> {
    var k := SlotOf(es, pid);
    if k < |es| then es[..k] + es[k + 1..] else es
  }

  function RemoveEach(es: seq<Entry>, pids: seq<int>): seq<Entry>
    decreases |pids|
  {
    if pids == [] then es else RemoveEach(Remove(es, pids[0]), pids[1..])
  }

  // ------------------------------------------------------------------ posts

  function ListPosts(rooms: seq<string>, slot: nat): (posts: seq<Post>) {
    if rooms == [] then []
    else ListPosts(rooms[..|rooms| - 1], slot) + [Post(slot, rooms[|rooms| - 1])]
  }

  /** One line for every client among the first `n` that shares the asker's room. */
  function UsersPosts(es: seq<Entry>, slot: nat, n: nat): seq<Post>
    requires slot < |es| && n <= |es|
  {
    if n == 0 then []
    else UsersPosts(es, slot, n - 1)
         + if es[n - 1].room == es[slot].room then [Post(slot, es[n - 1].name + "\n")] else []
  }

  /** The chat line goes to the active clients among the first `n` that are in `room`. */
  function SayPosts(es: seq<Entry>, room: string, line: string, n: nat): seq<Post>
    requires n <= |es|
  {
    if n == 0 then []
    else SayPosts(es, room, line, n - 1)
         + if es[n - 1].active && es[n - 1].room == room then [Post(n - 1, line)] else []
  }

  function ChatLine(e: Entry, content: string): string {
    e.name + ": " + content + [NUL]
  }

  function Shorten(s: string, n: nat): (t: string)
    ensures t <= s && |t| == if |s| < n then |s| else n
  {
    if |s| <= n then s else s[..n]
  }

  function WhisperLine(e: Entry, text: string): string {
    "from " + e.name + " : " + Shorten(text, WHISPER_MAX)
  }

  function WhisperPosts(es: seq<Entry>, slot: nat, argument: string): seq<Post> {
    var words := Strtok(argument, ' ');
    if words.token.None? then []
    else
      var k := SlotNamed(es, words.token.value);
      if slot < |es| && k < |es| then [Post(k, WhisperLine(es[slot], words.rest))] else []
  }

  // ---------------------------------------------------------------- dispatch

  /**
   The text that starts two characters after the command word. With no character
   there the pointer has passed the terminator; `beyond` is the stale C string it
   then points at.
   */
  function Argument(content: string, command: string, beyond: string): string {
    if |content| >= 2 + |command| then content[2 + |command|..] else beyond
  }

  datatype Kind = Add | Join | Rm | List | Leave | Users | Other

  /** The chain of command tests, in the order the parent tries them. */
  function CommandKind(content: string): Kind {
    if CheckCommand(content, "add") then Add
    else if CheckCommand(content, "join") then Join
    else if CheckCommand(content, "rm") then Rm
    else if CheckCommand(content, "list") then List
    else if CheckCommand(content, "leave") then Leave
    else if CheckCommand(content, "users") then Users
    else Other
  }

  function HandleCommand(t: Tables, from: int, content: string, beyond: string): Outcome {
    var k := SlotOf(t.entries, from);
    match CommandKind(content)
    case Add =>
      Outcome(t.(rooms := AddRoom(t.rooms, Argument(content, "add", beyond))), [])
    case Join =>
      Outcome(t.(entries := SetRoom(t.entries, from, Clip(Argument(content, "join", beyond)))), [])
    case Rm =>
      var name := Argument(content, "rm", beyond);
      Outcome(Tables(ClearRoom(t.entries, name), RemoveRoom(t.rooms, name)), [])
    case List =>
      Outcome(t, if k < |t.entries| then ListPosts(t.rooms, k) else [])
    case Leave =>
      Outcome(t.(entries := SetRoom(t.entries, from, "")), [])
    case Users =>
      Outcome(t, if k < |t.entries| then UsersPosts(t.entries, k, |t.entries|) else [])
    case Other =>
      Outcome(t, [])
  }

  /** What the parent does with one record read on slot `i`. */
  function Handle(t: Tables, i: nat, from: int, content: string, beyond: string): Outcome
    requires i < |t.entries|
  {
    var e := t.entries[i];
    if content != "" && content[0] == '/' then
      HandleCommand(t, from, content, beyond)
    else if e.name == "" then
      Outcome(t.(entries := t.entries[i := e.(name := Clip(content))]), [])
    else if content != "" && content[0] == '!' then
      Outcome(t, if CheckCommand(content, "whisper")
                 then WhisperPosts(t.entries, SlotOf(t.entries, from), Argument(content, "whisper", beyond))
                 else [])
    else
      Outcome(t, if e.room == "" then []
                 else SayPosts(t.entries, e.room, ChatLine(e, content), |t.entries|))
  }

  /**
   `/list` with at least one room looks up the sender's descriptors without testing
   that the sender was found: for a stranger that is slot -1.
   */
  predicate ListsForStranger(t: Tables, from: int, content: string) {
    && content != "" && content[0] == '/' && CommandKind(content) == List
    && t.rooms != [] && SlotOf(t.entries, from) >= |t.entries|
  }

  // ---------------------------------------------------------- removal lemmas

  /** The entries whose process id was not reaped, in their old order. */
  function Without(es: seq<Entry>, gone: set<int>): (kept: seq<Entry>)
    ensures |kept| <= |es|
  {
    if es == [] then []
    else
      var last := es[|es| - 1];
      Without(es[..|es| - 1], gone) + if last.pid as int in gone then [] else [last]
  }

  lemma {:induction false} WithoutAppend(a: seq<Entry>, b: seq<Entry>, gone: set<int>)
    ensures Without(a + b, gone) == Without(a, gone) + Without(b, gone)
  {
    if b == [] {
      assert a + b == a;
    } else {
      var n := |b| - 1;
      assert (a + b)[..|a + b| - 1] == a + b[..n];
      WithoutAppend(a, b[..n], gone);
    }
  }

  lemma {:induction false} WithoutStrangers(es: seq<Entry>, gone: set<int>)
    requires forall i :: 0 <= i < |es| ==> es[i].pid as int !in gone
    ensures Without(es, gone) == es
  {
    if es != [] {
      WithoutStrangers(es[..|es| - 1], gone);
    }
  }

  lemma {:induction false} WithoutTwice(es: seq<Entry>, one: set<int>, two: set<int>)
    ensures Without(Without(es, one), two) == Without(es, one + two)
  {
    if es != [] {
      var front, last := es[..|es| - 1], es[|es| - 1];
      WithoutTwice(front, one, two);
      WithoutAppend(Without(front, one), if last.pid as int in one then [] else [last], two);
      assert Without([last], two) == if last.pid as int in two then [] else [last] by {
        assert [last][..0] == [];
      }
    }
  }

  lemma {:induction false} WithoutMembers(es: seq<Entry>, gone: set<int>, e: Entry)
    ensures e in Without(es, gone) <==> e in es && e.pid as int !in gone
  {
    if es != [] {
      assert es == es[..|es| - 1] + [es[|es| - 1]];
      WithoutMembers(es[..|es| - 1], gone, e);
    }
  }

  lemma WithoutSingle(e: Entry, gone: set<int>)
    ensures Without([e], gone) == if e.pid as int in gone then [] else [e]
  {
    assert [e][..0] == [];
  }

  lemma WithoutThree(a: seq<Entry>, e: Entry, b: seq<Entry>, gone: set<int>)
    ensures Without(a + [e] + b, gone) == Without(a, gone) + Without([e], gone) + Without(b, gone)
  {
    WithoutAppend(a + [e], b, gone);
    WithoutAppend(a, [e], gone);
  }

  lemma WithoutOne(a: seq<Entry>, e: Entry, b: seq<Entry>, gone: set<int>)
    requires gone == {e.pid as int}
    requires Without(a, gone) == a && Without(b, gone) == b
    ensures Without(a + [e] + b, gone) == a + b
  {
    WithoutThree(a, e, b, gone);
    WithoutSingle(e, gone);
  }

  lemma OthersStay(es: seq<Entry>, k: nat)
    requires DistinctPids(es) && k < |es|
    ensures Without(es[..k], {es[k].pid as int}) == es[..k]
    ensures Without(es[k + 1..], {es[k].pid as int}) == es[k + 1..]
  {
    var gone := {es[k].pid as int};
    var a, b := es[..k], es[k + 1..];
    assert forall i :: 0 <= i < |b| ==> b[i] == es[k + 1 + i];
    WithoutStrangers(a, gone);
    WithoutStrangers(b, gone);
  }

  /** Shifting one slot closed is the same as filtering by process id. */
  lemma RemoveIsFilter(es: seq<Entry>, pid: int)
    requires DistinctPids(es)
    ensures Remove(es, pid) == Without(es, {pid})
  {
    hide DistinctPids, Without;
    var k := SlotOf(es, pid);
    if k < |es| {
      OthersStay(es, k);
      assert es == es[..k] + [es[k]] + es[k + 1..];
      WithoutOne(es[..k], es[k], es[k + 1..], {pid});
    } else {
      WithoutStrangers(es, {pid});
    }
  }

  lemma RemoveMembers(es: seq<Entry>, pid: int, e: Entry)
    requires DistinctPids(es)
    ensures e in Remove(es, pid) <==> e in es && e.pid != pid
  {
    RemoveIsFilter(es, pid);
    WithoutMembers(es, {pid}, e);
  }

  lemma RemoveKeepsDistinct(es: seq<Entry>, pid: int)
    requires DistinctPids(es)
    ensures DistinctPids(Remove(es, pid))
  {
    var k, rest := SlotOf(es, pid), Remove(es, pid);
    if k < |es| {
      assert forall i :: 0 <= i < |rest| ==> rest[i] == es[if i < k then i else i + 1];
    }
  }

  /**
   Whatever process ids `waitpid` returns, in whatever order, known to the table or
   not, what stays is the stable filter of the old table without them.
   */
  lemma {:induction false} ReapIsStableFilter(es: seq<Entry>, pids: seq<int>)
    requires DistinctPids(es)
    ensures RemoveEach(es, pids) == Without(es, set p | p in pids)
    ensures DistinctPids(RemoveEach(es, pids))
    decreases |pids|
  {
    hide DistinctPids;
    if pids == [] {
      WithoutStrangers(es, {});
      assert (set p | p in pids) == {};
    } else {
      var first, rest := pids[0], set p | p in pids[1..];
      RemoveKeepsDistinct(es, first);
      RemoveIsFilter(es, first);
      ReapIsStableFilter(Remove(es, first), pids[1..]);
      WithoutTwice(es, {first}, rest);
      assert (set p | p in pids) == {first} + rest;
    }
  }
}
