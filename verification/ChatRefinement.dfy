/**
 The array tables refine an abstract state that knows neither slots nor shifting:
 a map from process ids to profiles and a list of rooms. Every record the parent
 handles is one abstract request, and the writes it causes reach exactly the
 clients the abstract state names.
 */
module ChatRefinement {
  import opened CStrings
  import opened ChatCommands
  import opened ChatTables

  datatype Profile = Profile(name: string, room: string)

  datatype Abstract = Abstract(clients: map<int, Profile>, rooms: seq<string>)

  datatype Request =
    | Create(name: string)
    | Enter(room: string)
    | Destroy(name: string)
    | ListRooms
    | Exit
    | ListUsers
    | Introduce(name: string)
    | Whisper(argument: string)
    | Say(text: string)
    | Nothing

  function KindOfWord(word: string): Kind {
    match word
    case "add" => Add
    case "join" => Join
    case "rm" => Rm
    case "list" => List
    case "leave" => Leave
    case "users" => Users
    case _ => Other
  }

  /** What a text asks for, read off its first word. */
  function Classify(content: string, named: bool, beyond: string): Request {
    if content != "" && content[0] == '/' then
      match KindOfWord(FirstWord(content[1..]))
      case Add => Create(Argument(content, "add", beyond))
      case Join => Enter(Argument(content, "join", beyond))
      case Rm => Destroy(Argument(content, "rm", beyond))
      case List => ListRooms
      case Leave => Exit
      case Users => ListUsers
      case Other => Nothing
    else if !named then Introduce(content)
    else if content != "" && content[0] == '!' then
      if FirstWord(content[1..]) == "whisper" then Whisper(Argument(content, "whisper", beyond)) else Nothing
    else Say(content)
  }

  /** The list without the first room of that name. */
  function DropFirst(rooms: seq<string>, name: string): seq<string> {
    if rooms == [] then []
    else if rooms[0] == name then rooms[1..]
    else [rooms[0]] + DropFirst(rooms[1..], name)
  }

  function Evict(clients: map<int, Profile>, room: string): map<int, Profile> {
    map p | p in clients :: if clients[p].room == room then clients[p].(room := "") else clients[p]
  }

  function AbstractStep(a: Abstract, pid: int, r: Request): Abstract
    requires pid in a.clients
  {
    match r
    case Create(name) => if |a.rooms| < CHAT_ROOM then a.(rooms := a.rooms + [Clip(name)]) else a
    case Enter(room) => a.(clients := a.clients[pid := a.clients[pid].(room := Clip(room))])
    case Destroy(name) => Abstract(Evict(a.clients, name), DropFirst(a.rooms, name))
    case Exit => a.(clients := a.clients[pid := a.clients[pid].(room := "")])
    case Introduce(name) => a.(clients := a.clients[pid := a.clients[pid].(name := Clip(name))])
    case ListRooms => a
    case ListUsers => a
    case Whisper(_) => a
    case Say(_) => a
    case Nothing => a
  }

  function ProfileOf(e: Entry): Profile {
    Profile(e.name, e.room)
  }

  /** The map has the table's process ids, each with the profile of its slot. */
  ghost predicate Represents(es: seq<Entry>, m: map<int, Profile>) {
    && (forall p :: p in m <==> p in Pids(es))
    && forall i {:trigger es[i]} :: 0 <= i < |es| ==> es[i].pid as int in m && m[es[i].pid] == ProfileOf(es[i])
  }

  /** The tables and the abstract state tell the same story. */
  ghost predicate Refines(t: Tables, a: Abstract) {
    DistinctPids(t.entries) && Represents(t.entries, a.clients) && t.rooms == a.rooms
  }

  lemma KnownClient(es: seq<Entry>, i: nat, m: map<int, Profile>)
    requires i < |es| && Represents(es, m)
    ensures es[i].pid as int in m && m[es[i].pid] == ProfileOf(es[i])
  {
  }

  /** A table represents one abstract state only. */
  lemma RefinesOne(t: Tables, a: Abstract, b: Abstract)
    requires Refines(t, a) && Refines(t, b)
    ensures a == b
  {
    forall p ensures p in a.clients <==> p in b.clients {
    }
    forall p | p in a.clients ensures a.clients[p] == b.clients[p] {
      var i :| 0 <= i < |t.entries| && t.entries[i].pid == p;
    }
    assert a.clients == b.clients;
  }

  lemma SlotOfEntry(es: seq<Entry>, i: nat)
    requires DistinctPids(es) && i < |es|
    ensures SlotOf(es, es[i].pid) == i
  {
    var k := SlotOf(es, es[i].pid);
    assert k < |es|;
    assert es[k].pid == es[i].pid;
  }

  /** Rewriting the profile of one slot is a map update at its process id. */
  lemma UpdateRefines(es: seq<Entry>, i: nat, e: Entry, m: map<int, Profile>)
    requires DistinctPids(es) && i < |es| && e.pid == es[i].pid && Represents(es, m)
    ensures DistinctPids(es[i := e]) && Represents(es[i := e], m[e.pid := ProfileOf(e)])
  {
    var es' := es[i := e];
    SamePids(es, es');
    assert es[i].pid as int in m;
    forall j | 0 <= j < |es'| ensures m[e.pid := ProfileOf(e)][es'[j].pid] == ProfileOf(es'[j]) {
      assert es[j].pid as int in m;
    }
  }

  /** A new child adds one nameless, roomless client. */
  lemma AddRefines(es: seq<Entry>, e: Entry, m: map<int, Profile>)
    requires DistinctPids(es) && e.pid as int !in Pids(es) && Represents(es, m)
    ensures DistinctPids(es + [e]) && Represents(es + [e], m[e.pid := ProfileOf(e)])
  {
    var es' := es + [e];
    assert forall j :: 0 <= j < |es| ==> es[j].pid as int in Pids(es);
    forall p ensures p in Pids(es') <==> p in Pids(es) || p == e.pid as int {
      if p in Pids(es) {
        var j :| 0 <= j < |es| && es[j].pid == p;
        assert es'[j].pid == p;
      }
      assert es'[|es|].pid == e.pid;
    }
    forall j | 0 <= j < |es'| ensures m[e.pid := ProfileOf(e)][es'[j].pid] == ProfileOf(es'[j]) {
      if j < |es| {
        assert es'[j] == es[j];
      }
    }
  }

  lemma RemovePids(es: seq<Entry>, pid: int, p: int)
    requires DistinctPids(es)
    ensures p in Pids(Remove(es, pid)) <==> p in Pids(es) && p != pid
  {
    var es' := Remove(es, pid);
    if p in Pids(es) && p != pid {
      var j :| 0 <= j < |es| && es[j].pid == p;
      RemoveMembers(es, pid, es[j]);
    }
    if p in Pids(es') {
      var j :| 0 <= j < |es'| && es'[j].pid == p;
      RemoveMembers(es, pid, es'[j]);
    }
  }

  /** Reaping a child removes exactly its client. */
  lemma RemoveRefines(es: seq<Entry>, pid: int, m: map<int, Profile>)
    requires DistinctPids(es) && Represents(es, m)
    ensures DistinctPids(Remove(es, pid)) && Represents(Remove(es, pid), m - {pid})
  {
    var es' := Remove(es, pid);
    RemoveKeepsDistinct(es, pid);
    forall p ensures p in m - {pid} <==> p in Pids(es') {
      RemovePids(es, pid, p);
    }
    forall j | 0 <= j < |es'|
      ensures es'[j].pid as int in m - {pid} && (m - {pid})[es'[j].pid] == ProfileOf(es'[j])
    {
      RemoveMembers(es, pid, es'[j]);
      var k :| 0 <= k < |es| && es[k] == es'[j];
    }
  }

  // ----------------------------------------------------------------- rooms

  lemma RoomIndexLater(rooms: seq<string>, name: string)
    requires rooms != [] && rooms[0] != name
    ensures RoomIndex(rooms, name) == 1 + RoomIndex(rooms[1..], name)
  {
    hide FirstWhere, RoomIndex;
    var rest := rooms[1..];
    var k := RoomIndex(rest, name);
    assert forall j :: 0 <= j < |rest| ==> rest[j] == rooms[j + 1];
    assert k < |rest| ==> rooms[k + 1] == name;
    assert forall j :: 0 <= j < k + 1 ==> rooms[j] != name;
  }

  /**
   `rm` takes out the first room of that name and keeps the others in their order;
   without one it changes nothing.
   */
  lemma {:induction false} RemoveRoomDropsFirst(rooms: seq<string>, name: string)
    ensures RemoveRoom(rooms, name) == DropFirst(rooms, name)
  {
    hide FirstWhere, RoomIndex;
    if rooms != [] && rooms[0] != name {
      var rest := rooms[1..];
      RoomIndexLater(rooms, name);
      RemoveRoomDropsFirst(rest, name);
      var k := RoomIndex(rest, name);
      if k < |rest| {
        WithoutLater(rooms, k);
      } else {
        assert rooms == [rooms[0]] + rest;
      }
    }
  }

  lemma WithoutLater(rooms: seq<string>, k: nat)
    requires rooms != [] && k < |rooms| - 1
    ensures var rest := rooms[1..]; rooms[..1 + k] + rooms[2 + k..] == [rooms[0]] + (rest[..k] + rest[k + 1..])
  {
    assert rooms[..1 + k] == [rooms[0]] + rooms[1..][..k];
    assert rooms[2 + k..] == rooms[1..][k + 1..];
  }

  /** `rm` moves everybody out of the room it removes, and nobody else. */
  lemma ClearRoomRefines(es: seq<Entry>, room: string, m: map<int, Profile>)
    requires DistinctPids(es) && Represents(es, m)
    ensures DistinctPids(ClearRoom(es, room)) && Represents(ClearRoom(es, room), Evict(m, room))
    ensures room != "" ==> forall e :: e in ClearRoom(es, room) ==> e.room != room
  {
    var es', m' := ClearRoom(es, room), Evict(m, room);
    SamePids(es, es');
    forall j | 0 <= j < |es'| ensures es'[j].pid as int in m' && m'[es'[j].pid] == ProfileOf(es'[j]) {
      assert es[j].pid as int in m;
    }
  }

  lemma SetRoomRefines(es: seq<Entry>, i: nat, room: string, m: map<int, Profile>)
    requires DistinctPids(es) && i < |es| && Represents(es, m)
    ensures var pid := es[i].pid as int;
            && DistinctPids(SetRoom(es, pid, room))
            && pid in m && Represents(SetRoom(es, pid, room), m[pid := m[pid].(room := room)])
  {
    SlotOfEntry(es, i);
    UpdateRefines(es, i, es[i].(room := room), m);
  }

  // -------------------------------------------------------------- dispatch

  /** The chain of tests and the first word agree, so the order of the tests is irrelevant. */
  lemma KindIsFirstWord(content: string)
    requires content != "" && (content[0] == '/' || content[0] == '!')
    ensures CommandKind(content) == KindOfWord(FirstWord(content[1..]))
    ensures CheckCommand(content, "whisper") <==> FirstWord(content[1..]) == "whisper"
  {
    CommandIsFirstWord(content, "add");
    CommandIsFirstWord(content, "join");
    CommandIsFirstWord(content, "rm");
    CommandIsFirstWord(content, "list");
    CommandIsFirstWord(content, "leave");
    CommandIsFirstWord(content, "users");
    CommandIsFirstWord(content, "whisper");
  }

  lemma CommandRefines(t: Tables, i: nat, content: string, named: bool, beyond: string, a: Abstract)
    requires Refines(t, a) && i < |t.entries| && content != "" && content[0] == '/'
    ensures var pid := t.entries[i].pid as int;
            && pid in a.clients
            && Refines(HandleCommand(t, pid, content, beyond).tables,
                       AbstractStep(a, pid, Classify(content, named, beyond)))
  {
    hide DistinctPids, Represents, UsersPosts, ListPosts, CheckCommand;
    KindIsFirstWord(content);
    KnownClient(t.entries, i, a.clients);
    match CommandKind(content)
    case Join =>
      SetRoomRefines(t.entries, i, Clip(Argument(content, "join", beyond)), a.clients);
    case Leave =>
      SetRoomRefines(t.entries, i, "", a.clients);
    case Rm =>
      var name := Argument(content, "rm", beyond);
      ClearRoomRefines(t.entries, name, a.clients);
      RemoveRoomDropsFirst(t.rooms, name);
    case _ =>
  }

  lemma PlainRefines(t: Tables, i: nat, content: string, beyond: string, a: Abstract)
    requires Refines(t, a) && i < |t.entries| && (content == "" || content[0] != '/')
    ensures var pid := t.entries[i].pid as int;
            && pid in a.clients
            && Refines(Handle(t, i, pid, content, beyond).tables,
                       AbstractStep(a, pid, Classify(content, t.entries[i].name != "", beyond)))
  {
    hide DistinctPids, Represents, SayPosts, WhisperPosts, CheckCommand;
    var e := t.entries[i];
    KnownClient(t.entries, i, a.clients);
    if e.name == "" {
      UpdateRefines(t.entries, i, e.(name := Clip(content)), a.clients);
    }
  }

  /** Handling one record commutes with the abstract request it stands for. */
  lemma HandleRefines(t: Tables, i: nat, content: string, beyond: string, a: Abstract)
    requires Refines(t, a) && i < |t.entries|
    ensures var pid := t.entries[i].pid as int;
            && pid in a.clients
            && Refines(Handle(t, i, pid, content, beyond).tables,
                       AbstractStep(a, pid, Classify(content, t.entries[i].name != "", beyond)))
  {
    hide DistinctPids, Represents, HandleCommand, AbstractStep, SayPosts, WhisperPosts, CheckCommand;
    var e := t.entries[i];
    KnownClient(t.entries, i, a.clients);
    if content != "" && content[0] == '/' {
      CommandRefines(t, i, content, e.name != "", beyond, a);
    } else {
      PlainRefines(t, i, content, beyond, a);
    }
  }

  // ----------------------------------------------------------------- writes

  ghost predicate SlotsIncrease(posts: seq<Post>) {
    forall a, b :: 0 <= a < b < |posts| ==> posts[a].slot < posts[b].slot
  }

  /** The post is one of those a chat line makes among the first `n` slots. */
  predicate Addressed(es: seq<Entry>, room: string, line: string, n: nat, p: Post)
    requires n <= |es|
  {
    p.slot < n && es[p.slot].active && es[p.slot].room == room && p.bytes == line
  }

  lemma {:induction false} SayPostsUpTo(es: seq<Entry>, room: string, line: string, n: nat)
    requires n <= |es|
    ensures SlotsIncrease(SayPosts(es, room, line, n))
    ensures forall p :: p in SayPosts(es, room, line, n) <==> Addressed(es, room, line, n, p)
  {
    if n != 0 {
      SayPostsUpTo(es, room, line, n - 1);
      var before, now := SayPosts(es, room, line, n - 1), SayPosts(es, room, line, n);
      assert forall a :: 0 <= a < |before| ==> before[a] in before;
      forall p ensures p in now <==> Addressed(es, room, line, n, p) {
        assert p in now <==> p in before || (Addressed(es, room, line, n, Post(n - 1, line)) && p == Post(n - 1, line));
      }
    }
  }

  /**
   A chat line is written once to each active client in the sender's room, the
   sender included, and to nobody else; without a room it is written to nobody.
   */
  lemma ChatLineReachesTheRoom(t: Tables, i: nat, content: string, beyond: string)
    requires i < |t.entries| && t.entries[i].name != ""
    requires content == "" || (content[0] != '/' && content[0] != '!')
    ensures var e := t.entries[i];
            var out := Handle(t, i, e.pid, content, beyond);
            && out.tables == t
            && SlotsIncrease(out.posts)
            && (forall p :: p in out.posts <==>
                  e.room != "" && Addressed(t.entries, e.room, e.name + ": " + content + [NUL], |t.entries|, p))
  {
    SayPostsUpTo(t.entries, t.entries[i].room, ChatLine(t.entries[i], content), |t.entries|);
  }

  lemma {:induction false} ListPostsAreRooms(rooms: seq<string>, slot: nat)
    ensures |ListPosts(rooms, slot)| == |rooms|
    ensures forall k :: 0 <= k < |rooms| ==> ListPosts(rooms, slot)[k] == Post(slot, rooms[k])
  {
    if rooms != [] {
      ListPostsAreRooms(rooms[..|rooms| - 1], slot);
    }
  }

  ghost function Members(es: seq<Entry>, room: string, n: nat): set<nat>
    requires n <= |es|
  {
    set k: nat | k < n && es[k].room == room
  }

  /** `/users` sends the asker one line for each client in the asker's room. */
  lemma {:induction false} UsersPostsAreMembers(es: seq<Entry>, slot: nat, n: nat)
    requires slot < |es| && n <= |es|
    ensures |UsersPosts(es, slot, n)| == |Members(es, es[slot].room, n)|
    ensures forall p :: p in UsersPosts(es, slot, n) <==>
              p.slot == slot && exists k: nat :: k in Members(es, es[slot].room, n) && p.bytes == es[k].name + "\n"
  {
    var room := es[slot].room;
    if n == 0 {
      assert Members(es, room, 0) == {};
    } else {
      UsersPostsAreMembers(es, slot, n - 1);
      var before, now := Members(es, room, n - 1), Members(es, room, n);
      if es[n - 1].room == room {
        assert now == before + {n - 1};
      } else {
        assert now == before;
      }
    }
  }

  function Blanks(n: nat): string {
    if n == 0 then "" else " " + Blanks(n - 1)
  }

  lemma SkipOne(s: string)
    ensures SkipLeading(" " + s, ' ') == SkipLeading(s, ' ')
  {
    assert (" " + s)[1..] == s;
  }

  lemma Regroup(a: string, b: string, c: string)
    ensures (a + b) + c == a + (b + c)
  {
  }

  lemma SkipNone(s: string)
    requires s == "" || s[0] != ' '
    ensures SkipLeading(s, ' ') == s
  {
  }

  lemma {:induction false} SkipBlanks(n: nat, rest: string)
    requires rest == "" || rest[0] != ' '
    ensures SkipLeading(Blanks(n) + rest, ' ') == rest
  {
    hide SkipLeading;
    if n == 0 {
      assert Blanks(0) + rest == rest;
      SkipNone(rest);
    } else {
      Regroup(" ", Blanks(n - 1), rest);
      SkipBlanks(n - 1, rest);
      SkipOne(Blanks(n - 1) + rest);
    }
  }

  /** What stands after a name: nothing, or a blank and the words. */
  predicate AfterName(tail: string) {
    tail == "" || tail[0] == ' '
  }

  lemma {:induction false} NameBefore(to: string, tail: string)
    requires ' ' !in to && AfterName(tail)
    ensures UpTo(to + tail, ' ') == to
  {
    if to == "" {
      assert to + tail == tail;
    } else {
      assert (to + tail)[1..] == to[1..] + tail;
      NameBefore(to[1..], tail);
    }
  }

  lemma NameThenTail(blanks: nat, to: string, tail: string)
    requires to != "" && ' ' !in to && AfterName(tail)
    ensures Strtok(Blanks(blanks) + (to + tail), ' ') == Split(Some(to), if tail == "" then "" else tail[1..])
  {
    hide SkipLeading, UpTo, Blanks;
    var t := to + tail;
    assert t[0] == to[0];
    SkipBlanks(blanks, t);
    NameBefore(to, tail);
    assert tail != "" ==> t[|to| + 1..] == tail[1..];
  }

  /** Every argument is blanks, or blanks, a name and what stands after it. */
  lemma {:induction false} ArgumentShape(argument: string) returns (blanks: nat, to: string, tail: string)
    ensures ' ' !in to && AfterName(tail) && (to == "" ==> tail == "")
    ensures argument == Blanks(blanks) + (to + tail)
  {
    if argument != "" && argument[0] == ' ' {
      blanks, to, tail := ArgumentShape(argument[1..]);
      assert argument == " " + argument[1..];
      assert Blanks(blanks + 1) + (to + tail) == " " + (Blanks(blanks) + (to + tail));
      blanks := blanks + 1;
    } else {
      blanks, to := 0, UpTo(argument, ' ');
      tail := argument[|to|..];
    }
  }

  /**
   A whisper is written at most once: to the first client of the name after leading
   blanks, with the sender's name and the words after one more blank, shortened; with
   no name, or nobody of that name, or an unknown sender, it is written to nobody.
   Together with `ArgumentShape` this covers every argument.
   */
  lemma WhisperReachesOne(es: seq<Entry>, slot: nat, blanks: nat, to: string, tail: string)
    requires ' ' !in to && AfterName(tail) && (to == "" ==> tail == "")
    ensures var posts := WhisperPosts(es, slot, Blanks(blanks) + (to + tail));
            var k := SlotNamed(es, to);
            if to != "" && slot < |es| && k < |es| then
              posts == [Post(k, "from " + es[slot].name + " : " + Shorten(if tail == "" then "" else tail[1..], WHISPER_MAX))]
            else posts == []
  {
    hide Shorten, SlotNamed, UpTo, SkipLeading, FirstWhere, Blanks;
    if to == "" {
      assert to + tail == "";
      SkipBlanks(blanks, "");
    } else {
      NameThenTail(blanks, to, tail);
    }
  }
}
