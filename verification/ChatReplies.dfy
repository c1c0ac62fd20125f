/**
 What the parent does with a text, said outright for each word: the tables afterwards
 and the writes, entry by entry and character by character.
 */
module ChatReplies {
  import opened CStrings
  import opened ChatCommands
  import opened ChatTables
  import opened ChatRefinement

  /** A text of which `word` is the command. */
  predicate Commands(content: string, marker: char, word: string) {
    content != "" && content[0] == marker && FirstWord(content[1..]) == word
  }

  /** Process id `from` is that of slot `k`, and of no slot before it. */
  predicate SentBy(es: seq<Entry>, from: int, k: nat) {
    k < |es| && es[k].pid == from && forall j :: 0 <= j < k ==> es[j].pid != from
  }

  lemma SenderSlot(es: seq<Entry>, from: int, k: nat)
    requires SentBy(es, from, k)
    ensures SlotOf(es, from) == k
  {
  }

  lemma WordsApart(content: string, word: string)
    requires Commands(content, '/', word)
    ensures CommandKind(content) == KindOfWord(word)
  {
    hide CommandKind, FirstWord;
    KindIsFirstWord(content);
  }

  // ------------------------------------------------------------------ replies

  /** `/list` sends the asker the names of the rooms, in their order, and nothing else happens. */
  lemma ListReply(t: Tables, i: nat, from: int, k: nat, content: string, beyond: string)
    requires i < |t.entries| && SentBy(t.entries, from, k) && Commands(content, '/', "list")
    ensures var out := Handle(t, i, from, content, beyond);
            && out.tables == t && |out.posts| == |t.rooms|
            && forall j :: 0 <= j < |t.rooms| ==> out.posts[j] == Post(k, t.rooms[j])
  {
    hide CommandKind, FirstWord, ListPosts, UsersPosts, SlotOf;
    WordsApart(content, "list");
    SenderSlot(t.entries, from, k);
    ListPostsAreRooms(t.rooms, k);
  }

  /** The slots among the first `n` whose client is in this room, in order. */
  function InRoom(es: seq<Entry>, room: string, n: nat): (slots: seq<nat>)
    requires n <= |es|
    ensures forall a :: 0 <= a < |slots| ==> slots[a] < n && es[slots[a]].room == room
    ensures forall j: nat :: j < n && es[j].room == room ==> j in slots
    ensures forall a, b :: 0 <= a < b < |slots| ==> slots[a] < slots[b]
  {
    if n == 0 then [] else InRoom(es, room, n - 1) + if es[n - 1].room == room then [n - 1] else []
  }

  lemma {:induction false} UsersLines(es: seq<Entry>, slot: nat, n: nat)
    requires slot < |es| && n <= |es|
    ensures var slots, posts := InRoom(es, es[slot].room, n), UsersPosts(es, slot, n);
            && |posts| == |slots|
            && forall j :: 0 <= j < |slots| ==> posts[j] == Post(slot, es[slots[j]].name + "\n")
  {
    if n != 0 {
      UsersLines(es, slot, n - 1);
    }
  }

  /** `/users` sends the asker one line for each client in the asker's room, in slot order, and nothing else happens. */
  lemma UsersReply(t: Tables, i: nat, from: int, k: nat, content: string, beyond: string)
    requires i < |t.entries| && SentBy(t.entries, from, k) && Commands(content, '/', "users")
    ensures var out := Handle(t, i, from, content, beyond);
            var slots := InRoom(t.entries, t.entries[k].room, |t.entries|);
            && out.tables == t && |out.posts| == |slots|
            && forall j :: 0 <= j < |slots| ==> out.posts[j] == Post(k, t.entries[slots[j]].name + "\n")
  {
    hide CommandKind, FirstWord, ListPosts, UsersPosts, SlotOf, InRoom;
    WordsApart(content, "users");
    SenderSlot(t.entries, from, k);
    UsersLines(t.entries, k, |t.entries|);
  }

  /** No other command is answered, and unknown ones change nothing. */
  lemma OtherCommands(t: Tables, i: nat, from: int, content: string, beyond: string, word: string)
    requires i < |t.entries| && Commands(content, '/', word) && word != "list" && word != "users"
    ensures Handle(t, i, from, content, beyond).posts == []
    ensures word != "add" && word != "join" && word != "rm" && word != "leave" ==> Handle(t, i, from, content, beyond).tables == t
  {
    hide CommandKind, FirstWord, SetRoom, AddRoom, RemoveRoom, ClearRoom;
    WordsApart(content, word);
  }

  // ---------------------------------------------------------------- arguments

  /** The text of a command with its argument: marker, word, one blank, argument. */
  function Text(marker: char, word: string, argument: string): string {
    [marker] + word + " " + argument
  }

  lemma {:induction false} WordOfText(word: string, argument: string)
    requires IsWord(word)
    ensures FirstWord(word + " " + argument) == word
  {
    if word == "" {
      assert word + " " + argument == " " + argument;
    } else {
      assert (word + " " + argument)[1..] == word[1..] + " " + argument;
      WordOfText(word[1..], argument);
    }
  }

  /** The parent takes exactly the argument out of such a text. */
  lemma ArgumentIsExact(marker: char, word: string, argument: string, beyond: string)
    requires IsWord(word)
    ensures Commands(Text(marker, word, argument), marker, word)
    ensures Argument(Text(marker, word, argument), word, beyond) == argument
  {
    WordOfText(word, argument);
    assert Text(marker, word, argument)[1..] == word + " " + argument;
    assert Text(marker, word, argument)[2 + |word|..] == argument;
  }

  /** At most 31 characters of a name are kept. */
  lemma ClipIsTake(s: string)
    ensures Clip(s) == Take(s, 31)
  {
  }

  /** `/add a` appends a room of that name while there are fewer than four, and does nothing else. */
  lemma AddEffect(t: Tables, i: nat, from: int, argument: string, beyond: string)
    requires i < |t.entries|
    ensures var out := Handle(t, i, from, Text('/', "add", argument), beyond);
            && out.posts == [] && out.tables.entries == t.entries
            && out.tables.rooms == if |t.rooms| < 4 then t.rooms + [Take(argument, 31)] else t.rooms
  {
    hide CommandKind, FirstWord, Argument, Commands;
    ArgumentIsExact('/', "add", argument, beyond);
    CommandStarts(Text('/', "add", argument), "add");
    ClipIsTake(argument);
  }

  lemma CommandStarts(content: string, word: string)
    requires Commands(content, '/', word)
    ensures content != "" && content[0] == '/' && CommandKind(content) == KindOfWord(word)
  {
    hide CommandKind, FirstWord;
    WordsApart(content, word);
  }

  /** `/join a` puts the sender, and nobody else, into that room. */
  lemma JoinEffect(t: Tables, i: nat, from: int, k: nat, argument: string, beyond: string)
    requires i < |t.entries| && SentBy(t.entries, from, k)
    ensures var out := Handle(t, i, from, Text('/', "join", argument), beyond);
            && out.posts == [] && out.tables.rooms == t.rooms
            && out.tables.entries == t.entries[k := t.entries[k].(room := Take(argument, 31))]
  {
    hide CommandKind, FirstWord, Argument, Commands, SlotOf;
    ArgumentIsExact('/', "join", argument, beyond);
    CommandStarts(Text('/', "join", argument), "join");
    SenderSlot(t.entries, from, k);
    ClipIsTake(argument);
  }

  /** `/leave` takes the sender, and nobody else, out of the room. */
  lemma LeaveEffect(t: Tables, i: nat, from: int, k: nat, content: string, beyond: string)
    requires i < |t.entries| && SentBy(t.entries, from, k) && Commands(content, '/', "leave")
    ensures var out := Handle(t, i, from, content, beyond);
            && out.posts == [] && out.tables.rooms == t.rooms
            && out.tables.entries == t.entries[k := t.entries[k].(room := "")]
  {
    hide CommandKind, FirstWord, SlotOf;
    WordsApart(content, "leave");
    SenderSlot(t.entries, from, k);
  }

  /** `/rm a` empties room a and takes the first room of that name off the list. */
  lemma RmEffect(t: Tables, i: nat, from: int, argument: string, beyond: string)
    requires i < |t.entries|
    ensures var out := Handle(t, i, from, Text('/', "rm", argument), beyond);
            && out.posts == [] && |out.tables.entries| == |t.entries|
            && (forall j :: 0 <= j < |t.entries| ==>
                  out.tables.entries[j] == if t.entries[j].room == argument then t.entries[j].(room := "") else t.entries[j])
            && (argument !in t.rooms ==> out.tables.rooms == t.rooms)
            && forall before, after :: t.rooms == before + [argument] + after && argument !in before ==>
                 out.tables.rooms == before + after
  {
    hide CommandKind, FirstWord, Argument, Commands, FirstWhere, RoomIndex, RemoveRoom;
    ArgumentIsExact('/', "rm", argument, beyond);
    CommandStarts(Text('/', "rm", argument), "rm");
    FirstOut(t.rooms, argument);
  }

  lemma FirstOut(rooms: seq<string>, name: string)
    ensures name !in rooms ==> RemoveRoom(rooms, name) == rooms
    ensures forall before, after :: rooms == before + [name] + after && name !in before ==> RemoveRoom(rooms, name) == before + after
  {
    hide FirstWhere, RoomIndex;
    forall before, after | rooms == before + [name] + after && name !in before
      ensures RemoveRoom(rooms, name) == before + after
    {
      var k := RoomIndex(rooms, name);
      assert rooms[|before|] == name && forall j :: 0 <= j < |before| ==> rooms[j] == before[j];
      assert k == |before|;
      assert rooms[..k] == before && rooms[k + 1..] == after;
    }
  }

  // ----------------------------------------------------------- other texts

  /** The first text of a nameless client that is no command becomes the name. */
  lemma NameEffect(t: Tables, i: nat, from: int, content: string, beyond: string)
    requires i < |t.entries| && t.entries[i].name == "" && (content == "" || content[0] != '/')
    ensures Handle(t, i, from, content, beyond)
            == Outcome(t.(entries := t.entries[i := t.entries[i].(name := Take(content, 31))]), [])
  {
    ClipIsTake(content);
  }

  predicate FirstNamed(es: seq<Entry>, name: string, j: nat) {
    j < |es| && es[j].name == name && forall m :: 0 <= m < j ==> es[m].name != name
  }

  /** The text of a whisper: any blanks, a name, and what stands after it. */
  function WhisperText(blanks: nat, to: string, tail: string): string {
    Text('!', "whisper", Blanks(blanks) + (to + tail))
  }

  lemma WhisperIsPosted(t: Tables, i: nat, from: int, blanks: nat, to: string, tail: string, beyond: string)
    requires i < |t.entries| && t.entries[i].name != ""
    ensures Handle(t, i, from, WhisperText(blanks, to, tail), beyond)
            == Outcome(t, WhisperPosts(t.entries, SlotOf(t.entries, from), Blanks(blanks) + (to + tail)))
  {
    hide CheckCommand, FirstWord, Argument, WhisperPosts, Blanks, SlotOf;
    var argument := Blanks(blanks) + (to + tail);
    ArgumentIsExact('!', "whisper", argument, beyond);
    CommandIsFirstWord(Text('!', "whisper", argument), "whisper");
  }

  /**
   A whisper of a known sender to a name somebody has is one write, to the first client
   of that name, with the sender's name and the words after one blank. The tables stay.
   */
  lemma WhisperEffect(t: Tables, i: nat, from: int, k: nat, j: nat, blanks: nat, to: string, tail: string, beyond: string)
    requires i < |t.entries| && t.entries[i].name != ""
    requires to != "" && ' ' !in to && AfterName(tail)
    requires SentBy(t.entries, from, k) && FirstNamed(t.entries, to, j)
    ensures Handle(t, i, from, WhisperText(blanks, to, tail), beyond)
            == Outcome(t, [Post(j, "from " + t.entries[k].name + " : " + Take(if tail == "" then "" else tail[1..], 1024))])
  {
    hide Handle, WhisperPosts, Blanks, SlotOf, SlotNamed, WhisperText;
    WhisperIsPosted(t, i, from, blanks, to, tail, beyond);
    WhisperReachesOne(t.entries, SlotOf(t.entries, from), blanks, to, tail);
    SenderSlot(t.entries, from, k);
    NamedSlot(t.entries, to, j);
  }

  lemma NamedSlot(es: seq<Entry>, name: string, j: nat)
    requires FirstNamed(es, name, j)
    ensures SlotNamed(es, name) == j
  {
  }

  /** Without a name, a client of that name, or a known sender, a whisper is written to nobody. */
  lemma WhisperToNobody(t: Tables, i: nat, from: int, blanks: nat, to: string, tail: string, beyond: string)
    requires i < |t.entries| && t.entries[i].name != ""
    requires ' ' !in to && AfterName(tail) && (to == "" ==> tail == "")
    requires to == "" || (forall e <- t.entries :: e.pid != from) || (forall e <- t.entries :: e.name != to)
    ensures Handle(t, i, from, WhisperText(blanks, to, tail), beyond) == Outcome(t, [])
  {
    hide Handle, WhisperPosts, Blanks, WhisperText, FirstWhere;
    WhisperIsPosted(t, i, from, blanks, to, tail, beyond);
    WhisperReachesOne(t.entries, SlotOf(t.entries, from), blanks, to, tail);
    Missing(t.entries, from, to);
  }

  lemma Missing(es: seq<Entry>, from: int, name: string)
    ensures (forall e <- es :: e.pid != from) ==> SlotOf(es, from) == |es|
    ensures (forall e <- es :: e.name != name) ==> SlotNamed(es, name) == |es|
  {
    if SlotOf(es, from) < |es| {
      assert es[SlotOf(es, from)] in es;
    }
    if SlotNamed(es, name) < |es| {
      assert es[SlotNamed(es, name)] in es;
    }
  }

  /** Any other text with `!` of a named client is ignored. */
  lemma OtherMarked(t: Tables, i: nat, from: int, content: string, beyond: string, word: string)
    requires i < |t.entries| && t.entries[i].name != "" && Commands(content, '!', word) && word != "whisper"
    ensures Handle(t, i, from, content, beyond) == Outcome(t, [])
  {
    hide CheckCommand, FirstWord;
    CommandIsFirstWord(content, "whisper");
  }
}
