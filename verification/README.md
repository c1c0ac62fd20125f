# Chat server, frame streaming and framebuffer drawing: a verified model

This project models the four parts of the repository that carry protocols, state
machines and index arithmetic, and proves what they promise.

**The chat server.** A parent process forks one child per accepted client. It keeps
the children in an array it compacts (process id, name, room, two pipe descriptors)
and up to four rooms in a second one. A child forwards what its client types as
`"pid:text"` through a pipe; the parent answers through another pipe and wakes the
child with SIGUSR1. `ChatServer` is the parent as it runs: arrays, counts, searches,
shifts, and the descriptor table beneath. `ChatTables` says what each text does to the
tables and which writes it causes; `ChatReplies` states the effect of each word outright,
entry by entry and character by character; `ChatRefinement` relates this to a state without
slots (a map from process ids to names and rooms, and a list of rooms). `ChatSystem` is
the whole system as transitions: the parent, each child, their pipes, the pending
signals and flags. `ChatInvariant` proves what every step keeps in every run;
`ChatAwareness` what it keeps while each read of the parent reaches the end of the pipe,
and when a child is told of its messages; `ChatUpward` when the parent is told of its
children's, `ChatReaping` when it is told of their exits; `ChatProgress` what follows once
somebody has been told; `ChatLimits` how far these promises reach. `ChatTheorems`, `ChatSimulation`
and `ChatLedger` draw the other conclusions for whole runs.

**The audio/video stream.** Clients send frames (type, 4-byte size, body) and wait for
a 4-byte answer; the server reads them in a `select` loop. `Framing` is the byte format,
`Sockets` the transfer loops over a byte queue that fragments as it likes (the service
of section 2.2 of RFC 9293), `StreamClient` the clients' loop, `StreamSystem` all
connections together, `SelectLoop` the server's descriptor bookkeeping.

**The drawing.** `Framebuffer` has the pixel format, points and filled rectangles,
`Circle` the integer circle, `Bitmap` reading and showing BMP files, `YuvWindow` the
camera picture in a centred window.

Where the C code calls the system, the result is chosen arbitrarily among what the call may
return; where it keeps running forever, statements quantify over every finite run.

## Where the code falls short of what one might expect

* A child signals the parent *before* it writes, so a message can stay unread with nobody
  about to look, whatever the size of the pipes: `ChatLimits.UpwardWakeUpCanBeLost`. The
  parent also loses an announcement when a read of its scan fails.
  `ChatUpward.StepHears` names the steps that lose one, and shows that no other step does;
  `ChatUpward.LateWriteByOrder` says the first kind by the order of events. The parent's
  own order is write, then signal; there only the next item can lose a wake-up.
* A child that finds more unread bytes than one read of `BUFSIZ - 1` takes is not told of
  the rest: `ChatAwareness.StepWakes`. Every run keeps the wake-up promise if and only if
  pipes hold no more than that (`ChatLimits.WakeUpsKeptIff`), and the same bound decides
  whether the parent always knows the sender (`ChatLimits.SendersKnownIff`). A single chat
  line is affected when name and text have more than 8188 characters together.
* Beyond the same bound a read can find the tail of a cut record. The parent looks for a
  newline in the content before it tests that there is a content, so a tail without one is
  a NULL dereference, and a tail that reads as `/list` of a pid not in the table uses slot
  -1. The model ends the process in both cases. Ordinary pipes are larger than one read,
  so one client text can be enough: with its pid, the colon and the NUL it must exceed
  8191 bytes. The parent survives every read of every run if and only if pipes hold no
  more than one read takes: `ChatLimits.ReadsAreSafeIff`.
* A read of the parent handles the oldest waiting text and drops all others it has read:
  `ChatLimits.SecondTextCanBeLost`. While reads reach the ends of the pipes, every text
  read of a client is handled if and only if no read finds two (`ChatLedger.HandledAllIff`),
  which its child ensures exactly by not writing while an earlier text is unread
  (`ChatLedger.OneAtATimeByOrder`).
* The exit flag is cleared after the reaping loop. A child that exits in between, and whose
  signal has already been taken, stays unreaped with nothing to recall it:
  `ChatReaping.ExitCanBeForgotten`; `ChatReaping.StepNotices` is exact.
* The rectangle fills do not clip. A rectangle past the left or right edge colours pixels
  of the neighbouring rows; `Framebuffer.FillsItsRectangleIff` is exact.
* The BMP viewer's comments say that it flips the stored rows. It computes the row
  offsets without the padding that `readBmp` stores. The picture is right for every
  pixel data exactly when the width is a multiple of four or there is one row:
  `Bitmap.FlipIsRightIff`.

## Assumptions

A camera image has at least 640 * 480 * 2 bytes, so that it fills the window the server
draws. A chat client's texts are non-empty and contain no NUL. A write to a pipe happens
whole or not at all. Process ids of unreaped children differ, and `fork` never returns
one of them. Descriptor numbers handed out are not in use, and below `FD_SETSIZE` in the
`select` server. Signals of one kind coalesce (section 2.4.1 of POSIX.1-2017 System
Interfaces). A child inherits the parent's signal handler until it installs its own. A
write to the pipe of a dead child ends the parent (SIGPIPE). A write past the end of the
framebuffer device writes nothing.

## Model

| member | source | states |
|---|---|---|
| `ChatCommands.CommandIsFirstWord` | chat server/comm.c:31-51 | the byte comparison accepts a message exactly when its first word after `/` or `!` is the command |
| `ChatCommands.CommandIsMarked` | chat server/comm.c:31-51 | in characters: marker, command, then the end, a blank or a newline |
| `ChatCommands.AtMostOneCommand` | chat server/server.c:122-127 | no message passes two different tests |
| `ChatRecords.DigitAt` | chat server/clientprocess.c:85 | `%d` writes the decimal digits, most significant first |
| `ChatRecords.AtoiOfDecimal` | chat server/server.c:119 | `atoi` undoes `%d` for every process id |
| `ChatRecords.RecordInFull` | chat server/clientprocess.c:85-95 | a record in full: pid, colon, text, NUL |
| `ChatRecords.ParseOfRecord` | chat server/server.c:113-119 | from a buffer that starts with the record of a pid and text, whatever follows it, the parent recovers that pid and the text up to its first newline, colons included |
| `ChatRecords.ParseOfRead` | chat server/server.c:103-119 | one read of a pipe that begins with a record yields its pid always, and the first line of the text as far as the read goes |
| `ChatRecords.RecordsAppend` | chat server/clientprocess.c:84-95 | a child's write adds one record at the end of the unread bytes |
| `ChatRecords.BytesAfterSkip` | chat server/server.c:103 | after a read of any size the account of cut record and whole records is exactly the bytes left |
| `ChatTables.RemoveIsFilter` | chat server/sig.c:24-37 | closing a slot up by shifting is filtering by process id |
| `ChatTables.ReapIsStableFilter` | chat server/sig.c:19-39 | for any sequence of reaped pids, unknown ones included, what remains is the old table without them, in the old order, with distinct pids |
| `ChatTables.WithoutMembers` | chat server/sig.c:24-37 | an entry survives reaping exactly when its pid was not reaped |
| `ChatRefinement.RefinesOne` | chat server/comm.h:36-43 | a table represents one abstract state only |
| `ChatRefinement.AddRefines` | chat server/server.c:440-449 | a new slot is one new nameless, roomless client in the map |
| `ChatRefinement.RemoveRefines` | chat server/sig.c:24-37 | removing a slot removes exactly that client from the map |
| `ChatRefinement.RemoveRoomDropsFirst` | chat server/server.c:178-189 | `rm` takes out the first room of that name and keeps the others in order |
| `ChatRefinement.ClearRoomRefines` | chat server/server.c:166-176 | `rm` moves everybody out of the room, and changes nobody else |
| `ChatRefinement.SetRoomRefines` | chat server/server.c:138-155 | `join` and `leave` update the room of the sender's client and nothing else |
| `ChatRefinement.KindIsFirstWord` | chat server/server.c:121-259 | the chain of command tests selects what the first word says |
| `ChatRefinement.HandleRefines` | chat server/server.c:121-361 | handling any text on any slot commutes with the abstract request it stands for |
| `ChatRefinement.SayPostsUpTo` | chat server/server.c:344-349 | the broadcast loop addresses exactly the active clients of the room, each once, in slot order |
| `ChatRefinement.ChatLineReachesTheRoom` | chat server/server.c:333-360 | a chat line of a named client changes no table and is written once to each active client of the sender's room and to nobody else; without a room to nobody |
| `ChatReplies.ListReply` | chat server/server.c:190-214 | handling a text whose word is `list` writes the asker the room names, one each, in table order, and changes nothing |
| `ChatReplies.UsersReply` | chat server/server.c:228-255 | handling `users` writes the asker the name and a newline for each client whose room is the asker's, in slot order, and changes nothing |
| `ChatReplies.OtherCommands` | chat server/server.c:121-260 | no other command is answered; unknown ones change nothing |
| `ChatReplies.ArgumentIsExact` | chat server/server.c:131-164 | of marker, word, blank and argument the parent uses exactly the argument |
| `ChatReplies.AddEffect` | chat server/server.c:129-137 | `/add a` appends a's first 31 characters as a room while there are fewer than four, and does nothing else |
| `ChatReplies.JoinEffect` | chat server/server.c:138-155 | `/join a` sets the sender's room to a's first 31 characters, whether such a room exists or not, and does nothing else |
| `ChatReplies.LeaveEffect` | chat server/server.c:215-224 | `leave` clears the sender's room and does nothing else |
| `ChatReplies.RmEffect` | chat server/server.c:156-189 | `/rm a` clears the room of exactly the clients in a and takes the first room a off the list |
| `ChatReplies.NameEffect` | chat server/server.c:261-265 | a nameless client's first other text, cut to 31 characters, becomes its name |
| `ChatReplies.WhisperEffect` | chat server/server.c:266-327 | handling `!whisper` with any blanks, a name somebody has and words makes one write, to the first client of that name, with the sender's name and at most 1024 characters |
| `ChatReplies.WhisperToNobody` | chat server/server.c:275-330 | without a name, a client of that name or a known sender it makes none |
| `ChatReplies.OtherMarked` | chat server/server.c:266-332 | any other `!` text of a named client is ignored |
| `ChatRefinement.ArgumentShape` | chat server/server.c:275-285 | every whisper argument is blanks, or blanks, a name, and nothing or a blank and words |
| `ChatRefinement.WhisperReachesOne` | chat server/server.c:266-327 | for every such argument a whisper is written at most once, to the first client of that name, with sender and shortened words; without a name, a match or a known sender to nobody |
| `ChatServer.AdmissionKeepsOwnership` | chat server/server.c:435-449 | two fresh pipe ends and one new entry keep "listener plus two descriptors per entry" |
| `ChatServer.RemovalKeepsOwnership` | chat server/sig.c:26-33 | closing one entry's two descriptors and dropping the entry keep it too |
| `ChatServer.Parent.Admit` | chat server/server.c:379-456 | the result is the one the answers of accept, the pipes, fcntl and fork call for, each asked only after the one before succeeded; refusal comes exactly at 32 entries; every child fork makes gets an entry with its two descriptors, and on every other exit the descriptors are as before |
| `ChatServer.Parent.RemoveChild` | chat server/sig.c:24-37 | the shifting loop leaves the specified table, closes exactly that entry's descriptors, and keeps entries and unreaped forked children the same |
| `ChatServer.Parent.CleanActiveProcess` | chat server/sig.c:19-39 | after any reaping the table is the old one without the reaped pids, and descriptors still match it exactly |
| `ChatServer.Parent.Shutdown` | chat server/server.c:460-468 | the shutdown closes every open descriptor, each once |
| `ChatServer.Parent.FindClient` | chat server/server.c:142-147 | the search loop returns the first slot of the pid, or -1 |
| `ChatServer.Parent.DeleteRoom` | chat server/server.c:178-189 | the room array becomes the list without the first room of that name |
| `ChatServer.Parent.EvictRoom` | chat server/server.c:166-176 | the loop clears the room of exactly the clients in it |
| `ChatServer.Parent.Broadcast` | chat server/server.c:333-360 | the writes made are those the specification lists |
| `ChatServer.Parent.SendWhisper` | chat server/server.c:269-330 | token, searches and write agree with the specification |
| `ChatServer.Parent.HandleRecord` | chat server/server.c:121-361 | one record changes the tables, and causes the writes, as specified for any sender and text, keeps pids distinct and descriptors exact, and reports exactly the `/list` of a stranger that would use slot -1 |
| `ChatInvariant.ReadKeepsTable` | chat server/server.c:99-373 | whatever bytes are read, cut records included: unless the process ends there with everything closed, no slot moves, nobody is renamed, and the planned writes go to slots of the table |
| `ChatInvariant.CloseKeepsTable` | chat server/server.c:460-465 | each pass of the shutdown loop closes two descriptors that are open, and what stays open is the listener and the later entries' |
| `ChatInvariant.StepKeepsSound` | chat server/server.c:70-468 | for pipes of any size every step of parent, children, pipes, signals and shutdown keeps table, descriptors, plan and pipe contents in order |
| `ChatInvariant.RunKeepsSound` | chat server/server.c:70-468 | so does every run |
| `ChatAwareness.SenderIsSlot` | chat server/server.c:103-119 | what is parsed from slot i's pipe names slot i's pid, the search returns i, and the content is the oldest text's first line as far as one read goes |
| `ChatAwareness.StepKeepsAware` | chat server/server.c:70-457 | a step whose read reaches the end of the pipe keeps names, rooms, writes and signals with children past their handler |
| `ChatAwareness.AwareReadsSucceed` | chat server/server.c:113-118 | while reads reach the ends of the pipes no read ends the parent |
| `ChatAwareness.SmallPipesAreRead` | chat server/server.c:103 | in pipes no larger than one read, every read of every run reaches the end |
| `ChatAwareness.StepWakes` | chat server/clientprocess.c:36-41 | a step keeps "a child with unread bytes has been or is about to be told" if and only if it is not a child's read that leaves bytes behind with no flag and no signal |
| `ChatAwareness.AwakeIffNeverDeaf` | chat server/server.c:349-358 | a run in which the parent's reads reach the ends of the pipes keeps the promise in all its states if and only if it has no such read of a child |
| `ChatAwareness.NoLostWakeUp` | chat server/server.c:349-358 | in such a run, while the parent's reads reach the ends of the pipes, unread bytes for a living child mean: its flag is set, or SIGUSR1 is pending, or the parent is between write and kill, or the child is between clearing its flag and reading |
| `ChatAwareness.SignalsFindTheirHandler` | chat server/clientprocess.c:8 | while reads reach the ends of the pipes, the parent signals only unreaped children that have installed their handler |
| `ChatProgress.ToldChildReads` | chat server/clientprocess.c:36-41 | a child whose flag is set or signal pending can, by its own steps alone, take one read's bytes out of its pipe |
| `ChatProgress.FlagStartsScan` | chat server/server.c:96-373 | with the parent's flag set and no connection waiting, the flag is cleared and every slot is read once, in order, before the top of the loop is reached again |
| `ChatLimits.WakeUpsKeptIff` | chat server/clientprocess.c:36-41 | all reachable states keep the wake-up promise if and only if a pipe holds at most one read's bytes |
| `ChatLimits.SendersKnownIff` | chat server/server.c:103-119 | all reachable states attribute every pipe's bytes to its own client, whole first line included, if and only if a pipe holds at most one read's bytes |
| `ChatLimits.ReadsAreSafeIff` | chat server/server.c:113-118 | no read of any run ends the parent if and only if a pipe holds at most one read's bytes |
| `ChatLimits.LoneLineIsHeardIff` | chat server/clientprocess.c:41 | a woken child that finds one chat line is left untold of a rest exactly when name and text exceed `BUFSIZ - 4` characters |
| `ChatUpward.StepDue` | chat server/server.c:96-99 | a slot becomes due only by a signal, and stops being due only when the scan passes it with neither signal nor flag left |
| `ChatUpward.StepHears` | chat server/clientprocess.c:90-95 | for pipes of any size a step keeps "while the parent runs, every slot with unread bytes is due" if and only if it is not a write after the scan has taken the signal and passed, nor a read that fails, or falls short and survives, with no signal left |
| `ChatUpward.HeardIffNeverLoses` | chat server/server.c:96-373 | a run leaves no message without an announcement in any of its states if and only if it has no such step |
| `ChatUpward.OrderDecides` | chat server/server.c:96-99 | whether a slot is due after a run depends on the order of signals and scans alone |
| `ChatUpward.LateWriteByOrder` | chat server/clientprocess.c:90-95 | a child's write comes too late if and only if between its signal and its write the scan has gone past its slot and nobody has signalled since |
| `ChatLimits.UpwardWakeUpCanBeLost` | chat server/clientprocess.c:90-95 | kill before write: some run ends with an unread message and neither flag nor signal set at the idle parent |
| `ChatTheorems.SenderIdentity` | chat server/clientprocess.c:85-95 | while reads reach the ends of the pipes each slot, its pipe's parsed pid and the pid search agree, and the first line is whole if and only if pid, colon and line fit one read |
| `ChatTheorems.OwnedCount` | chat server/server.c:435-449 | exact ownership means one descriptor for the listener and two per entry, all different |
| `ChatTheorems.DescriptorsConserved` | chat server/server.c:379-468 | in every reachable state, for pipes of any size: the parent's descriptors are the listener's and two per entry, during the shutdown loop two per entry still to be closed, afterwards none; entries and unreaped children correspond one to one |
| `ChatTheorems.PlanIsServed` | chat server/server.c:344-360 | whatever the children do meanwhile, the writes attempted for one record are the first of the planned ones, in order, also if SIGPIPE ends the process, and all of them when the scan moves on |
| `ChatTheorems.ChatTargets` | chat server/server.c:344-349 | the plan of a chat line reaches every client of the room once and nobody else |
| `ChatTheorems.RoomIsolation` | chat server/server.c:333-360 | while reads reach the ends of the pipes, from any reachable state the writes made for a chat line are the first of a list that has "name: text" once for each client of the sender's room and nothing else; all of it when the scan moves on |
| `ChatTheorems.OnlyWritesFillPipes` | chat server/server.c:349 | a pipe to a child grows only by a logged successful write to that child, and shrinks only by its read |
| `ChatTheorems.NameIsPermanent` | chat server/server.c:261-265 | over every run a name, once set, stays until the child is reaped |
| `ChatSimulation.StepSimulates` | chat server/server.c:70-457 | from a state reached while reads reach the ends of the pipes, every step of the concrete system is one move (come, go, ask, nothing) of the abstract state |
| `ChatSimulation.RunSimulates` | chat server/server.c:70-457 | after every run in which reads reach the ends of the pipes the tables refine the abstract state replayed from who came, asked and was reaped |
| `ChatSimulation.MovesDecideTables` | chat server/server.c:70-457 | two such runs with the same moves end with the same rooms and the same name and room for each pid, however they interleave |
| `ChatLedger.WritesWhatWasSaid` | chat server/clientprocess.c:75-101 | over a run a child writes exactly the texts its client has said, read off the events, each once and in order |
| `ChatLedger.DownLedger` | chat server/clientprocess.c:41 | for pipes of any size: what waited for a child and what the parent has since got into its pipe are, byte by byte, what the child has taken out and what still waits |
| `ChatLedger.LedgerFrom` | chat server/server.c:103-115 | over every part of a run in which reads reach the ends of the pipes, the parent runs on and the client is not reaped: the texts a client got into its pipe are, in order, those the parent's reads took out and those still waiting, and the lines handled are those of the oldest text of each read |
| `ChatLedger.HandledAllIff` | chat server/server.c:103-115 | over such a part of a run the lines handled are those of all texts read of the client if and only if no read finds more than one of them |
| `ChatLedger.OneAtATimeByOrder` | chat server/clientprocess.c:90-95 | every read finds at most one text of the client, and at most one is left, if and only if its child never writes while an earlier text is unread |
| `ChatLimits.SecondTextCanBeLost` | chat server/server.c:103-115 | a reachable state has two texts of one client waiting; the read asks for the older and leaves nothing of the other |
| `ChatReaping.ExitsAreReaped` | chat server/server.c:72-75 | with the flag set at the top of the loop, every exited child is reaped at some moment before a connection is accepted or a pipe read |
| `ChatReaping.StepNotices` | chat server/server.c:72-75 | a step keeps "an exited, unreaped child has its signal pending or the flag set" if and only if it does not clear the flag over one whose signal has been taken |
| `ChatReaping.NoticedIffNeverForgets` | chat server/server.c:72-75 | a run keeps this in all its states if and only if it has no such step |
| `ChatReaping.ExitCanBeForgotten` | chat server/server.c:72-75 | some run ends with an exited child unreaped and neither flag nor signal |
| `Framing.IntIsLittleEndian` | 0711/v4l2_client.c:161 | the first byte of an int in memory counts ones, the last 16777216s |
| `Framing.IntRoundTrip` | 0711/v4l2_client.c:161 | four bytes of memory give back the int |
| `Framing.IntBytesOf` | 0711/v4l2_tcp_server.c:235 | and the other way round, for non-negative ints |
| `Framing.PrefixAnnounces` | 0711/v4l2_tcp_server.c:235-242 | any prefix of a frame with a complete header announces the frame's length |
| `Framing.NeedBounds` | 0711/v4l2_tcp_server.c:222-248 | receptions that read no more than they need never pass the end of the frame, and stop exactly there |
| `Framing.CompleteIsEncoded` | 0711/v4l2_tcp_server.c:222-248 | a reception is complete exactly when its bytes are the encoding of a frame, and then of that frame alone |
| `Framing.ParseOfEncoded` | 0711/v4l2_tcp_server.c:222-248 | frames sent one after the other, the last perhaps cut short, parse back to exactly that list |
| `Framing.WireFormat` | 0711/v4l2_client.c:153-167 | on the wire: the type byte, the size in four bytes, the body |
| `Framing.EncodingIsInjective` | 0711/v4l2_client.c:153-167 | no byte stream encodes two different frame lists |
| `Sockets.SendAll` | 0711/v4l2_tcp_server.c:55-76 | under every fragmentation and retry pattern: success means exactly the bytes, in order; failure means a proper prefix, and that the last call failed and none before it |
| `Sockets.RecvAll` | 0711/v4l2_tcp_server.c:32-52 | success consumes exactly len bytes into the buffer; failure a proper prefix, and only when a call has failed or the peer has closed; the loop ends |
| `Sockets.Transfer` | 0711/v4l2_client.c:28-71 | sending all and then receiving as much is the identity |
| `Sockets.Interleave` | 0711/v4l2_client.c:32-68 | however the iterations of the sending and the receiving loop interleave, the receiver has the first of the sender's bytes, and exactly those bytes once it has as many |
| `Sockets.ReceiveFrame` | 0711/v4l2_tcp_server.c:222-248 | a frame is handed on only when the bytes taken are its encoding; never more is taken than announced; it is lost only for a failed call or a size that cannot be allocated, and then is no frame with a body |
| `StreamClient.SendFrame` | 0711/v4l2_client.c:153-170 | the three sends put the encoding on the wire, or a proper prefix of it |
| `StreamClient.AwaitAnswer` | 0711/v4l2_client.c:174-215 | a frame is confirmed exactly when four bytes holding 1 were taken; fewer only when `select` or `recv` has failed |
| `StreamClient.Client` | 0711/audio_client.c:84-144 | after any number of frames and any failure the wire parses back to the frames that went out whole, all but perhaps the last were confirmed, and the client has stopped early only for a failed transfer or an answer other than 1 |
| `StreamSystem.CompleteIsSent` | 0711/v4l2_tcp_server.c:222-248 | a reception is complete only when the client has sent that very frame whole |
| `StreamSystem.StepKeepsInv` | 0711/v4l2_tcp_server.c:189-299 | every step of clients, channels and server keeps the invariant of every connection |
| `StreamSystem.ProcessedIsPrefixOfSent` | 0711/v4l2_tcp_server.c:222-270 | on every connection of every run the processed frames are a prefix of those that client sent whole; connections never mix, though descriptors are reused |
| `StreamSystem.DisplayedImagesAreWhole` | 0711/v4l2_tcp_server.c:253-270 | whatever is processed is the frame just sent whole, and a displayed one has at least the bytes `display_frame` reads |
| `StreamSystem.StopAndWait` | 0711/v4l2_client.c:145-216 | confirmed <= acknowledged <= processed <= sent <= confirmed + 1; confirmed frames were received as sent; at most one frame upward and four bytes downward are in flight |
| `StreamSystem.ProcessAnswers` | 0711/v4l2_tcp_server.c:251-279 | a processed frame is answered 1 if it is video, or audio whose playback succeeded, and 0 otherwise |
| `StreamSystem.AnswersAreEarned` | 0711/v4l2_tcp_server.c:251-279 | in every reachable state a frame is accepted if and only if it was displayed or really played, every confirmed one was, and the bytes under way for the other hold exactly that answer |
| `StreamSystem.AnswerDecides` | 0711/v4l2_client.c:208-215 | a client that has read its whole answer confirms the frame and goes on if it was displayed or really played, and stops if not |
| `SelectLoop.Server.Round` | 0711/v4l2_tcp_server.c:197-299 | the calls made in a round are, one after the other, those that serve each ready descriptor exactly once, in ascending order, and no other; no connection is read in the round that accepted it, though the sets and `fdmax` change under the loop |
| `SelectLoop.Server.Forget` | 0711/v4l2_tcp_server.c:283-296 | after cleanup `fdmax` is again the maximum of `master_set`; the downward search ends at the listener at the latest |
| `SelectLoop.Server.AcceptClient` | 0711/v4l2_tcp_server.c:199-212 | a new connection keeps `fdmax` the maximum and the open sockets those of `master_set` |
| `SelectLoop.Server.ServeClient` | 0711/v4l2_tcp_server.c:222-296 | type, size, allocation, body, processing and answer are done in this order up to the first that fails; the client is kept if and only if all succeed; on every path the body buffer is freed exactly once and the socket closed unless kept |
| `SelectLoop.Server.Run` | 0711/v4l2_tcp_server.c:189-310 | after any rounds and the shutdown every accepted socket was closed exactly once and no buffer is left |
| `Framebuffer.ChannelsAreSeparate` | 0710/fbdraw.c:13-15 | each channel of the packed pixel is read back from its own bits |
| `Framebuffer.IndexReadsBack` | 0710/fbdraw.c:90 | `x + y * xres` stays on the screen and determines x and y |
| `Framebuffer.PixelOfIndex` | 0710/fbdraw.c:109 | every index is that of one pixel |
| `Framebuffer.WritePixel` | 0710/fbdraw.c:27-28 | seek and two-byte write put the low byte first and replace one word of the mapping |
| `Framebuffer.DrawPoint` | 0710/fbdraw.c:17-29 | paints the point if it is on the screen, otherwise nothing |
| `Framebuffer.DrawFace` | 0710/fbdraw.c:83-95 | colours exactly the indices `x + y * xres` of the rectangle's points that lie in the device, edges crossed or not, ends of 0 meaning the screen's edge |
| `Framebuffer.DrawFaceMmap` | 0710/fbdraw.c:97-115 | for rectangles inside the mapping, the row-major fill yields the same image |
| `Framebuffer.FillsItsRectangleIff` | 0710/fbdraw.c:90 | a fill inside the device changes exactly its rectangle's pixels if and only if no column lies beyond an edge |
| `Framebuffer.FilledAt` | 0710/fbdraw.c:83-115 | between the edges: the colour inside the rectangle, the old pixel outside |
| `Framebuffer.FilledToTheEdges` | 0710/fbdraw.c:85-86 | with ends 0, every pixel from the start point to the right and lower edges |
| `Framebuffer.FilledToTheEnds` | 0710/fbdraw.c:88-89 | with other ends, the pixels before these |
| `Circle.DrawCircle` | 0710/fbdraw.c:59-81 | paints exactly the on-screen pixels of the eight mirrored octants, for every radius and centre |
| `Circle.StepTracks` | 0710/fbdraw.c:73-79 | the error's closed form and the distance bound are kept by both branches |
| `Circle.OctantIsArc` | 0710/fbdraw.c:60-80 | one octant point per row, neighbours in consecutive rows, ending at the diagonal |
| `Circle.PixelsAreClose` | 0710/fbdraw.c:59-81 | every pixel lies strictly within half a pixel of the circle; radius 0 gives the centre, negative radii nothing |
| `Circle.OctantIsExact` | 0710/fbdraw.c:60-80 | in each row the loop plots the least column outside square radius r * r - r, down to the diagonal |
| `Circle.CircleIsExactly` | 0710/fbdraw.c:59-81 | the pixel set in closed form, both directions |
| `Circle.WalkVisitsCircle` | 0710/fbdraw.c:64-71 | the walk of eight joined octants visits exactly the circle's pixels |
| `Circle.CircleIsClosedCurve` | 0710/fbdraw.c:59-81 | the pixels form one closed walk of neighbouring steps |
| `Circle.CircleIsSymmetric` | 0710/fbdraw.c:64-71 | the pixel set is invariant under all eight reflections |
| `Bitmap.ReadBmp` | 0711/bmpHeader.c:41-138 | loads exactly the complete uncompressed 24-bit files whose data can be allocated, with the header's size and the bytes at the header's offset; each failure has exactly its reason |
| `Bitmap.ReadStored` | 0711/bmpHeader.c:41-138 | a stored bitmap that can be allocated is read back unchanged |
| `Bitmap.PaddedRowIsLeast` | 0711/bmpHeader.c:106-110 | the padded row is the least multiple of four that holds three bytes per pixel, and the scan-line size of section 2.2.2.9 of [MS-WMF] |
| `Bitmap.OffsetsInside` | 0711/bmpViewer.c:139-153 | every read of the viewer lies in the data `readBmp` allocated |
| `Bitmap.Convert` | 0711/bmpViewer.c:136-159 | fills exactly the image's visible points, each from the offset the viewer computes |
| `Bitmap.Show` | 0711/bmpViewer.c:136-165 | the screen becomes the conversion buffer, whole: the image over whatever the buffer held |
| `Bitmap.ConvertedAt` | 0711/bmpViewer.c:136-165 | the screen afterwards, pixel by pixel: the viewer's pixel where the image covers it, the buffer's first content elsewhere |
| `Bitmap.ShowsColours` | 0711/bmpViewer.c:139-156 | each covered screen pixel has its red from the third, its green from the second and its blue from the first byte at (h-1-y)*w*3 + x*3 |
| `Bitmap.ShowsStoredRows` | 0711/bmpViewer.c:139-156 | with unpadded rows each covered screen pixel is stored row h-1-y, column x |
| `Bitmap.UnpaddedIsRight` | 0711/bmpViewer.c:136-159 | for widths divisible by four, or one row, the flip is right everywhere |
| `Bitmap.FlipIsRightIff` | 0711/bmpViewer.c:139 | and for no other size is this so for all pixel data |
| `YuvWindow.PairPixels` | 0711/v4l2_tcp_server.c:85-88 | all reads are inside the frame; each pixel depends on its own luminance and its pair's chrominances |
| `YuvWindow.CentreIsCentred` | 0711/v4l2_tcp_server.c:80-81 | the margins on the two sides of the window differ by at most one pixel |
| `YuvWindow.PictureAt` | 0711/v4l2_tcp_server.c:101-102 | frame pixel (x, y) belongs at the centred position, which is on the screen |
| `YuvWindow.DisplayFrame` | 0711/v4l2_tcp_server.c:79-105 | the centred window shows the frame, each of its pixels is written exactly once, everything outside is unchanged |
| `YuvWindow.WindowAt` | 0711/v4l2_tcp_server.c:101-102 | the screen afterwards, pixel by pixel: the frame's inside the window, the old one outside |

## Left out

- Socket, bind, listen, daemon, syslog, ioctl, mmap, camera and PulseAudio calls: only their possible results appear.
- Liveness: no claim that a child's message is eventually read or that an exited child is eventually reaped.
- ChatTables.WhisperPosts: `!whisper` without a name reads uninitialised buffers in C; the model makes no write there.
- ChatTables.Argument: for a command without an argument C reads past the terminator; the stale text there is the parameter `beyond`.
- Partial pipe writes: a write larger than the free space of a pipe fails whole.
- ChatServer.Parent.Shutdown: the class has only the closing; waiting for the children is in `ChatSystem`, where SIGTERM is one of the ways a child dies at any time.
- ChatSystem.ReadCrashes: what C does after using slot -1 is undefined; the model takes it as the end of the process.
- Framebuffer.DrawFace: a rectangle that starts before the device is excluded; `lseek` fails there and the write lands where the last one ended.
- Framebuffer.DrawFaceMmap: a rectangle that leaves the mapping is excluded, and one with a negative row, whose unsigned row offset leaves it.
- The child's own descriptors and what it writes to its client's socket.
- Sockets.SendAll: how often the kernel asks for another try is bounded by the parameter `retries`; endless retrying is not modelled.
- SelectLoop.Server.ServeClient: the bytes of each transfer are in `Sockets` and `StreamSystem`; here only its outcome.
- Framing.IntBytes: sizes are non-negative ints, as every client sends; a negative size is received and refused for lack of memory.
- Circle.DrawCircle: coordinates are unbounded; C's 32-bit overflow for radii near 2^31 is not modelled.
- Bitmap.PaddedRow: C's 32-bit overflow of `width * 3` is not modelled.
- YuvWindow.DisplayFrame: the floating-point colour conversion is an arbitrary function of Y, U and V; odd widths and windows larger than the screen are excluded.
- `drawline` in `0710/fbdraw.c`: floating-point accumulation.
- The earlier or partial variants of the server (`ex.c`, `fork_server.c`, `clientmanager.c`, `signals.c`, `common.c`), `v4l2_capture.c`, `test_audio.c`, and the remaining exercises.
