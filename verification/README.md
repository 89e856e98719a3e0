# ClearSpace, verified

ClearSpace is a shared whiteboard server: clients join rooms, draw strokes, move cursors and clear the
board; the server numbers accepted events per room, sends each to every other member, and saves the
strokes to a table from a background thread. This project models that server in Dafny and proves what a
participant and an operator rely on.

The model has five layers.

* **A room.** `RoomSpec` says what each command does to a room's value and which entries it adds to the
  room's history; `Room.dfy` is the class `Room` with its own fields, each method proved against
  `RoomSpec`. `RoomInvariant`, `Convergence`, `Independence`, `Lifecycle` and `Ledger` hold over every run of
  commands; `Ledger` reads the history alone.
* **A replica.** `Replica` replays events in number order onto an ordered board. `Reordering` and `Arrivals`
  treat a client that files strokes by id, receives events in any order that keeps each author's own, and
  sorts by `strokeOrder`.
* **The concurrent server.** `Shell` is a system of interleaved steps: one program counter per session, room
  commands atomic, snapshot taking, pushing to the sink and every single message post as separate steps. A
  post appends to the recipient's own queue at once. A step that is not enabled changes nothing, so every
  sequence of labels is a run. `Agreement`, `Saving`, `Durability` and `Delivery` hold over every run;
  `Races`, `Finishing` and `Overtaking` say exactly when the posts leave a member with the board. The objects
  around it (`ServerCore`, `Session`, `WritePump`) are classes whose methods are proved one call at a time;
  `Requests` says when `Shell` takes a request, and `Handlers` that a handler that runs uninterrupted then does
  what such a call promises.
* **Persistence.** `Codec` is the blob format as functions, `Layout` the same format byte by byte, `CodecIO` the
  encoder that appends to a buffer and the decoder that advances a cursor; `Store` is the snapshot table;
  `Writer` the background writer as a step system, `Retention` what it leaves in the table, and `SnapshotWriter`
  the object that takes those steps. `EndToEnd` joins all of it to the shell, and `Joint` is the system in which
  handlers and writer take turns.
* **The wire.** `Wire` maps boards and events to messages.

## Where the code and the documentation part

* The repository's README.md:47 says that the order of events is kept, and README.md:59 that the board is
  empty for everybody after a clear. Messages are posted after the room's lock is released, so of two commands
  the later can reach a third member's strand first. This matters exactly when one is a clear and the other
  begins a stroke: the stroke then comes back after the clear, or the new stroke is cleared with the old ones.
  `Overtaking.ClearCanBeOvertaken` is such a run: three members, one begins a stroke, another clears, all is
  posted, the board is empty and the third still shows the stroke. `Races.InStep` is the exact condition on a
  state of the server: `Finishing.FinishingShowsIff` proves that every way to finish the handlers shows a
  member the board if and only if the member is in step. A join starts in step, and a step of the server keeps
  a member in step if and only if it does not accept a clear while a begun stroke is still to be posted to
  that member, or a begun stroke while a clear is (`Overtaking.StepInStepIff`); so every run without such a
  race shows the board (`Overtaking.WithoutRacesShown`), clears included, and a member that fell out of step
  is mended by the next clear that no begun stroke races with (`Races.ClearMends`). `Reordering` and `Arrivals`
  are about a replica by itself, told its events in any order that keeps each author's own: these are more
  orders than the strands of the server produce, so their condition, `ClearsHarmless`, is the stricter one.
* A room's last snapshot need not hold its final board: a leaver that found the room empty can take its
  snapshot, somebody can join, draw and leave, and the outdated snapshot can be pushed last.
  `Durability.RefilledRoomCanLoseBoard` is such a run; `Durability.LastSnapshotFinalIff` says exactly when it
  cannot happen.
* Retention orders by timestamp only. `Store.SafeIff` and `Store.LatestIff` say exactly when the newest row is
  safe from its own sweep and is the one that is loaded. Two saves of a room with one timestamp reach both
  failures: `Store.TieLosesNewest` (one row kept, the sweep may keep the older) and `Store.TieLoadsEither`
  (both kept, a load may find either).

## Model

| member | source | states |
|---|---|---|
| RoomInvariant.ExecuteKeepsInv | core/src/room.cpp:50-208 | every command keeps: the id index is the exact inverse of the stroke list, a stroke is unfinished iff it is its author's active stroke, active clients are members, cursor and rate-limit domains coincide within the members, ids and orders increase below their counters |
| RoomInvariant.EditKeepsInv | core/src/room.cpp:154-160 | editing the active stroke in place keeps all of that, whether it stays open or is finished |
| RoomInvariant.BeginKeepsInv | core/src/room.cpp:128-143 | so does appending a begun stroke |
| RoomInvariant.ActiveStrokeIsKnown | core/src/room.cpp:154-158 | supporting: both "unknown stroke id" branches are unreachable |
| Convergence.StepReplays | core/src/room.cpp:68-208 | a replica holding the board and told the entries of one command holds the room's next board |
| Convergence.StepFansOut | core/src/room.cpp:38-48 | a command's entries carry consecutive numbers and its client's name and go to every other member |
| Convergence.StepKeepsHistory | core/src/room.cpp:50-208 | numbering, ownership of stroke ids and replayability of the whole history survive every command |
| Convergence.ReachableRoom | core/src/room.cpp:50-208 | in every reachable room the numbers handed out are exactly 1..lastSeq and replaying the history from nothing gives the board |
| Convergence.MemberHearsAll | core/src/room.cpp:38-48 | while a member stays, the entries it was not sent are exactly its own |
| Convergence.InOrderConvergence | core/src/room.cpp:50-99 | after any run, clears included, a member's join snapshot plus the events sent to it and its own, in number order, is the room's board |
| Convergence.FanOutAccounting | core/src/room.cpp:85-97 | the i-th command of a run adds the numbers following those before it, each entry going once to every other member of that moment; a refused or dropped command adds none |
| Convergence.RefusedChangesNothing | core/src/room.cpp:185-192 | supporting: a refused command and a cursor move that comes too soon change neither room nor history |
| Convergence.AcceptedIsLogged | core/src/room.cpp:101-121 | supporting: a command other than a join adds nothing to the history exactly when it is refused or dropped |
| Rooms.Room.constructor | core/src/room.cpp:5-6 | a new room is empty and numbers from 1 |
| Rooms.Room.Broadcast | core/src/room.cpp:38-48 | the loop over the members addresses the event once to each member but the author |
| Rooms.Room.Join | core/src/room.cpp:50-66 | the method is the join of the specification; the snapshot carries the last number, the board and each member once |
| Rooms.Room.Leave | core/src/room.cpp:68-99 | the method is the leave of the specification and answers with the fan-out of its entries, the open stroke's end first |
| Rooms.Room.Apply | core/src/room.cpp:101-121 | the method is the event of the specification and answers with the fan-out of its entry or with its error |
| Rooms.Room.ApplyStrokeBegin | core/src/room.cpp:123-146 | stroke begin updates list, index, active stroke and both counters as specified |
| Rooms.Room.ApplyStrokePoint | core/src/room.cpp:148-164 | a point is appended in place to the active stroke |
| Rooms.Room.ApplyStrokeEnd | core/src/room.cpp:166-183 | the active stroke is finished in place |
| Rooms.Room.ApplyCursorMove | core/src/room.cpp:185-199 | a cursor move is dropped when too soon and recorded otherwise |
| Rooms.Room.ApplyClear | core/src/room.cpp:201-208 | a clear empties strokes, index and active strokes and leaves the counters running |
| Rooms.Room.MakePersistedSnapshot | core/src/room.cpp:22-29 | the persisted snapshot carries the strokes under the length of the history |
| Rooms.Room.LastSeq | core/src/room.cpp:17-20 | the last number is the length of the history |
| Independence.CommandIsPenStep | core/src/room.cpp:123-183 | seen by one client the room is a pen: every command either is its step, with its answer, or leaves it alone |
| Independence.Independence | core/src/room.cpp:101-183 | two runs that look the same to a client's pen give it the same answers and strokes |
| Independence.OwnCommandsDecide | tests/concurrency_tests.cpp:62-121 | without clears, answers and stroke contents depend only on the client's own joins, leaves and stroke commands |
| Lifecycle.StrokeLife | core/src/room.cpp:123-183 | over a run an old id names the same stroke with the same author, style and order, points only appended, nothing changed once finished; ids are never reused; without clears every stroke keeps its place |
| Lifecycle.MovesAreThrottled | core/src/room.cpp:185-199 | during a stay the moves announced, times and points, are exactly the client's own moves that come at least 40,000,000 ns after the last one announced |
| Lifecycle.MoveAnswered | core/src/room.cpp:185-199 | a member's move within 40,000,000 ns of its last one is answered with success and no events and changes nothing; any other becomes its cursor and is told, point and all, to every other member |
| Lifecycle.MovesAreTold | core/src/room.cpp:195-198 | during a stay what the history says of a client's cursor are the points of its announced moves, in order |
| Lifecycle.CursorIsLastMove | core/src/room.cpp:195-198 | during a stay the board shows a client's cursor at the point of its last announced move |
| Lifecycle.CursorRate | core/include/clearspace/core/config.hpp:5 | any window of length T holds at most T / 40,000,000 ns + 1 announced moves of a client |
| Ledger.HistoryIsGrammatical | core/src/room.cpp:68-183 | in every run the history by itself is in order: entry i is numbered i, the n-th begun stroke has id n and its entry's number as order, only an author's open stroke gets points or an end, nobody begins a second or leaves with one open; the room's active strokes are those the history leaves open |
| Ledger.StrokesAreRecorded | core/src/room.cpp:123-146 | in every run every stroke on the board was begun by the entry whose number is its order, with that author, id, style and first point |
| Ledger.ComingsAndGoings | core/src/room.cpp:50-99 | in every run the history tells of a client's leaving exactly as often as the client came in, less once if it is still there |
| Reordering.HarmlessOrderIrrelevant | server/src/client_session.cpp:204-208 | a replica filing by id, told events in any order that keeps each author's own, ends the same for all such orders if clears are harmless |
| Reordering.HarmfulClearDiverges | core/src/room.cpp:201-208 | if they are not, some such order, whether or not the server can produce it, gives another replica |
| Reordering.OrderIrrelevantIff | core/src/room.cpp:201-208 | among all orders that keep each author's own, more than the server produces, the order is irrelevant to a replica exactly when clears are harmless |
| Reordering.NamesDecide | core/src/room.cpp:123-208 | for one such order, harmful clears or not, the replica is right as soon as it holds the right strokes by name |
| Arrivals.SortIsUnique | core/src/room.cpp:136 | at most one stroke list holds given strokes by id in increasing order |
| Arrivals.KeyedFollowsReplay | core/src/room.cpp:123-208 | filing by id follows the ordered replay event by event |
| Arrivals.ShowsIffKeyed | core/src/room.cpp:136 | sorting the filed strokes by strokeOrder shows a board exactly when the files agree with it |
| Arrivals.ReorderingConvergence | core/src/room.cpp:50-99 | a replica with the snapshot of a member that joined and stayed, told the later events in all orders that keep each author's own, shows the room's board for all of them exactly when clears are harmless |
| Arrivals.NoClearNoHarm | core/src/room.cpp:201-208 | supporting: histories without clears meet the condition on a replica |
| Agreement.NextIsLocal | server/src/client_session.cpp:97-150 | every handler step runs commands only as its own client, in the room the session is in or enters |
| Agreement.NextKeepsAgreement | server/src/client_session.cpp:97-194 | every step keeps sessions and rooms in agreement |
| Agreement.SessionCoreAgreement | server/src/client_session.cpp:97-150 | between handlers a client is a member of exactly the room its session holds |
| Agreement.PastTheGate | server/src/client_session.cpp:132-145 | past the room gate the core never answers RoomNotFound or NotInRoom, and every leave is accepted, the one in stopImpl included |
| Saving.SnapshotsAreLogPrefixes | core/src/server_core.cpp:20-59 | in every interleaving a pushed snapshot is the history replayed up to its number; equal numbers mean equal strokes |
| Saving.AcceptedEndsAreSaved | core/src/server_core.cpp:51-56 | whatever is owed a snapshot has been followed by a push at least as new, unless its handler is still saving |
| Saving.EndsAndClearsAreOwed | core/src/server_core.cpp:51-56 | in every interleaving every clear and every requested stroke end in a room's history is owed a snapshot |
| Saving.OwnHandlerSaves | core/src/server_core.cpp:51-56 | an accepted stroke end or clear, number k, is followed in its own handler by the push of a snapshot of that room numbered k or higher, whatever comes between |
| Durability.RunKeepsQuiet | core/src/server_core.cpp:31-35 | in a deserted room without outdated snapshots in hand, as long as nobody enters, the board is carried by the last push or a leaver is yet to push |
| Durability.LastSnapshotFinalIff | core/src/server_core.cpp:20-38 | with leavers still at work in a deserted room, every way to finish them leaves the final board pushed last exactly when none of them holds an outdated snapshot; and there is a way to finish them |
| Durability.LeaversFinish | core/src/server_core.cpp:20-38 | the leavers of a deserted room can all get done without anybody entering |
| Durability.QuiescentDurability | core/src/server_core.cpp:20-38 | once a room was emptied, nobody came back and its leave handlers are done, the last snapshot pushed for it carries its final strokes |
| Durability.StaleIsReachable | core/src/server_core.cpp:31-35 | an outdated snapshot in the hand of a leaver is reachable |
| Durability.RefilledRoomCanLoseBoard | core/src/server_core.cpp:31-35 | a run in which a refilled room ends with an outdated snapshot pushed last |
| Delivery.RunKeepsDelivery | server/src/client_session.cpp:38-47 | in every interleaving, for every registered member and every author, that author's events in the order they reached the member, followed by those still to be posted to it, are the author's events since the member's snapshot; and what is in its queue is what it has seen of the others |
| Delivery.DeliveredBoard | server/src/client_session.cpp:204-208 | once all is posted, the member's latest snapshot and its events, merged with its own in any way keeping each author's order, show the room's board if clears are harmless |
| Delivery.MembersHaveBase | server/src/client_session.cpp:111-117 | every member of a room has a join snapshot of that room |
| Races.ShownIffInStep | server/src/client_session.cpp:38-47 | with nothing left to be posted a member's copy shows the board, stroke by stroke, exactly when it is in step |
| Races.MoveKeepsInStep | server/src/client_session.cpp:204-208 | a step without a room command keeps a member in step, and unless a clear is on its way cannot bring it back either |
| Races.CommandInStepIff | core/src/room.cpp:201-208 | a command leaves a member in step exactly when it does not race: no clear accepted while a begun stroke is still to be posted to the member, no begun stroke while a clear is |
| Races.ClearMends | core/src/room.cpp:201-208 | whatever went wrong before, a clear brings a member in step exactly when no begun stroke is still to be posted to it |
| Races.JoinInStep | server/src/client_session.cpp:111-117 | a join puts its client in step |
| Finishing.FinishOne | server/src/client_session.cpp:204-208 | any handler can run to its end by itself, posting the member all it had for it, in order |
| Finishing.FinishingShowsIff | server/src/client_session.cpp:38-86 | from every reachable state: all ways in which the handlers can finish leave a member showing the board exactly when it is in step now, and there is such a way |
| Overtaking.StepInStepIff | server/src/client_session.cpp:72-86 | in every reachable state a step keeps a member in step exactly when it does not race for it |
| Overtaking.WithoutRacesShown | server/src/client_session.cpp:38-47 | in every run without a race for a member, clears included, its copy shows the board once nothing is left to be posted |
| Overtaking.RaceIsReachable | core/src/room.cpp:201-208 | a run that leaves the room cleared while a begun stroke is still to be posted |
| Overtaking.ClearCanBeOvertaken | core/src/room.cpp:201-208 | a run in which all is posted, the board is empty and a member still shows a stroke |
| Requests.EventAnswered | server/src/client_session.cpp:131-147 | an event is taken exactly when the session is free and in that room and the room accepts it; then the room has run it and the handler has its entries to post; else nothing changes |
| Requests.JoinAnswered | server/src/client_session.cpp:106-117 | a join is taken exactly when the session is free, in no room or in that one, and the room is known |
| Requests.LeaveAnswered | server/src/client_session.cpp:118-130 | in a reachable server a leave is taken exactly when the session is free and in that room |
| Requests.StopAnswered | server/src/client_session.cpp:177-194 | the first stop of a free session is a leave of its room, if it has one; later ones change nothing |
| Requests.AcceptAnswered | server/src/tcp_server.cpp:35-41 | a connection gets a registered session in no room, under an id no session has had |
| Requests.CreateAnswered | core/src/room_manager.cpp:8-13 | a free session always gets its new, empty room, under an id no room has had |
| Handlers.JoinAlone | server/src/client_session.cpp:106-117 | a join of a free session that is in no room or in that one: however its handler is run by itself it ends, and has the whole effect the session object promises on rooms, sessions, registry, queues and pushes, and no other |
| Handlers.LeaveAlone | server/src/client_session.cpp:118-130 | so has a leave of the session's room, a push being made exactly when the room is then empty |
| Handlers.EventAlone | server/src/client_session.cpp:131-147 | so has any event that the room accepts, a push being made exactly after a stroke end or clear |
| Handlers.StopAlone | server/src/client_session.cpp:177-194 | so has a first stop in a room, which is a leave after which the session is stopped and off the registry |
| Handlers.SameNotices | server/src/client_session.cpp:204-208 | what a handler of the step system posts to a member is, message by message, what the session object announces to it |
| Sessions.ErrorCodesDistinct | transport/src/mappers.cpp:79-91 | supporting: the four error codes have different names on the wire |
| Sessions.RefusalReads | transport/src/mappers.cpp:79-91 | a drawing event is refused exactly for a client not in the room, told not_in_room, or drawing out of turn, told protocol_violation |
| Sessions.OneEntryDispatched | server/src/client_session.cpp:204-208 | dispatching one fan-out posts its message once to each registered recipient and nothing to anybody else |
| Sessions.EntriesDispatched | server/src/client_session.cpp:204-208 | dispatching an answer posts to each registered client exactly the entries addressed to it, in order |
| Sessions.EntriesReachClients | server/src/client_session.cpp:204-208 | what a registered client reads in the messages it is posted are the entries addressed to it, of that room, under their numbers, in order |
| Sessions.ClientSession.DispatchOutgoing | server/src/client_session.cpp:204-208 | the loop hands the events to the registry in order |
| Sessions.ClientSession.HandlePing | server/src/client_session.cpp:101-102 | a ping is answered with a pong and changes nothing else |
| Sessions.ClientSession.HandleCreateRoom | server/src/client_session.cpp:103-105 | a new, empty room under a new id, and its creator is told the id |
| Sessions.ClientSession.HandleJoin | server/src/client_session.cpp:106-117 | a second room and an unknown room are refused with their error; otherwise the session is in the room and is posted the snapshot message of the room as it then is |
| Sessions.ClientSession.HandleLeave | server/src/client_session.cpp:118-130 | only the session's own room can be left; then everybody is posted what the room logged and the client its confirmation |
| Sessions.ClientSession.HandleEvent | server/src/client_session.cpp:131-147 | gate, mapping of the request and core refusal are answered with their error; otherwise exactly what the room logged is posted |
| Sessions.ClientSession.StopImpl | server/src/client_session.cpp:177-194 | the first stop leaves the room, posts what was logged and unregisters; later ones do nothing |
| WritePump.HappenKeepsInv | server/src/client_session.cpp:152-175 | every delivery, completion and stop keeps the pump's invariant |
| WritePump.PumpRuns | server/src/client_session.cpp:38-47 | at most one write is in flight, until a stop one is in flight exactly when the queue is not empty, lines reach the socket in posting order |
| WritePump.StoppedHandsNothing | server/src/client_session.cpp:152-155 | after a stop nothing more is handed to the socket |
| WritePump.RunsAsCounted | server/src/client_session.cpp:38-47 | in every run no delivered line is lost, and queue, write in flight and lines written are those of a pump that only counts lines |
| WritePump.OnlyOkIsDone | server/src/client_session.cpp:166-175 | a line counts as written exactly when its own write completes without failure |
| WritePump.FailedWriteStops | server/src/client_session.cpp:166-170 | after a failed write, whatever comes, the session is stopped and nothing more is handed over or counts as written |
| WritePump.SessionWriter.DeliverLine | server/src/client_session.cpp:38-47 | the posted handler is the pump's delivery |
| WritePump.SessionWriter.DoWrite | server/src/client_session.cpp:152-164 | a write starts with the front line unless the queue is empty or the session stopped |
| WritePump.SessionWriter.WriteCompleted | server/src/client_session.cpp:166-175 | the completion handler is the pump's completion, failed or not |
| ServerCores.RoomManager.CreateRoom | core/src/room_manager.cpp:8-13 | a new empty room under an id no room has had; the others stay |
| ServerCores.ServerCore.JoinRoom | core/src/server_core.cpp:12-18 | join of an existing room, RoomNotFound otherwise |
| ServerCores.ServerCore.LeaveRoom | core/src/server_core.cpp:20-38 | the leave, and the board handed to the writer exactly when the room is then empty |
| ServerCores.ServerCore.HandleEvent | core/src/server_core.cpp:40-59 | the event, and the board handed to the writer exactly after an accepted stroke end or clear |
| Codec.RoundTrip | persistence/src/sqlite_snapshot_store.cpp:56-110 | decoding an encoded stroke list gives it back bit for bit |
| Codec.RoundTripIff | persistence/src/sqlite_snapshot_store.cpp:60-69 | it does so exactly when the counts fit the 32 bits they are cast to |
| Codec.EncodeInjective | persistence/src/sqlite_snapshot_store.cpp:56-76 | different lists have different blobs |
| Codec.RawsInjective | persistence/src/sqlite_snapshot_store.cpp:63-68 | the casts lose nothing while the numbers fit 64 bits |
| Codec.BlobSize | persistence/src/sqlite_snapshot_store.cpp:56-76 | a blob is 8 bytes and, per stroke, 31 plus 8 per point |
| Codec.PrefixFree | persistence/src/sqlite_snapshot_store.cpp:44-54 | every strict prefix of an accepted blob is corrupted, every strict extension has trailing bytes |
| Codec.ExtensionRefused | persistence/src/sqlite_snapshot_store.cpp:108 | so is any extension of a blob with trailing bytes |
| Codec.Canonical | persistence/src/sqlite_snapshot_store.cpp:78-110 | re-encoding an accepted blob reproduces it except that each nonzero finished byte becomes 1 |
| Layout.EncoderWrites | persistence/src/sqlite_snapshot_store.cpp:56-76 | every blob written, byte by byte: 1, 0, 0, 0, the count, then per stroke id at 0, author at 8, colour at 16, thickness at 17, order at 18, finished (0 or 1) at 26, point count at 27, point j at 31 + 8j, all least significant byte first |
| Layout.SavedBlob | persistence/src/sqlite_snapshot_store.cpp:56-76 | the same for the server's own strokes: numbers cut to 64 bits, colours 0 to 3, thicknesses 0 to 2 |
| Layout.DecodesIff | persistence/src/sqlite_snapshot_store.cpp:78-110 | the decoder accepts bytes as certain strokes exactly when the bytes are those strokes laid out so, any nonzero finished byte counting as finished |
| Layout.DecoderAnswers | persistence/src/sqlite_snapshot_store.cpp:78-110 | its answer to every byte string: strokes, wrong version exactly for four first bytes other than 1, 0, 0, 0, trailing bytes exactly when a shorter front is a blob, corrupted otherwise |
| CodecIO.ByteBuffer.AppendLE | persistence/src/sqlite_snapshot_store.cpp:37-42 | appends the little-endian bytes of a number |
| CodecIO.Reader.ReadLE | persistence/src/sqlite_snapshot_store.cpp:44-54 | reads a number off the cursor, or fails when too few bytes are left |
| CodecIO.SerializeStrokes | persistence/src/sqlite_snapshot_store.cpp:56-76 | the appending encoder writes the blob of the format |
| CodecIO.DeserializeStrokes | persistence/src/sqlite_snapshot_store.cpp:78-110 | the cursor decoder accepts, rejects and answers as the format says |
| Store.SweepBounds | persistence/src/sqlite_snapshot_store.cpp:227-245 | with any timestamps a sweep leaves min(count, keep) rows of the room, drops none newer than one it keeps, touches no other room |
| Store.SweepKeepsLast | persistence/src/sqlite_snapshot_store.cpp:236-240 | with increasing timestamps it leaves the last rows |
| Store.SlidingWindow | persistence/src/snapshot_writer.cpp:48-50 | from an empty table, save-then-sweep with increasing timestamps per room leaves exactly each room's last min(n, keep) saves in order |
| Store.SafeIff | persistence/src/sqlite_snapshot_store.cpp:236-244 | no sweep can drop a row exactly when fewer than keep other rows of its room are as new |
| Store.LatestIff | persistence/src/sqlite_snapshot_store.cpp:203-212 | loading must give a row exactly when every other row of its room is strictly older |
| Store.TieLosesNewest | persistence/src/sqlite_snapshot_store.cpp:236-244 | two saves of a room with one timestamp and one row kept: the newer has a rival and the sweep may leave the older alone |
| Store.TieLoadsEither | persistence/src/sqlite_snapshot_store.cpp:203-212 | with both kept, a load may find either |
| Store.SqliteSnapshotStore.Save | persistence/src/sqlite_snapshot_store.cpp:143-156 | a row with a new id, the time and the encoded strokes is appended |
| Store.SaveReadsBack | persistence/src/sqlite_snapshot_store.cpp:143-225 | a loaded row gives back what was saved, under its id and room, with its time and number |
| Store.SqliteSnapshotStore.LoadLatest | persistence/src/sqlite_snapshot_store.cpp:203-225 | some newest row of the room, decoded; nothing for a room without rows |
| Store.SqliteSnapshotStore.SelectLatest | persistence/src/sqlite_snapshot_store.cpp:236-240 | a choice of the newest ids, ties broken anyhow |
| Store.SqliteSnapshotStore.PruneKeepLatest | persistence/src/sqlite_snapshot_store.cpp:227-245 | the table becomes one that a sweep may leave |
| Writer.DoKeepsQueue | persistence/src/snapshot_writer.cpp:23-57 | every step keeps: attempted, held and queued snapshots are the pushed ones in order, and pending counts announced, queued and in process |
| Writer.ReachableWriter | persistence/src/snapshot_writer.cpp:23-57 | in every interleaving attempts are a prefix of the pushes and every row is that of a successful save |
| Writer.FlushDrains | persistence/src/snapshot_writer.cpp:32-35 | when flush sees pending at zero, all that had been pushed when it was called has been attempted |
| Writer.ExitDrained | persistence/src/snapshot_writer.cpp:14-21 | the worker leaves only after a stop request and with everything pushed attempted |
| Writer.NewestIsLatest | persistence/src/snapshot_writer.cpp:48-53 | if a room's last save worked and is stamped later than its earlier ones, its row is there and the only one a load can find, sweeps failing or not |
| Retention.LastSavesStay | persistence/src/snapshot_writer.cpp:37-58 | in every interleaving, saves and sweeps failing or not, with increasing times the table holds of each room the last of its working saves, at least as many as are kept |
| Retention.RowsAreBounded | persistence/src/snapshot_writer.cpp:48-50 | with any times, if no sweep fails no room has more rows than are kept, but for one in the room about to be swept |
| Retention.RetentionIsExact | persistence/src/snapshot_writer.cpp:48-50 | with increasing times and working sweeps the table holds of each room exactly its last working saves, as many as are kept |
| SnapshotWriters.SnapshotWriter.Enqueue | persistence/src/snapshot_writer.cpp:23-30 | pending goes up, then the snapshot is on the queue |
| SnapshotWriters.SnapshotWriter.TakeTask | persistence/src/snapshot_writer.cpp:40-46 | the worker takes the front or, stopped with an empty queue, leaves |
| SnapshotWriters.SnapshotWriter.TryTask | persistence/src/snapshot_writer.cpp:48-53 | save then sweep; a failed save is not followed by a sweep; failures are swallowed |
| SnapshotWriters.SnapshotWriter.Run | persistence/src/snapshot_writer.cpp:37-58 | with any pushes and stop requests coming between its turns the loop ends only by a stop, or is left waiting when nothing more comes; either way everything pushed by then has been attempted, in order |
| EndToEnd.LastPushLoaded | persistence/src/snapshot_writer.cpp:37-58 | a drained writer's table answers a load with the last snapshot pushed for the room |
| EndToEnd.FinalBoardLoaded | core/src/server_core.cpp:20-59 | for a run of the handlers and one of a writer given their pushes: the room emptied and not refilled, the writer drained, the last save good and stamped latest, at least one row kept, counts within 32 bits: whatever row is loaded decodes to the room's final strokes |
| Joint.RunProjects | core/src/server_core.cpp:20-59 | every run of handlers and writer taking turns is a run of the handlers and a run of the writer given what they pushed |
| Joint.FinalBoardSurvives | core/src/server_core.cpp:20-59 | in that joint system, under the conditions of the previous result, whatever row is loaded decodes to the room's final strokes |
| Wire.FromCoreStroke | transport/src/mappers.cpp:26-39 | the loop fills the stroke's image, points in order |
| Wire.MessageReadsBack | transport/src/mappers.cpp:117-156 | an event message gives its event back whole: room, number, author and everything else |
| Wire.BytesReadBack | core/include/clearspace/core/drawing.hpp:12-13 | colours are the bytes 0 to 3 and thicknesses 0 to 2, and are read back as themselves |
| Wire.RequestsInvertEvents | transport/src/mappers.cpp:8-57 | a stroke-begin request is accepted exactly for the bytes the server itself sends, and means what they stood for; else InvalidParams |
| Wire.RequestsRoundTrip | transport/src/mappers.cpp:42-77 | a drawing request is taken exactly when it is the request for some event, and as that event; else InvalidParams |
| Wire.ToSnapshotMessage | transport/src/mappers.cpp:97-115 | strokes in order, members and cursors sorted, however sets and maps are walked |
| Wire.SnapshotMessageCanonical | transport/src/mappers.cpp:110-113 | there is only one such message |
| Wire.SnapshotReadsBack | transport/src/mappers.cpp:97-115 | a snapshot message gives everything back: room, number, every stroke, every cursor, the members |
| Wire.ShowOneCommutes | transport/src/mappers.cpp:117-156 | showing an event's message on a board's image gives the image of the board after the event |
| Wire.ShowCommutes | transport/src/mappers.cpp:97-156 | so for any list of events |
| Wire.ClientShowsBoard | transport/src/mappers.cpp:97-156 | a member working on messages alone ends with what a snapshot message of the present room would show |

## Left out

- JSON parsing and printing (transport/src/json_protocol.cpp): texts of messages are not modelled; what is posted are message values.
- Boost.Asio sockets, accept loop, executor and thread pool: kept are that handlers of one strand are serial and that a strand runs its posts in the order they were made.
- The SQLite engine, DDL, prepared statements, files and bound integer widths: the table is a sequence of rows; ties of the timestamp are left open. Reading by id and listing (persistence/src/sqlite_snapshot_store.cpp:158-201) are not modelled.
- Condition variables: `flush` and the worker's wait are modelled by what holds when they return, not by when they are woken; relaxed atomics are taken as sequentially consistent.
- Wrap-around of 64-bit counters in a room: counters are unbounded there; the cut to 64 bits is modelled where strokes are cast for the blob. Blobs of 2^31 bytes and more, big-endian hosts, memory limits and exceptions from allocation are not modelled.
- Float arithmetic: coordinates are opaque 32-bit patterns.
- Messages other than events and join snapshots in the interleaved server: pongs, confirmations and errors do not influence a replica; the session object has them.
- A line already read when a session stops can still be handled afterwards; the interleaved server allows it, so nothing is claimed about a stopped session being in no room for good.
- Expiry of weak references in the session registry: registration is a set of client ids.
- Member lists at the replica: a join is announced to nobody, so a replica cannot track them and none is claimed to.
- Sessions.ClientSession.HandleLeave: forgets its room after posting instead of before, inside the same handler, where nobody can see the difference; one call at a time, the interleaved handlers being `Shell`'s on values, tied to it by `Handlers`.
- Sessions.ClientSession.StopImpl: sets its stopped flag at the end of the handler instead of at its start; the flag is not read in between.
- ServerCores.ServerCore.LeaveRoom: one call taken by itself; what happens when other calls come between its parts is the subject of `Shell`, `Saving` and `Durability`.
- Delivery.DeliveredBoard: the member's own accepted events are taken from the history, since the server never echoes them.
- Races.InStep and the copy it speaks of take a member's own events in at the moment they are accepted; a client that shows its own strokes earlier, or only after an answer, is not part of the repository.
- A recipient that leaves the registry between the lookup and the post still gets the message on its strand; in `Shell` lookup and post are one step.
- The free texts beside the error codes, the program entry point, the clock and the time conversions: times are parameters.
