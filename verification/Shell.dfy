/** The server as a system of interleaved steps. Each session runs its handlers one at a
    time; a handler takes a room's lock several times and posts its messages after letting
    go of it, so other sessions run in between. A posted message is at once the last of its
    recipient's strand, which runs in the order of the posts. A step that is not enabled changes nothing;
    every sequence of steps is therefore a run. */
module Shell {
  import opened Types
  import opened RoomSpec

  datatype Message =
    | EventMsg(room: RoomId, seqNo: Seq, payload: Payload)
    | SnapshotMsg(room: RoomId, lastSeq: Seq, state: Board)

  /** Where a session's current handler stands. `todo` holds the entries still to be posted. */
  datatype Pc =
    | Idle
    | Joined(room: RoomId, lastSeq: Seq, state: Board)               // joinRoom returned a snapshot
    | Left(room: RoomId, todo: seq<Entry>)                           // left; about to read memberCount
    | LeftEmpty(room: RoomId, todo: seq<Entry>)                      // memberCount was 0
    | LeftSnap(room: RoomId, todo: seq<Entry>, snap: PersistedSnapshot)
    | Ended(room: RoomId, todo: seq<Entry>, k: Seq)                  // StrokeEnd or Clear accepted as number k
    | EndedSnap(room: RoomId, todo: seq<Entry>, k: Seq, snap: PersistedSnapshot)
    | Sending(room: RoomId, todo: seq<Entry>)                        // dispatchOutgoing

  datatype Session = Session(currentRoom: Option<RoomId>, stopped: bool, stopping: bool, pc: Pc)

  const NEW_SESSION := Session(None, false, false, Idle)

  /** The fields below `pushed` record the past and influence nothing:
      `base` is each member's latest join snapshot, `seen` the later events of its room as they reached it (its own
      when they were accepted), `owed` the numbers of accepted StrokeEnds and Clears,
      `emptied` the rooms whose last member has left, `refilled` those joined again after that. */
  datatype Server = Server(
    rooms: map<RoomId, History>,
    nextRoomId: RoomId,
    sessions: map<ClientId, Session>,
    nextClientId: ClientId,
    registered: set<ClientId>,
    inboxes: map<ClientId, seq<Message>>,
    pushed: seq<PersistedSnapshot>,
    base: map<ClientId, Message>,
    seen: map<ClientId, seq<Payload>>,
    owed: set<(RoomId, Seq)>,
    emptied: set<RoomId>,
    refilled: set<RoomId>)
  {
    predicate IsIdle(c: ClientId) {
      c in sessions && sessions[c].pc.Idle?
    }

    /** The session's room gate lets a message for `r` through. */
    predicate GateOpen(c: ClientId, r: RoomId) {
      IsIdle(c) && sessions[c].currentRoom == Some(r)
    }

    function Inbox(m: ClientId): seq<Message> {
      if m in inboxes then inboxes[m] else []
    }

    function Seen(m: ClientId): seq<Payload> {
      if m in seen then seen[m] else []
    }

    /** The member's copy starts from a snapshot of room `r` numbered below `n`. */
    predicate Awaits(m: ClientId, r: RoomId, n: Seq) {
      m in base && base[m].SnapshotMsg? && base[m].room == r && base[m].lastSeq < n
    }

    /** What the core answers to a command for room `r`. */
    function CoreReply(r: RoomId, cmd: Command): Expected<seq<Entry>> {
      if r !in rooms then Err(RoomNotFound) else Execute(rooms[r].room, cmd).reply
    }
  }

  const START := Server(map[], 1, map[], 1, {}, map[], [], map[], map[], {}, {}, {})

  // ----- What a step does -----

  /** A step of session `c` replaces its session by `x`; it may run one command under a room's lock,
      post one message, push one snapshot to the sink and take `c` off the registry. */
  datatype Action =
    | Nothing
    | NewSession
    | NewRoom
    | Act(c: ClientId, x: Session, cmd: Option<(RoomId, Command)>, post: Option<(ClientId, Message)>,
          push: Option<PersistedSnapshot>, unregister: bool)

  function RunCommand(rooms: map<RoomId, History>, cmd: Option<(RoomId, Command)>): map<RoomId, History> {
    if cmd.Some? && cmd.value.0 in rooms
    then rooms[cmd.value.0 := Step(rooms[cmd.value.0], cmd.value.1)]
    else rooms
  }

  function JoinSnapshot(r: RoomId, h: History): Message {
    SnapshotMsg(r, h.room.LastSeq(), h.room.board)
  }

  predicate Saves(event: Event) {
    event.StrokeEnd? || event.Clear?
  }

  function BaseAfter(s: Server, c: ClientId, cmd: Option<(RoomId, Command)>): map<ClientId, Message> {
    match cmd
    case Some((r, Join(_))) => if r in s.rooms then s.base[c := JoinSnapshot(r, Step(s.rooms[r], cmd.value.1))] else s.base
    case Some((_, Leave(_))) => s.base - {c}
    case _ => s.base
  }

  /** A join starts anew; a client's own event counts as seen when accepted, another's when posted. */
  function SeenAfter(s: Server, c: ClientId, cmd: Option<(RoomId, Command)>, post: Option<(ClientId, Message)>): map<ClientId, seq<Payload>> {
    if cmd.Some? then
      (match cmd.value
       case (r, Join(_)) => if r in s.rooms then s.seen[c := []] else s.seen
       case (r, Apply(_, _, _)) =>
         if r in s.rooms && s.Awaits(c, r, s.rooms[r].room.nextSeq)
         then s.seen[c := s.Seen(c) + Payloads(Added(Execute(s.rooms[r].room, cmd.value.1)))]
         else s.seen
       case (_, Leave(_)) => s.seen)
    else if post.Some? && post.value.1.EventMsg? && s.Awaits(post.value.0, post.value.1.room, post.value.1.seqNo) then
      s.seen[post.value.0 := s.Seen(post.value.0) + [post.value.1.payload]]
    else s.seen
  }

  function OwedAfter(s: Server, cmd: Option<(RoomId, Command)>): set<(RoomId, Seq)> {
    match cmd
    case Some((r, Apply(_, event, _))) =>
      if r in s.rooms && Saves(event) then s.owed + {(r, s.rooms[r].room.nextSeq)} else s.owed
    case _ => s.owed
  }

  function EmptiedAfter(s: Server, cmd: Option<(RoomId, Command)>): set<RoomId> {
    match cmd
    case Some((r, Leave(_))) =>
      if r in s.rooms && Execute(s.rooms[r].room, cmd.value.1).room.members == {} then s.emptied + {r} else s.emptied
    case _ => s.emptied
  }

  function RefilledAfter(s: Server, cmd: Option<(RoomId, Command)>): set<RoomId> {
    match cmd
    case Some((r, Join(_))) => if r in s.emptied then s.refilled + {r} else s.refilled
    case _ => s.refilled
  }

  function Perform(s: Server, action: Action): Server {
    match action
    case Nothing => s
    case NewSession =>
      s.(sessions := s.sessions[s.nextClientId := NEW_SESSION],
         registered := s.registered + {s.nextClientId},
         nextClientId := s.nextClientId + 1)
    case NewRoom =>
      s.(rooms := s.rooms[s.nextRoomId := NEW_ROOM], nextRoomId := s.nextRoomId + 1)
    case Act(c, x, cmd, post, push, unregister) =>
      s.(rooms := RunCommand(s.rooms, cmd),
         sessions := s.sessions[c := x],
         registered := if unregister then s.registered - {c} else s.registered,
         inboxes := if post.Some? then s.inboxes[post.value.0 := s.Inbox(post.value.0) + [post.value.1]] else s.inboxes,
         pushed := if push.Some? then s.pushed + [push.value] else s.pushed,
         base := BaseAfter(s, c, cmd),
         seen := SeenAfter(s, c, cmd, post),
         owed := OwedAfter(s, cmd),
         emptied := EmptiedAfter(s, cmd),
         refilled := RefilledAfter(s, cmd))
  }

  // ----- The steps -----

  datatype Label =
    | Accept
    | Create(c: ClientId)
    | JoinRequest(c: ClientId, r: RoomId)
    | FinishJoin(c: ClientId)
    | LeaveRequest(c: ClientId, r: RoomId)
    | Stop(c: ClientId)
    | EventRequest(c: ClientId, r: RoomId, event: Event, now: TimePoint)
    | CheckEmpty(c: ClientId)
    | TakeSnapshot(c: ClientId)
    | Push(c: ClientId)
    | Post(c: ClientId, to: ClientId)
    | NextEntry(c: ClientId)
    | Finish(c: ClientId)

  function Move(c: ClientId, x: Session): Action {
    Act(c, x, None, None, None, false)
  }

  function Snap(r: RoomId, h: History): PersistedSnapshot {
    PersistedSnapshot(r, h.room.LastSeq(), h.room.board.strokes)
  }

  /** An unknown room and a second room are refused with an error reply. */
  function JoinAction(s: Server, c: ClientId, r: RoomId): Action {
    if !s.IsIdle(c) then Nothing
    else
      var x := s.sessions[c];
      if (x.currentRoom.Some? && x.currentRoom.value != r) || r !in s.rooms then Nothing
      else
        var h := Step(s.rooms[r], Join(c));
        Act(c, x.(pc := Joined(r, h.room.LastSeq(), h.room.board)), Some((r, Join(c))), None, None, false)
  }

  function FinishJoinAction(s: Server, c: ClientId): Action {
    if !(c in s.sessions && s.sessions[c].pc.Joined?) then Nothing
    else
      var pc := s.sessions[c].pc;
      Act(c, s.sessions[c].(currentRoom := Some(pc.room), pc := Idle), None,
          Some((c, SnapshotMsg(pc.room, pc.lastSeq, pc.state))), None, false)
  }

  function LeaveAction(s: Server, c: ClientId, r: RoomId): Action {
    if !s.GateOpen(c, r) then Nothing
    else
      var reply := s.CoreReply(r, Leave(c));
      if reply.Err? then Nothing
      else Act(c, s.sessions[c].(pc := Left(r, reply.value)), Some((r, Leave(c))), None, None, false)
  }

  /** `stopImpl`, up to the core's answer; with no room, or on an error, nothing is dispatched. */
  function StopAction(s: Server, c: ClientId): Action {
    if !s.IsIdle(c) || s.sessions[c].stopped then Nothing
    else
      var x := s.sessions[c].(stopped := true, stopping := true);
      if x.currentRoom.None? || s.CoreReply(x.currentRoom.value, Leave(c)).Err? then Move(c, x.(pc := Sending(0, [])))
      else
        var r := x.currentRoom.value;
        Act(c, x.(pc := Left(r, s.CoreReply(r, Leave(c)).value)), Some((r, Leave(c))), None, None, false)
  }

  function EventAction(s: Server, c: ClientId, r: RoomId, event: Event, now: TimePoint): Action {
    if !s.GateOpen(c, r) then Nothing
    else
      var cmd := Apply(c, event, now);
      var reply := s.CoreReply(r, cmd);
      if reply.Err? then Nothing
      else
        var pc := if Saves(event) then Ended(r, reply.value, s.rooms[r].room.nextSeq) else Sending(r, reply.value);
        Act(c, s.sessions[c].(pc := pc), Some((r, cmd)), None, None, false)
  }

  /** The core call has returned. A leave handler forgets its room before dispatching, `stopImpl` after. */
  function Dispatching(x: Session, r: RoomId, todo: seq<Entry>, leaving: bool): Session {
    x.(currentRoom := if leaving && !x.stopping then None else x.currentRoom, pc := Sending(r, todo))
  }

  function CheckEmptyAction(s: Server, c: ClientId): Action {
    if !(c in s.sessions && s.sessions[c].pc.Left? && s.sessions[c].pc.room in s.rooms) then Nothing
    else
      var x := s.sessions[c];
      if s.rooms[x.pc.room].room.members == {} then Move(c, x.(pc := LeftEmpty(x.pc.room, x.pc.todo)))
      else Move(c, Dispatching(x, x.pc.room, x.pc.todo, true))
  }

  function TakeSnapshotAction(s: Server, c: ClientId): Action {
    if !(c in s.sessions && (s.sessions[c].pc.LeftEmpty? || s.sessions[c].pc.Ended?) && s.sessions[c].pc.room in s.rooms) then Nothing
    else
      var x := s.sessions[c];
      var snap := Snap(x.pc.room, s.rooms[x.pc.room]);
      Move(c, x.(pc := if x.pc.LeftEmpty? then LeftSnap(x.pc.room, x.pc.todo, snap)
                       else EndedSnap(x.pc.room, x.pc.todo, x.pc.k, snap)))
  }

  function PushAction(s: Server, c: ClientId): Action {
    if !(c in s.sessions && (s.sessions[c].pc.LeftSnap? || s.sessions[c].pc.EndedSnap?)) then Nothing
    else
      var x := s.sessions[c];
      Act(c, Dispatching(x, x.pc.room, x.pc.todo, x.pc.LeftSnap?), None, None, Some(x.pc.snap), false)
  }

  /** Posts the head entry to one of its remaining recipients, if that one is still registered. */
  function PostAction(s: Server, c: ClientId, to: ClientId): Action {
    if !(c in s.sessions && s.sessions[c].pc.Sending? && s.sessions[c].pc.todo != [] && to in s.sessions[c].pc.todo[0].recipients)
    then Nothing
    else
      var x := s.sessions[c];
      var e := x.pc.todo[0];
      var rest := [e.(recipients := e.recipients - {to})] + x.pc.todo[1..];
      Act(c, x.(pc := Sending(x.pc.room, rest)), None,
          if to in s.registered then Some((to, EventMsg(x.pc.room, e.seqNo, e.payload))) else None, None, false)
  }

  function NextEntryAction(s: Server, c: ClientId): Action {
    if !(c in s.sessions && s.sessions[c].pc.Sending? && s.sessions[c].pc.todo != [] && s.sessions[c].pc.todo[0].recipients == {})
    then Nothing
    else Move(c, s.sessions[c].(pc := Sending(s.sessions[c].pc.room, s.sessions[c].pc.todo[1..])))
  }

  /** The handler ends; `stopImpl` also forgets the room and takes the session off the registry. */
  function FinishAction(s: Server, c: ClientId): Action {
    if !(c in s.sessions && s.sessions[c].pc.Sending? && s.sessions[c].pc.todo == []) then Nothing
    else if s.sessions[c].stopping then Act(c, Session(None, true, false, Idle), None, None, None, true)
    else Move(c, s.sessions[c].(pc := Idle))
  }

  function ActionOf(s: Server, l: Label): Action {
    match l
    case Accept => NewSession
    case Create(c) => if s.IsIdle(c) then NewRoom else Nothing
    case JoinRequest(c, r) => JoinAction(s, c, r)
    case FinishJoin(c) => FinishJoinAction(s, c)
    case LeaveRequest(c, r) => LeaveAction(s, c, r)
    case Stop(c) => StopAction(s, c)
    case EventRequest(c, r, event, now) => EventAction(s, c, r, event, now)
    case CheckEmpty(c) => CheckEmptyAction(s, c)
    case TakeSnapshot(c) => TakeSnapshotAction(s, c)
    case Push(c) => PushAction(s, c)
    case Post(c, to) => PostAction(s, c, to)
    case NextEntry(c) => NextEntryAction(s, c)
    case Finish(c) => FinishAction(s, c)
  }

  function Next(s: Server, l: Label): Server {
    Perform(s, ActionOf(s, l))
  }

  function After(s: Server, ls: seq<Label>): Server
    decreases |ls|
  {
    if ls == [] then s else After(Next(s, ls[0]), ls[1..])
  }

  lemma {:induction false} AfterConcat(s: Server, a: seq<Label>, b: seq<Label>)
    ensures After(s, a + b) == After(After(s, a), b)
    decreases |a|
  {
    if a == [] {
      assert a + b == b;
    } else {
      assert (a + b)[1..] == a[1..] + b;
      AfterConcat(Next(s, a[0]), a[1..], b);
    }
  }
}
