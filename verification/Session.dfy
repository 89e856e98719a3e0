/** The client session object: one request at a time, nobody else in between. The interleaved
    server is the subject of Shell. */
module Sessions {
  import opened Types
  import opened RoomSpec
  import opened RoomInvariant
  import opened Rooms
  import opened ServerCores
  import opened Wire

  datatype ServerMessage =
    | Pong
    | RoomCreated(room: RoomId)
    | Left(room: RoomId)
    | Failure(code: string)
    | SnapshotResponse(snapshot: SnapshotMessage)
    | EventNotice(event: EventMessage)

  function ErrorCodeToString(code: ErrorCode): string {
    match code
    case RoomNotFound => "room_not_found"
    case NotInRoom => "not_in_room"
    case ProtocolViolation => "protocol_violation"
    case InvalidParams => "invalid_params"
  }

  /** Different errors are told apart on the wire. */
  lemma ErrorCodesDistinct(a: ErrorCode, b: ErrorCode)
    requires ErrorCodeToString(a) == ErrorCodeToString(b)
    ensures a == b
  {
    assert |ErrorCodeToString(RoomNotFound)| == 14 && |ErrorCodeToString(NotInRoom)| == 11;
    assert |ErrorCodeToString(ProtocolViolation)| == 18;
    assert ErrorCodeToString(RoomNotFound)[0] == 'r' && ErrorCodeToString(InvalidParams)[0] == 'i';
  }

  /** What the sender of a drawing event is told when the room refuses it, and when that is. */
  lemma RefusalReads(room: RoomState, c: ClientId, event: Event, now: TimePoint)
    requires Inv(room)
    ensures
      var reply := Execute(room, Apply(c, event, now)).reply;
      var outOfTurn := if event.StrokeBegin? then c in room.activeStroke
                       else (event.StrokePoint? || event.StrokeEnd?) && c !in room.activeStroke;
      && (reply.Err? <==> c !in room.members || outOfTurn)
      && (reply.Err? ==> ErrorCodeToString(reply.error) == if c !in room.members then "not_in_room" else "protocol_violation")
  {
    if event.StrokePoint? || event.StrokeEnd? {
      assert c in room.activeStroke ==> room.activeStroke[c] in room.strokeIndex;
    }
  }

  type Boxes = map<ClientId, seq<ServerMessage>>

  function BoxOf(boxes: Boxes, c: ClientId): seq<ServerMessage> {
    if c in boxes then boxes[c] else []
  }

  function Put(boxes: Boxes, c: ClientId, msg: ServerMessage): Boxes {
    boxes[c := BoxOf(boxes, c) + [msg]]
  }

  /** Events handed to the registry one after another; only registered clients get theirs. */
  function Dispatched(boxes: Boxes, registered: set<ClientId>, events: seq<OutgoingEvent>): Boxes {
    if events == [] then boxes
    else
      var n := |events| - 1;
      var before := Dispatched(boxes, registered, events[..n]);
      if events[n].to in registered then Put(before, events[n].to, EventNotice(ToServerMessage(events[n]))) else before
  }

  /** What the registry's sessions have had posted to their strands, in order. */
  class Mailboxes {
    var registered: set<ClientId>
    var boxes: Boxes

    constructor ()
      ensures registered == {} && boxes == map[]
    {
      registered, boxes := {}, map[];
    }

    method Post(c: ClientId, msg: ServerMessage)
      modifies this`boxes
      ensures boxes == Put(old(boxes), c, msg)
    {
      boxes := Put(boxes, c, msg);
    }

    /** The registry's `deliver`: a client that is not registered gets nothing. */
    method Deliver(c: ClientId, msg: ServerMessage)
      modifies this`boxes
      ensures boxes == if c in registered then Put(old(boxes), c, msg) else old(boxes)
    {
      if c in registered {
        Post(c, msg);
      }
    }

    method Remove(c: ClientId)
      modifies this`registered
      ensures registered == old(registered) - {c}
    {
      registered := registered - {c};
    }
  }

  // ----- Every recipient gets every entry, once and in order -----

  function NoticesFor(entries: seq<Entry>, room: RoomId, m: ClientId): seq<ServerMessage> {
    if entries == [] then []
    else
      var e := entries[0];
      (if m in e.recipients then [EventNotice(ToServerMessage(OutgoingEvent(room, m, e.seqNo, e.payload)))] else [])
      + NoticesFor(entries[1..], room, m)
  }

  /** How many of the events are addressed to `m`. */
  predicate Addressed(out: seq<OutgoingEvent>, m: ClientId) {
    exists i :: 0 <= i < |out| && out[i].to == m
  }

  lemma {:induction false} DispatchedConcat(boxes: Boxes, registered: set<ClientId>, a: seq<OutgoingEvent>, b: seq<OutgoingEvent>)
    ensures Dispatched(boxes, registered, a + b) == Dispatched(Dispatched(boxes, registered, a), registered, b)
  {
    if b == [] {
      assert a + b == a;
    } else {
      var n := |b| - 1;
      assert (a + b)[..|a + b| - 1] == a + b[..n];
      DispatchedConcat(boxes, registered, a, b[..n]);
    }
  }

  lemma {:induction false} NobodyAddressed(boxes: Boxes, registered: set<ClientId>, out: seq<OutgoingEvent>, m: ClientId)
    requires !Addressed(out, m)
    ensures BoxOf(Dispatched(boxes, registered, out), m) == BoxOf(boxes, m)
  {
    if out != [] {
      var n := |out| - 1;
      assert out[n].to != m;
      assert forall i :: 0 <= i < n ==> out[..n][i] == out[i];
      NobodyAddressed(boxes, registered, out[..n], m);
    }
  }

  lemma {:induction false} FanOutReaches(boxes: Boxes, registered: set<ClientId>, out: seq<OutgoingEvent>, k: nat)
    requires k < |out| && out[k].to in registered
    requires forall i, j :: 0 <= i < j < |out| ==> out[i].to != out[j].to
    ensures BoxOf(Dispatched(boxes, registered, out), out[k].to) == BoxOf(boxes, out[k].to) + [EventNotice(ToServerMessage(out[k]))]
    decreases |out|
  {
    var n := |out| - 1;
    assert forall i :: 0 <= i < n ==> out[..n][i] == out[i];
    if k == n {
      NobodyAddressed(boxes, registered, out[..n], out[n].to);
    } else {
      FanOutReaches(boxes, registered, out[..n], k);
    }
  }

  /** Dispatching the fan-out of one entry gives each registered recipient its message, once, and nobody else anything. */
  lemma OneEntryDispatched(boxes: Boxes, registered: set<ClientId>, out: seq<OutgoingEvent>, room: RoomId, e: Entry, m: ClientId)
    requires FanOut(out, room, e)
    ensures BoxOf(Dispatched(boxes, registered, out), m) ==
            BoxOf(boxes, m) + if m in registered && m in e.recipients
                              then [EventNotice(ToServerMessage(OutgoingEvent(room, m, e.seqNo, e.payload)))] else []
  {
    if m in e.recipients {
      var k :| 0 <= k < |out| && out[k].to == m;
      if m in registered {
        FanOutReaches(boxes, registered, out, k);
      } else {
        Unregistered(boxes, registered, out, m);
      }
    } else {
      NobodyAddressed(boxes, registered, out, m);
    }
  }

  lemma {:induction false} Unregistered(boxes: Boxes, registered: set<ClientId>, out: seq<OutgoingEvent>, m: ClientId)
    requires m !in registered
    ensures BoxOf(Dispatched(boxes, registered, out), m) == BoxOf(boxes, m)
  {
    if out != [] {
      Unregistered(boxes, registered, out[..|out| - 1], m);
    }
  }

  lemma Twice<T>(x: seq<T>, y: seq<T>, z: seq<T>, a: seq<T>, b: seq<T>, ab: seq<T>)
    requires y == x + a && z == y + b && ab == a + b
    ensures z == x + ab
  {
  }

  function Notices(registered: set<ClientId>, entries: seq<Entry>, room: RoomId, m: ClientId): seq<ServerMessage> {
    if m in registered then NoticesFor(entries, room, m) else []
  }

  lemma HeadNotices(registered: set<ClientId>, entries: seq<Entry>, room: RoomId, m: ClientId, one: seq<ServerMessage>)
    requires entries != []
    requires one == if m in registered && m in entries[0].recipients
                    then [EventNotice(ToServerMessage(OutgoingEvent(room, m, entries[0].seqNo, entries[0].payload)))] else []
    ensures Notices(registered, entries, room, m) == one + Notices(registered, entries[1..], room, m)
  {
  }

  function NoticeOf(registered: set<ClientId>, e: Entry, room: RoomId, m: ClientId): seq<ServerMessage> {
    if m in registered && m in e.recipients
    then [EventNotice(ToServerMessage(OutgoingEvent(room, m, e.seqNo, e.payload)))] else []
  }

  lemma FirstThenRest(boxes: Boxes, registered: set<ClientId>, first: seq<OutgoingEvent>, rest: seq<OutgoingEvent>, room: RoomId,
                      e: Entry, tail: seq<ServerMessage>, m: ClientId)
    requires FanOut(first, room, e)
    requires
      var after := Dispatched(boxes, registered, first);
      BoxOf(Dispatched(after, registered, rest), m) == BoxOf(after, m) + tail
    ensures BoxOf(Dispatched(boxes, registered, first + rest), m) == BoxOf(boxes, m) + (NoticeOf(registered, e, room, m) + tail)
  {
    DispatchedConcat(boxes, registered, first, rest);
    OneEntryDispatched(boxes, registered, first, room, e, m);
    var after := Dispatched(boxes, registered, first);
    Twice(BoxOf(boxes, m), BoxOf(after, m), BoxOf(Dispatched(after, registered, rest), m), NoticeOf(registered, e, room, m), tail,
          NoticeOf(registered, e, room, m) + tail);
  }

  lemma FirstFanOut(out: seq<OutgoingEvent>, room: RoomId, entries: seq<Entry>) returns (k: nat)
    requires FanOuts(out, room, entries) && entries != []
    ensures k <= |out| && out == out[..k] + out[k..]
    ensures FanOut(out[..k], room, entries[0]) && FanOuts(out[k..], room, entries[1..])
  {
    k :| 0 <= k <= |out| && FanOut(out[..k], room, entries[0]) && FanOuts(out[k..], room, entries[1..]);
    Cut(out, k);
  }

  lemma Cut<T>(s: seq<T>, k: nat)
    requires k <= |s|
    ensures s == s[..k] + s[k..]
  {
  }

  /** The events addressed to `m` among these entries of a room. */
  function AddressedTo(entries: seq<Entry>, room: RoomId, m: ClientId): seq<OutgoingEvent> {
    if entries == [] then []
    else
      (if m in entries[0].recipients then [OutgoingEvent(room, m, entries[0].seqNo, entries[0].payload)] else [])
      + AddressedTo(entries[1..], room, m)
  }

  /** These messages are event messages, and what a client reads in them are those events, one by one. */
  ghost predicate ReadAs(notices: seq<ServerMessage>, events: seq<OutgoingEvent>) {
    && |notices| == |events|
    && forall i :: 0 <= i < |events| ==> notices[i].EventNotice? && FromServerMessage(notices[i].event, events[i].to) == Ok(events[i])
  }

  lemma {:induction false} NoticesReadAs(entries: seq<Entry>, room: RoomId, m: ClientId)
    ensures ReadAs(NoticesFor(entries, room, m), AddressedTo(entries, room, m))
  {
    if entries != [] {
      NoticesReadAs(entries[1..], room, m);
      MessageReadsBack(OutgoingEvent(room, m, entries[0].seqNo, entries[0].payload));
    }
  }

  /** Dispatching the answer to a command gives each registered client exactly the entries addressed to it, in order. */
  lemma {:induction false} EntriesDispatched(boxes: Boxes, registered: set<ClientId>, out: seq<OutgoingEvent>, room: RoomId,
                                             entries: seq<Entry>, m: ClientId)
    requires FanOuts(out, room, entries)
    ensures BoxOf(Dispatched(boxes, registered, out), m) == BoxOf(boxes, m) + Notices(registered, entries, room, m)
    decreases |entries|
  {
    if entries == [] {
      assert BoxOf(boxes, m) + [] == BoxOf(boxes, m);
    } else {
      var k := FirstFanOut(out, room, entries);
      EntriesDispatched(Dispatched(boxes, registered, out[..k]), registered, out[k..], room, entries[1..], m);
      FirstThenRest(boxes, registered, out[..k], out[k..], room, entries[0], Notices(registered, entries[1..], room, m), m);
      HeadNotices(registered, entries, room, m, NoticeOf(registered, entries[0], room, m));
    }
  }

  /** Dispatching the answer to a command appends to what each registered client has been posted the messages in which
      it reads the entries addressed to it: of that room, under their numbers, in order; others get nothing. */
  lemma EntriesReachClients(boxes: Boxes, registered: set<ClientId>, out: seq<OutgoingEvent>, room: RoomId,
                            entries: seq<Entry>, m: ClientId)
    requires FanOuts(out, room, entries)
    ensures
      var before, after := BoxOf(boxes, m), BoxOf(Dispatched(boxes, registered, out), m);
      before <= after && ReadAs(after[|before|..], if m in registered then AddressedTo(entries, room, m) else [])
  {
    EntriesDispatched(boxes, registered, out, room, entries, m);
    NoticesReadAs(entries, room, m);
    var before, after := BoxOf(boxes, m), BoxOf(Dispatched(boxes, registered, out), m);
    assert after[|before|..] == Notices(registered, entries, room, m);
  }

  /** Every registered client has been posted the entries addressed to it, in order, and nothing else. */
  ghost predicate Announced(boxes: Boxes, registered: set<ClientId>, room: RoomId, entries: seq<Entry>, boxes': Boxes) {
    forall m :: BoxOf(boxes', m) == BoxOf(boxes, m) + Notices(registered, entries, room, m)
  }

  /** The same, and then perhaps one more message for `c`. */
  ghost predicate Dismissed(boxes: Boxes, registered: set<ClientId>, room: RoomId, entries: seq<Entry>,
                            c: ClientId, goodbye: Option<ServerMessage>, boxes': Boxes)
  {
    match goodbye
    case None => Announced(boxes, registered, room, entries, boxes')
    case Some(msg) => exists sent :: Announced(boxes, registered, room, entries, sent) && boxes' == Put(sent, c, msg)
  }

  /** One message more for `c`: the only one that depicts this. */
  ghost predicate SnapshotSent(boxes: Boxes, c: ClientId, room: RoomId, lastSeq: Seq, board: Board, members: set<ClientId>, boxes': Boxes) {
    exists msg :: Depicts(msg, room, lastSeq, board, members) && boxes' == Put(boxes, c, SnapshotResponse(msg))
  }

  /** The snapshot shows the room as it is. */
  ghost predicate Depicted(snapshot: RoomSnapshot, r: RoomId, h: History) {
    && snapshot.room == r && snapshot.lastSeq == |h.log| && snapshot.state == h.room.board
    && Lists(snapshot.members, h.room.members)
  }

  // ----- The session -----

  /** What a call about one room can see of the core: the room, if there is one, and what the writer has been given. */
  datatype View = View(valid: bool, room: Option<History>, saving: bool, given: seq<PersistedSnapshot>) {
    predicate Has(c: ClientId) {
      room.Some? && c in room.value.room.members
    }

    predicate IsEmpty() {
      room.Some? && room.value.room.members == {}
    }
  }

  function Reply(v: View, cmd: Command): Expected<seq<Entry>> {
    if v.room.None? then Err(RoomNotFound) else Execute(v.room.value.room, cmd).reply
  }

  /** One command was run on room `r`, if there is one, and its board handed to the writer if `saves`. */
  ghost predicate Ran(v: View, v': View, r: RoomId, cmd: Command, saves: bool) {
    && v'.valid && v'.saving == v.saving
    && match v.room
       case None => v'.room.None? && v'.given == v.given
       case Some(h) =>
         && v'.room == Some(Step(h, cmd))
         && v'.given == v.given + if v.saving && saves
                                  then [PersistedSnapshot(r, |v'.room.value.log|, v'.room.value.room.board.strokes)] else []
  }

  /** What the room has added to its history in between. */
  function Logged(v: View, v': View): seq<Entry> {
    if v.room.Some? && v'.room.Some? && |v.room.value.log| <= |v'.room.value.log|
    then v'.room.value.log[|v.room.value.log|..] else []
  }

  /** The client was in the room and no longer is; an emptied room's board went to the writer. */
  ghost predicate Gone(v: View, v': View, r: RoomId, c: ClientId) {
    && Ran(v, v', r, Leave(c), v'.IsEmpty())
    && v.Has(c) && !v'.Has(c)
  }

  /** The leave was accepted: the entries it logged went to everybody they are for, then perhaps the leaver's confirmation. */
  ghost predicate TookLeave(v: View, v': View, r: RoomId, c: ClientId, boxes: Boxes, boxes': Boxes, registered: set<ClientId>,
                            goodbye: Option<ServerMessage>)
  {
    && Gone(v, v', r, c)
    && Dismissed(boxes, registered, r, Logged(v, v'), c, goodbye, boxes')
  }

  lemma LeaveTaken(v: View, v': View, r: RoomId, c: ClientId, boxes: Boxes, boxes': Boxes, registered: set<ClientId>,
                   entries: seq<Entry>, goodbye: Option<ServerMessage>)
    requires Gone(v, v', r, c) && entries == Logged(v, v') && Dismissed(boxes, registered, r, entries, c, goodbye, boxes')
    ensures TookLeave(v, v', r, c, boxes, boxes', registered, goodbye)
  {
  }

  /** The leave was refused: there is no such room, or the client is not in it. */
  ghost predicate RefusedLeave(v: View, v': View, r: RoomId, c: ClientId) {
    && Ran(v, v', r, Leave(c), false)
    && !v.Has(c) && !v'.Has(c)
  }

  function WhyNotLeft(v: View): ErrorCode {
    if v.room.Some? then NotInRoom else RoomNotFound
  }

  /** A room's session stopped: an accepted leave without confirmation, or nothing at all. */
  ghost predicate Departed(v: View, v': View, r: RoomId, c: ClientId, boxes: Boxes, boxes': Boxes, registered: set<ClientId>) {
    if v.Has(c) then TookLeave(v, v', r, c, boxes, boxes', registered, None)
    else RefusedLeave(v, v', r, c) && boxes' == boxes
  }

  /** The event was accepted; the board after a stroke end or a clear went to the writer. */
  ghost predicate Applied(v: View, v': View, r: RoomId, cmd: Command)
    requires cmd.Apply?
  {
    && Reply(v, cmd).Ok?
    && Ran(v, v', r, cmd, cmd.event.StrokeEnd? || cmd.event.Clear?)
  }

  /** The event was applied: the entry it logged, if any, went to everybody it is for. */
  ghost predicate TookEvent(v: View, v': View, r: RoomId, cmd: Command, boxes: Boxes, boxes': Boxes, registered: set<ClientId>)
    requires cmd.Apply?
  {
    && Applied(v, v', r, cmd)
    && Announced(boxes, registered, r, Logged(v, v'), boxes')
  }

  /** The event was refused, with the room's own error. */
  ghost predicate RefusedEvent(v: View, v': View, r: RoomId, cmd: Command, e: ErrorCode) {
    && Reply(v, cmd) == Err(e)
    && Ran(v, v', r, cmd, false)
  }

  ghost predicate ToldWhyNot(v: View, v': View, r: RoomId, cmd: Command, boxes: Boxes, boxes': Boxes)
    requires cmd.Apply?
  {
    exists e :: RefusedEvent(v, v', r, cmd, e) && boxes' == Put(boxes, cmd.client, Failure(ErrorCodeToString(e)))
  }

  lemma RanIs(v: View, v': View, r: RoomId, cmd: Command)
    requires v'.valid && v'.saving == v.saving && v'.given == v.given
    requires v'.room == match v.room case None => None case Some(h) => Some(Step(h, cmd))
    ensures Ran(v, v', r, cmd, false)
  {
    assert v.given + [] == v.given;
  }

  lemma StepLogs(h: History, cmd: Command)
    ensures Step(h, cmd).log[|h.log|..] == Added(Execute(h.room, cmd))
  {
  }

  class ClientSession {
    const clientId: ClientId
    const core: ServerCore
    const mail: Mailboxes
    var currentRoom: Option<RoomId>
    var stopped: bool

    constructor (clientId: ClientId, core: ServerCore, mail: Mailboxes)
      ensures this.clientId == clientId && this.core == core && this.mail == mail
      ensures currentRoom == None && !stopped
    {
      this.clientId, this.core, this.mail := clientId, core, mail;
      currentRoom, stopped := None, false;
    }

    ghost function CoreView(r: RoomId): View
      reads core.manager, if r in core.manager.rooms then {core.manager.rooms[r]} else {}, core.sink
    {
      View(core.ValidFor(r), if r in core.manager.rooms then Some(core.manager.rooms[r].Past()) else None,
           core.sink != null, core.Given())
    }

    method SendError(e: ErrorCode)
      modifies mail`boxes
      ensures mail.boxes == Put(old(mail.boxes), clientId, Failure(ErrorCodeToString(e)))
      ensures forall r :: CoreView(r) == old(CoreView(r))
    {
      mail.Post(clientId, Failure(ErrorCodeToString(e)));
    }

    method DispatchOutgoing(events: seq<OutgoingEvent>)
      modifies mail`boxes
      ensures mail.boxes == Dispatched(old(mail.boxes), mail.registered, events)
      ensures forall r :: CoreView(r) == old(CoreView(r))
    {
      for i := 0 to |events|
        invariant mail.boxes == Dispatched(old(mail.boxes), mail.registered, events[..i])
      {
        assert events[..i + 1][..i] == events[..i];
        mail.Deliver(events[i].to, EventNotice(ToServerMessage(events[i])));
      }
      assert events[..|events|] == events;
    }

    /** Dispatches the core's answer. */
    method Announce(events: seq<OutgoingEvent>, ghost r: RoomId, ghost entries: seq<Entry>)
      requires FanOuts(events, r, entries)
      modifies mail`boxes
      ensures Announced(old(mail.boxes), mail.registered, r, entries, mail.boxes)
      ensures forall r :: CoreView(r) == old(CoreView(r))
    {
      DispatchOutgoing(events);
      forall m
        ensures BoxOf(mail.boxes, m) == BoxOf(old(mail.boxes), m) + Notices(mail.registered, entries, r, m)
      {
        EntriesDispatched(old(mail.boxes), mail.registered, events, r, entries, m);
      }
    }

    /** Dispatches the core's answer, and then the client's own confirmation if it is to have one. */
    method Dismiss(events: seq<OutgoingEvent>, ghost r: RoomId, ghost entries: seq<Entry>, goodbye: Option<ServerMessage>)
      requires FanOuts(events, r, entries)
      modifies mail`boxes
      ensures Dismissed(old(mail.boxes), mail.registered, r, entries, clientId, goodbye, mail.boxes)
      ensures forall r :: CoreView(r) == old(CoreView(r))
    {
      Announce(events, r, entries);
      if goodbye.Some? {
        mail.Post(clientId, goodbye.value);
      }
    }

    method SendSnapshot(snapshot: RoomSnapshot, ghost members: set<ClientId>)
      requires Lists(snapshot.members, members)
      modifies mail`boxes
      ensures SnapshotSent(old(mail.boxes), clientId, snapshot.room, snapshot.lastSeq, snapshot.state, members, mail.boxes)
      ensures forall r :: CoreView(r) == old(CoreView(r))
    {
      assert (set m | m in snapshot.members) == members;
      var msg := ToSnapshotMessage(snapshot);
      mail.Post(clientId, SnapshotResponse(msg));
    }

    method SetRoom(room: Option<RoomId>)
      modifies this`currentRoom
      ensures currentRoom == room
      ensures forall r :: CoreView(r) == old(CoreView(r))
    {
      currentRoom := room;
    }

    // ----- Asking the core -----

    method AskToJoin(r: RoomId) returns (out: Expected<RoomSnapshot>)
      requires core.ValidFor(r)
      modifies if r in core.manager.rooms then {core.manager.rooms[r]} else {}
      ensures Ran(old(CoreView(r)), CoreView(r), r, Join(clientId), false)
      ensures out.Err? ==> CoreView(r).room.None? && out.error == RoomNotFound
      ensures out.Ok? ==> CoreView(r).room.Some? && Depicted(out.value, r, CoreView(r).room.value)
    {
      ghost var before := CoreView(r);
      out := core.JoinRoom(clientId, r);
      ghost var view := CoreView(r);
      assert view.valid && view.given == before.given;
      assert before.room.Some? ==> view.room == Some(Step(before.room.value, Join(clientId)));
      RanIs(before, view, r, Join(clientId));
    }

    /** The core lets a client leave exactly when it is in the room, and answers with the fan-out of what it logs. */
    method AskToLeave(r: RoomId) returns (out: Expected<seq<OutgoingEvent>>)
      requires core.ValidFor(r)
      modifies core.sink, if r in core.manager.rooms then {core.manager.rooms[r]} else {}
      ensures out.Ok? <==> old(CoreView(r)).Has(clientId)
      ensures out.Ok? ==> Gone(old(CoreView(r)), CoreView(r), r, clientId)
      ensures out.Err? ==> RefusedLeave(old(CoreView(r)), CoreView(r), r, clientId) && out.error == WhyNotLeft(CoreView(r))
      ensures out.Ok? ==> FanOuts(out.value, r, Logged(old(CoreView(r)), CoreView(r)))
    {
      ghost var before := CoreView(r);
      out := core.LeaveRoom(clientId, r);
      ghost var view := CoreView(r);
      if before.room.Some? {
        StepLogs(before.room.value, Leave(clientId));
        assert view.valid && view.room == Some(Step(before.room.value, Leave(clientId)));
      } else {
        RanIs(before, view, r, Leave(clientId));
      }
    }

    method AskToApply(r: RoomId, event: Event, now: TimePoint) returns (out: Expected<seq<OutgoingEvent>>)
      requires core.ValidFor(r)
      modifies core.sink, if r in core.manager.rooms then {core.manager.rooms[r]} else {}
      ensures out.Err? ==> RefusedEvent(old(CoreView(r)), CoreView(r), r, Apply(clientId, event, now), out.error)
      ensures out.Ok? ==>
                && Applied(old(CoreView(r)), CoreView(r), r, Apply(clientId, event, now))
                && FanOuts(out.value, r, Logged(old(CoreView(r)), CoreView(r)))
    {
      ghost var before := CoreView(r);
      out := core.HandleEvent(clientId, r, event, now);
      if before.room.Some? {
        StepLogs(before.room.value, Apply(clientId, event, now));
      }
    }

    // ----- The handlers -----

    /** A ping is answered in any state. */
    method HandlePing()
      modifies mail`boxes
      ensures mail.boxes == Put(old(mail.boxes), clientId, Pong)
    {
      mail.Post(clientId, Pong);
    }

    /** A new, empty room, of which its creator is told the id; it does not enter it. */
    method HandleCreateRoom()
      requires core.manager.Valid()
      modifies core.manager, mail`boxes
      ensures core.manager.Valid()
      ensures exists r: RoomId ::
                && r !in old(core.manager.rooms) && r in core.manager.rooms
                && core.manager.rooms - {r} == old(core.manager.rooms)
                && core.manager.rooms[r].Valid() && core.manager.rooms[r].Past() == NEW_ROOM
                && mail.boxes == Put(old(mail.boxes), clientId, RoomCreated(r))
    {
      var r := core.manager.CreateRoom();
      mail.Post(clientId, RoomCreated(r));
    }

    /** Another room than the session's is refused before the core is asked. */
    method HandleJoin(r: RoomId)
      requires core.ValidFor(r)
      modifies this`currentRoom, mail`boxes, if r in core.manager.rooms then {core.manager.rooms[r]} else {}
      ensures old(currentRoom) != None && old(currentRoom) != Some(r) ==>
                && currentRoom == old(currentRoom) && CoreView(r) == old(CoreView(r))
                && mail.boxes == Put(old(mail.boxes), clientId, Failure("invalid_params"))
      ensures (old(currentRoom) == None || old(currentRoom) == Some(r)) ==> Ran(old(CoreView(r)), CoreView(r), r, Join(clientId), false)
      ensures (old(currentRoom) == None || old(currentRoom) == Some(r)) && CoreView(r).room.None? ==>
                && currentRoom == old(currentRoom)
                && mail.boxes == Put(old(mail.boxes), clientId, Failure("room_not_found"))
      ensures (old(currentRoom) == None || old(currentRoom) == Some(r)) && CoreView(r).room.Some? ==>
                && currentRoom == Some(r) && CoreView(r).Has(clientId)
                && var h := CoreView(r).room.value;
                   SnapshotSent(old(mail.boxes), clientId, r, |h.log|, h.room.board, h.room.members, mail.boxes)
    {
      if currentRoom.Some? && currentRoom.value != r {
        SendError(InvalidParams);
        return;
      }
      ghost var boxes := mail.boxes;
      var result := AskToJoin(r);
      ghost var view := CoreView(r);
      assert mail.boxes == boxes;
      if result.Err? {
        SendError(result.error);
        assert CoreView(r) == view;
      } else {
        SetRoom(Some(r));
        SendSnapshot(result.value, view.room.value.room.members);
        assert CoreView(r) == view;
      }
    }

    /** Leaves room `r` in the core and, if the core agrees, dispatches what the room added to its history. */
    method LeaveAndAnnounce(r: RoomId, goodbye: Option<ServerMessage>) returns (result: Expected<()>)
      requires core.ValidFor(r)
      modifies mail`boxes, core.sink, if r in core.manager.rooms then {core.manager.rooms[r]} else {}
      ensures result.Ok? ==>
                TookLeave(old(CoreView(r)), CoreView(r), r, clientId, old(mail.boxes), mail.boxes, mail.registered, goodbye)
      ensures result.Ok? <==> old(CoreView(r)).Has(clientId)
      ensures result.Err? ==>
                && RefusedLeave(old(CoreView(r)), CoreView(r), r, clientId)
                && result.error == WhyNotLeft(CoreView(r)) && mail.boxes == old(mail.boxes)
    {
      ghost var before, boxes := CoreView(r), mail.boxes;
      var out := AskToLeave(r);
      ghost var view := CoreView(r);
      assert mail.boxes == boxes && mail.registered == old(mail.registered);
      if out.Err? {
        result := Err(out.error);
      } else {
        ghost var entries := Logged(before, view);
        Dismiss(out.value, r, entries, goodbye);
        assert CoreView(r) == view;
        LeaveTaken(before, view, r, clientId, boxes, mail.boxes, mail.registered, entries, goodbye);
        result := Ok(());
      }
    }

    /** The part of leaving that comes after the gate. */
    method LeaveOwnRoom(r: RoomId)
      requires core.ValidFor(r)
      modifies this`currentRoom, mail`boxes, core.sink, if r in core.manager.rooms then {core.manager.rooms[r]} else {}
      ensures old(CoreView(r)).Has(clientId) ==>
                && currentRoom == None
                && TookLeave(old(CoreView(r)), CoreView(r), r, clientId, old(mail.boxes), mail.boxes, mail.registered, Some(Left(r)))
      ensures !old(CoreView(r)).Has(clientId) ==>
                && currentRoom == old(currentRoom) && RefusedLeave(old(CoreView(r)), CoreView(r), r, clientId)
                && mail.boxes == Put(old(mail.boxes), clientId, Failure(ErrorCodeToString(WhyNotLeft(CoreView(r)))))
    {
      ghost var before, boxes := CoreView(r), mail.boxes;
      var result := LeaveAndAnnounce(r, Some(Left(r)));
      ghost var view := CoreView(r);
      if result.Err? {
        SendError(result.error);
        assert CoreView(r) == view;
      } else {
        SetRoom(None);
        assert CoreView(r) == view;
        assert TookLeave(before, view, r, clientId, boxes, mail.boxes, mail.registered, Some(Left(r)));
      }
    }

    /** Only the session's own room can be left; on success everybody hears of it, and the client is told. */
    method HandleLeave(r: RoomId)
      requires core.ValidFor(r)
      modifies this`currentRoom, mail`boxes, core.sink, if r in core.manager.rooms then {core.manager.rooms[r]} else {}
      ensures old(currentRoom) != Some(r) ==>
                && currentRoom == old(currentRoom) && CoreView(r) == old(CoreView(r))
                && mail.boxes == Put(old(mail.boxes), clientId, Failure("not_in_room"))
      ensures old(currentRoom) == Some(r) && old(CoreView(r)).Has(clientId) ==>
                && currentRoom == None
                && TookLeave(old(CoreView(r)), CoreView(r), r, clientId, old(mail.boxes), mail.boxes, mail.registered, Some(Left(r)))
      ensures old(currentRoom) == Some(r) && !old(CoreView(r)).Has(clientId) ==>
                && currentRoom == old(currentRoom) && RefusedLeave(old(CoreView(r)), CoreView(r), r, clientId)
                && mail.boxes == Put(old(mail.boxes), clientId, Failure(ErrorCodeToString(WhyNotLeft(CoreView(r)))))
    {
      if currentRoom != Some(r) {
        SendError(NotInRoom);
      } else {
        LeaveOwnRoom(r);
      }
    }

    /** The part of drawing that comes after the gate and the mapping. */
    method ApplyAndAnnounce(r: RoomId, event: Event, now: TimePoint)
      requires core.ValidFor(r)
      modifies mail`boxes, core.sink, if r in core.manager.rooms then {core.manager.rooms[r]} else {}
      ensures var cmd := Apply(clientId, event, now);
              || TookEvent(old(CoreView(r)), CoreView(r), r, cmd, old(mail.boxes), mail.boxes, mail.registered)
              || ToldWhyNot(old(CoreView(r)), CoreView(r), r, cmd, old(mail.boxes), mail.boxes)
    {
      ghost var before, boxes, cmd := CoreView(r), mail.boxes, Apply(clientId, event, now);
      var out := AskToApply(r, event, now);
      ghost var view := CoreView(r);
      assert mail.boxes == boxes;
      if out.Err? {
        SendError(out.error);
        assert CoreView(r) == view;
        assert ToldWhyNot(before, view, r, cmd, boxes, mail.boxes);
      } else {
        Announce(out.value, r, Logged(before, view));
        assert CoreView(r) == view;
        assert TookEvent(before, view, r, cmd, boxes, mail.boxes, mail.registered);
      }
    }

    /** A drawing request for the session's room. */
    method HandleEvent(r: RoomId, request: DrawRequest, now: TimePoint)
      requires core.ValidFor(r)
      modifies mail`boxes, core.sink, if r in core.manager.rooms then {core.manager.rooms[r]} else {}
      ensures currentRoom != Some(r) || ToCoreEvent(request).Err? ==>
                && CoreView(r) == old(CoreView(r))
                && mail.boxes == Put(old(mail.boxes), clientId, Failure(if currentRoom != Some(r) then "not_in_room" else "invalid_params"))
      ensures currentRoom == Some(r) && ToCoreEvent(request).Ok? ==>
                var cmd := Apply(clientId, ToCoreEvent(request).value, now);
                || TookEvent(old(CoreView(r)), CoreView(r), r, cmd, old(mail.boxes), mail.boxes, mail.registered)
                || ToldWhyNot(old(CoreView(r)), CoreView(r), r, cmd, old(mail.boxes), mail.boxes)
    {
      if currentRoom != Some(r) {
        SendError(NotInRoom);
        return;
      }
      var event := ToCoreEvent(request);
      if event.Err? {
        RequestsRoundTrip(request);
        SendError(event.error);
        return;
      }
      ApplyAndAnnounce(r, event.value, now);
    }

    /** The stopped flag is set along with the rest: nothing reads it before the handler is done. */
    method Close()
      modifies this, mail`registered
      ensures stopped && currentRoom == None && mail.registered == old(mail.registered) - {clientId}
      ensures forall r :: CoreView(r) == old(CoreView(r))
    {
      stopped, currentRoom := true, None;
      mail.Remove(clientId);
    }

    /** What there is to do for a session that is in a room. */
    method QuitRoom(r: RoomId)
      requires core.ValidFor(r)
      modifies this, mail, core.sink, if r in core.manager.rooms then {core.manager.rooms[r]} else {}
      ensures stopped && currentRoom == None && mail.registered == old(mail.registered) - {clientId}
      ensures Departed(old(CoreView(r)), CoreView(r), r, clientId, old(mail.boxes), mail.boxes, old(mail.registered))
    {
      ghost var view := Depart(r);
      Close();
      assert CoreView(r) == view;
    }

    /** Leaves the room without a confirmation. */
    method Depart(r: RoomId) returns (ghost view: View)
      requires core.ValidFor(r)
      modifies mail`boxes, core.sink, if r in core.manager.rooms then {core.manager.rooms[r]} else {}
      ensures view == CoreView(r)
      ensures Departed(old(CoreView(r)), view, r, clientId, old(mail.boxes), mail.boxes, mail.registered)
    {
      var _ := LeaveAndAnnounce(r, None);
      view := CoreView(r);
    }

    /** Stopping leaves the session's room, tells the others, and takes the session off the registry; once only. */
    method StopImpl()
      requires currentRoom.Some? ==> core.ValidFor(currentRoom.value)
      modifies this, mail, core.sink
      modifies if currentRoom.Some? && currentRoom.value in core.manager.rooms then {core.manager.rooms[currentRoom.value]} else {}
      ensures stopped
      ensures old(stopped) ==>
                && currentRoom == old(currentRoom) && mail.boxes == old(mail.boxes) && mail.registered == old(mail.registered)
                && forall r :: CoreView(r) == old(CoreView(r))
      ensures !old(stopped) ==> currentRoom == None && mail.registered == old(mail.registered) - {clientId}
      ensures !old(stopped) && old(currentRoom) == None ==>
                mail.boxes == old(mail.boxes) && forall r :: CoreView(r) == old(CoreView(r))
      ensures !old(stopped) && old(currentRoom).Some? ==>
                var r := old(currentRoom).value;
                Departed(old(CoreView(r)), CoreView(r), r, clientId, old(mail.boxes), mail.boxes, old(mail.registered))
    {
      if stopped {
        return;
      }
      if currentRoom.Some? {
        QuitRoom(currentRoom.value);
      } else {
        Close();
      }
    }
  }
}
