/** The room registry and the server core as objects, each call taken by itself. */
module ServerCores {
  import opened Types
  import opened RoomSpec
  import opened RoomInvariant
  import opened Convergence
  import opened Rooms
  import opened SnapshotWriters

  class RoomManager {
    var rooms: map<RoomId, Room>
    var nextRoomId: RoomId

    /** Every room is under its own id, below the counter. */
    ghost predicate Valid()
      reads this
    {
      forall r :: r in rooms ==> r < nextRoomId && rooms[r].id == r
    }

    constructor ()
      ensures Valid() && rooms == map[] && nextRoomId == 1
    {
      rooms, nextRoomId := map[], 1;
    }

    /** A new, empty room under an id that no room has had. */
    method CreateRoom() returns (id: RoomId)
      requires Valid()
      modifies this
      ensures Valid() && id !in old(rooms) && id == old(nextRoomId) < nextRoomId
      ensures id in rooms && fresh(rooms[id]) && rooms[id].Valid() && rooms[id].Past() == NEW_ROOM
      ensures rooms - {id} == old(rooms)
    {
      id := nextRoomId;
      nextRoomId := nextRoomId + 1;
      var room := new Room(id);
      rooms := rooms[id := room];
    }

    method GetRoom(r: RoomId) returns (room: Room?)
      ensures if r in rooms then room == rooms[r] else room == null
    {
      if r !in rooms {
        return null;
      }
      room := rooms[r];
    }
  }

  class ServerCore {
    const manager: RoomManager
    const sink: SnapshotWriter?

    /** Of the rooms only `r`: a call for one room neither needs the others nor touches them. */
    ghost predicate ValidFor(r: RoomId)
      reads manager, if r in manager.rooms then {manager.rooms[r]} else {}
    {
      && manager.Valid()
      && (r in manager.rooms ==> manager.rooms[r].Valid())
    }

    constructor (manager: RoomManager, sink: SnapshotWriter?)
      ensures this.manager == manager && this.sink == sink
    {
      this.manager, this.sink := manager, sink;
    }

    /** What the writer has been given. */
    ghost function Given(): seq<PersistedSnapshot>
      reads sink
    {
      if sink == null then [] else sink.pushed
    }

    method JoinRoom(client: ClientId, r: RoomId) returns (snap: Expected<RoomSnapshot>)
      requires ValidFor(r)
      modifies if r in manager.rooms then {manager.rooms[r]} else {}
      ensures ValidFor(r)
      ensures r !in manager.rooms ==> snap == Err(RoomNotFound)
      ensures r in manager.rooms ==>
                && manager.rooms[r].Past() == Step(old(manager.rooms[r].Past()), Join(client))
                && snap.Ok? && snap.value.room == r && snap.value.lastSeq == |manager.rooms[r].log|
                && snap.value.state == manager.rooms[r].State().board
                && Lists(snap.value.members, manager.rooms[r].members)
    {
      var room := manager.GetRoom(r);
      if room == null {
        return Err(RoomNotFound);
      }
      var snapshot := room.Join(client);
      snap := Ok(snapshot);
    }

    method SaveBoard(room: Room)
      requires room.Valid() && sink != null
      modifies sink
      ensures old(sink.Valid()) ==> sink.Valid()
      ensures Given() == old(Given()) + [Final(room)]
    {
      var s := room.MakePersistedSnapshot();
      sink.Enqueue(s);
    }

    method SaveIfEmpty(room: Room)
      requires room.Valid()
      modifies sink
      ensures sink != null && old(sink.Valid()) ==> sink.Valid()
      ensures Given() == old(Given()) + if sink != null && room.members == {} then [Final(room)] else []
    {
      if sink != null {
        var n := room.MemberCount();
        if n == 0 {
          SaveBoard(room);
        }
      }
    }

    method SaveAfter(room: Room, event: Event)
      requires room.Valid()
      modifies sink
      ensures sink != null && old(sink.Valid()) ==> sink.Valid()
      ensures Given() == old(Given()) + if sink != null && (event.StrokeEnd? || event.Clear?) then [Final(room)] else []
    {
      if sink != null {
        var shouldSave := event.StrokeEnd? || event.Clear?;
        if shouldSave {
          SaveBoard(room);
        }
      }
    }

    method LeaveIn(room: Room, client: ClientId) returns (out: Expected<seq<OutgoingEvent>>)
      requires room.Valid()
      modifies room, sink
      ensures room.Valid() && (sink != null && old(sink.Valid()) ==> sink.Valid())
      ensures room.Past() == Step(old(room.Past()), Leave(client))
      ensures Answers(out, room.id, Execute(old(room.State()), Leave(client)).reply)
      ensures Given() == old(Given()) + if sink != null && out.Ok? && room.members == {} then [Final(room)] else []
    {
      out := room.Leave(client);
      if out.Err? {
        return;
      }
      SaveIfEmpty(room);
    }

    method ApplyIn(room: Room, client: ClientId, event: Event, now: TimePoint) returns (out: Expected<seq<OutgoingEvent>>)
      requires room.Valid()
      modifies room, sink
      ensures room.Valid() && (sink != null && old(sink.Valid()) ==> sink.Valid())
      ensures room.Past() == Step(old(room.Past()), Apply(client, event, now))
      ensures Answers(out, room.id, Execute(old(room.State()), Apply(client, event, now)).reply)
      ensures Given() == old(Given()) + if sink != null && out.Ok? && (event.StrokeEnd? || event.Clear?) then [Final(room)] else []
    {
      out := room.Apply(client, event, now);
      if out.Err? {
        return;
      }
      SaveAfter(room, event);
    }

    /** The last member's leave hands the board to the writer. */
    method LeaveRoom(client: ClientId, r: RoomId) returns (out: Expected<seq<OutgoingEvent>>)
      requires ValidFor(r)
      modifies if r in manager.rooms then {manager.rooms[r]} else {}, sink
      ensures ValidFor(r) && (sink != null && old(sink.Valid()) ==> sink.Valid())
      ensures r !in manager.rooms ==> out == Err(RoomNotFound) && Given() == old(Given())
      ensures r in manager.rooms ==>
                && manager.rooms[r].Past() == Step(old(manager.rooms[r].Past()), Leave(client))
                && Answers(out, r, Execute(old(manager.rooms[r].State()), Leave(client)).reply)
                && Given() == old(Given()) + if sink != null && out.Ok? && manager.rooms[r].members == {}
                                             then [Final(manager.rooms[r])] else []
    {
      var room := manager.GetRoom(r);
      if room == null {
        return Err(RoomNotFound);
      }
      out := LeaveIn(room, client);
    }

    /** An accepted stroke end or clear hands the board to the writer. */
    method HandleEvent(client: ClientId, r: RoomId, event: Event, now: TimePoint) returns (out: Expected<seq<OutgoingEvent>>)
      requires ValidFor(r)
      modifies if r in manager.rooms then {manager.rooms[r]} else {}, sink
      ensures ValidFor(r) && (sink != null && old(sink.Valid()) ==> sink.Valid())
      ensures r !in manager.rooms ==> out == Err(RoomNotFound) && Given() == old(Given())
      ensures r in manager.rooms ==>
                && manager.rooms[r].Past() == Step(old(manager.rooms[r].Past()), Apply(client, event, now))
                && Answers(out, r, Execute(old(manager.rooms[r].State()), Apply(client, event, now)).reply)
                && Given() == old(Given()) + if sink != null && out.Ok? && (event.StrokeEnd? || event.Clear?)
                                             then [Final(manager.rooms[r])] else []
    {
      var room := manager.GetRoom(r);
      if room == null {
        return Err(RoomNotFound);
      }
      out := ApplyIn(room, client, event, now);
    }
  }

  /** The room's board as it stands, under its latest number. */
  ghost function Final(room: Room): PersistedSnapshot
    reads room
  {
    PersistedSnapshot(room.id, |room.log|, room.strokes)
  }
}
