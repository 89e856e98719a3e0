/** When the interleaved server takes a request, and what it then does at once: from what the client's session and
    the room are at that moment. Everything else a handler does comes in later steps. */
module Requests {
  import opened Types
  import opened RoomSpec
  import opened Shell
  import opened Agreement
  import opened Finishing

  /** The session is between two handlers, so its strand takes the next line. */
  predicate Ready(s: Server, c: ClientId) {
    c in s.sessions && s.sessions[c].pc == Idle
  }

  predicate InRoom(s: Server, c: ClientId, r: RoomId) {
    Ready(s, c) && s.sessions[c].currentRoom == Some(r) && r in s.rooms
  }

  /** Room `r` has run the command, session `c` has become `x`, and nothing has been posted, pushed or registered yet. */
  ghost predicate Began(s: Server, s': Server, c: ClientId, x: Session, r: RoomId, cmd: Command) {
    && r in s.rooms && s'.rooms == s.rooms[r := Step(s.rooms[r], cmd)]
    && s'.sessions == s.sessions[c := x]
    && s'.registered == s.registered && s'.inboxes == s.inboxes && s'.pushed == s.pushed
    && s'.nextRoomId == s.nextRoomId && s'.nextClientId == s.nextClientId
  }

  lemma {:induction false} CommandBegins(s: Server, c: ClientId, x: Session, r: RoomId, cmd: Command)
    requires r in s.rooms
    ensures Began(s, Perform(s, Act(c, x, Some((r, cmd)), None, None, false)), c, x, r, cmd)
  {
  }

  /** A drawing event is taken exactly when the session is free and in that room and the room accepts the event. Then the
      room has taken it and the handler has the room's entries to post, after saving if it was a stroke end or a clear;
      in all other cases nothing changes. */
  lemma EventAnswered(s: Server, c: ClientId, r: RoomId, event: Event, now: TimePoint)
    ensures
      var s', cmd := Next(s, EventRequest(c, r, event, now)), Apply(c, event, now);
      if InRoom(s, c, r) && Execute(s.rooms[r].room, cmd).reply.Ok? then
        var entries := Execute(s.rooms[r].room, cmd).reply.value;
        var pc := if event.StrokeEnd? || event.Clear? then Ended(r, entries, s.rooms[r].room.nextSeq) else Sending(r, entries);
        Began(s, s', c, s.sessions[c].(pc := pc), r, cmd)
      else s' == s
  {
  }

  /** A join is taken exactly when the session is free, in no room or in that one already, and the room is known. Then the
      client is a member and the handler has the board to post, as it is at this moment. */
  lemma JoinAnswered(s: Server, c: ClientId, r: RoomId)
    ensures
      var s' := Next(s, JoinRequest(c, r));
      if Ready(s, c) && (s.sessions[c].currentRoom == None || s.sessions[c].currentRoom == Some(r)) && r in s.rooms then
        var h := Step(s.rooms[r], Join(c));
        && c in h.room.members
        && Began(s, s', c, s.sessions[c].(pc := Joined(r, h.room.LastSeq(), h.room.board)), r, Join(c))
      else s' == s
  {
    if JoinAction(s, c, r).Act? {
      JoinBegins(s, c, r);
    }
  }

  lemma {:induction false} JoinBegins(s: Server, c: ClientId, r: RoomId)
    requires JoinAction(s, c, r).Act?
    ensures
      var h := Step(s.rooms[r], Join(c));
      && c in h.room.members
      && Began(s, Next(s, JoinRequest(c, r)), c, s.sessions[c].(pc := Joined(r, h.room.LastSeq(), h.room.board)), r, Join(c))
  {
    var h := Step(s.rooms[r], Join(c));
    CommandBegins(s, c, s.sessions[c].(pc := Joined(r, h.room.LastSeq(), h.room.board)), r, Join(c));
  }

  /** In a server that can be reached, a leave is taken exactly when the session is free and in that room. */
  lemma LeaveAnswered(s: Server, c: ClientId, r: RoomId)
    requires ServerOk(s)
    ensures
      var s' := Next(s, LeaveRequest(c, r));
      if InRoom(s, c, r) then
        && Execute(s.rooms[r].room, Leave(c)).reply.Ok?
        && Began(s, s', c, s.sessions[c].(pc := Left(r, Execute(s.rooms[r].room, Leave(c)).reply.value)), r, Leave(c))
      else s' == s
  {
    if s.GateOpen(c, r) {
      InItsRoom(s, c, r);
      MemberPasses(s.rooms[r].room, c, Clear, 0);
      LeaveBegins(s, c, r);
    }
  }

  lemma {:induction false} LeaveBegins(s: Server, c: ClientId, r: RoomId)
    requires InRoom(s, c, r) && Execute(s.rooms[r].room, Leave(c)).reply.Ok?
    ensures Began(s, Next(s, LeaveRequest(c, r)), c,
                  s.sessions[c].(pc := Left(r, Execute(s.rooms[r].room, Leave(c)).reply.value)), r, Leave(c))
  {
    CommandBegins(s, c, s.sessions[c].(pc := Left(r, Execute(s.rooms[r].room, Leave(c)).reply.value)), r, Leave(c));
  }

  /** The first stop of a free session is a leave of the room it is in; without a room it only has the registry to leave. */
  lemma StopAnswered(s: Server, c: ClientId)
    requires ServerOk(s)
    ensures
      var s' := Next(s, Stop(c));
      if !Ready(s, c) || s.sessions[c].stopped then s' == s
      else
        var x := s.sessions[c].(stopped := true, stopping := true);
        match x.currentRoom
        case None => s' == s.(sessions := s.sessions[c := x.(pc := Sending(0, []))])
        case Some(r) =>
          && r in s.rooms && Execute(s.rooms[r].room, Leave(c)).reply.Ok?
          && Began(s, s', c, x.(pc := Left(r, Execute(s.rooms[r].room, Leave(c)).reply.value)), r, Leave(c))
  {
    if Ready(s, c) && !s.sessions[c].stopped {
      if s.sessions[c].currentRoom.Some? {
        var r := s.sessions[c].currentRoom.value;
        InItsRoom(s, c, r);
        MemberPasses(s.rooms[r].room, c, Clear, 0);
        StopBegins(s, c, r);
      } else {
        StopOutside(s, c);
      }
    }
  }

  lemma {:induction false} StopBegins(s: Server, c: ClientId, r: RoomId)
    requires InRoom(s, c, r) && !s.sessions[c].stopped && Execute(s.rooms[r].room, Leave(c)).reply.Ok?
    ensures
      var x := s.sessions[c].(stopped := true, stopping := true);
      Began(s, Next(s, Stop(c)), c, x.(pc := Left(r, Execute(s.rooms[r].room, Leave(c)).reply.value)), r, Leave(c))
  {
    var x := s.sessions[c].(stopped := true, stopping := true);
    CommandBegins(s, c, x.(pc := Left(r, Execute(s.rooms[r].room, Leave(c)).reply.value)), r, Leave(c));
  }

  lemma {:induction false} StopOutside(s: Server, c: ClientId)
    requires Ready(s, c) && !s.sessions[c].stopped && s.sessions[c].currentRoom == None
    ensures
      var x := s.sessions[c].(stopped := true, stopping := true);
      Next(s, Stop(c)) == s.(sessions := s.sessions[c := x.(pc := Sending(0, []))])
  {
  }

  /** A connection is always accepted: under an id that no session has had, registered, free and in no room. */
  lemma AcceptAnswered(s: Server)
    requires ServerOk(s)
    ensures
      var s' := Next(s, Accept);
      exists c: ClientId :: c !in s.sessions && c !in s.registered
        && s' == s.(sessions := s.sessions[c := Session(None, false, false, Idle)], registered := s.registered + {c},
                    nextClientId := s'.nextClientId)
        && c < s'.nextClientId
  {
    assert s.nextClientId !in s.sessions;
  }

  /** Any free session can create a room: empty, without history, under an id that no room has had. */
  lemma CreateAnswered(s: Server, c: ClientId)
    requires ServerOk(s)
    ensures
      var s' := Next(s, Create(c));
      if Ready(s, c) then
        exists r: RoomId :: r !in s.rooms && r < s'.nextRoomId
          && s' == s.(rooms := s.rooms[r := History(EMPTY_ROOM, [])], nextRoomId := s'.nextRoomId)
      else s' == s
  {
    assert s.nextRoomId !in s.rooms;
  }
}
