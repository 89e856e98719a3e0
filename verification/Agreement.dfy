/** Sessions and rooms agree on who is where, in every interleaving. */
module Agreement {
  import opened Types
  import opened RoomSpec
  import opened RoomInvariant
  import opened Convergence
  import opened Shell

  /** The room whose member list holds the session's client, at any point of its handler. */
  function Inside(x: Session): Option<RoomId> {
    match x.pc
    case Joined(r, _, _) => Some(r)
    case Left(_, _) => None
    case LeftEmpty(_, _) => None
    case LeftSnap(_, _, _) => None
    case Sending(_, _) => if x.stopping then None else x.currentRoom
    case _ => x.currentRoom
  }

  predicate HasLeft(pc: Pc) {
    pc.Left? || pc.LeftEmpty? || pc.LeftSnap?
  }

  /** What a handler's position says of the session's own fields. */
  predicate Coherent(x: Session) {
    && (x.stopping ==> HasLeft(x.pc) || x.pc.Sending?)
    && (x.pc.Joined? ==> x.currentRoom == None || x.currentRoom == Some(x.pc.room))
    && (HasLeft(x.pc) || x.pc.Ended? || x.pc.EndedSnap? ==> x.currentRoom == Some(x.pc.room))
  }

  ghost predicate SessionOk(rooms: map<RoomId, History>, x: Session) {
    && Coherent(x)
    && (Inside(x).Some? ==> Inside(x).value in rooms)
    && (x.currentRoom.Some? ==> x.currentRoom.value in rooms)
  }

  /** Membership in the core is exactly what the session believes. */
  ghost predicate Agree(rooms: map<RoomId, History>, sessions: map<ClientId, Session>) {
    forall r, c :: r in rooms ==>
      (c in rooms[r].room.members <==> c in sessions && Inside(sessions[c]) == Some(r))
  }

  ghost predicate RoomsInv(s: Server) {
    forall r :: r in s.rooms ==> r < s.nextRoomId && HistoryInv(s.rooms[r])
  }

  ghost predicate SessionsInv(s: Server) {
    && (forall r :: r in s.rooms ==> r < s.nextRoomId)
    && (forall c :: c in s.sessions ==> c < s.nextClientId && SessionOk(s.rooms, s.sessions[c]))
    && s.registered <= s.sessions.Keys
    && Agree(s.rooms, s.sessions)
  }

  ghost predicate AgreementInv(s: Server) {
    RoomsInv(s) && SessionsInv(s)
  }

  /** Every room of the next state is a room of this one, one command later at most, or a new one. */
  lemma RoomOrigin(s: Server, a: Action, r: RoomId)
    requires r in Perform(s, a).rooms
    ensures
      var h' := Perform(s, a).rooms[r];
      || (r in s.rooms && (h' == s.rooms[r] || exists cmd :: h' == Step(s.rooms[r], cmd)))
      || (r == s.nextRoomId && s.nextRoomId < Perform(s, a).nextRoomId && h' == NEW_ROOM)
  {
  }

  lemma NextKeepsRooms(s: Server, a: Action)
    requires RoomsInv(s)
    ensures RoomsInv(Perform(s, a))
  {
    var s' := Perform(s, a);
    forall r | r in s'.rooms ensures r < s'.nextRoomId && HistoryInv(s'.rooms[r]) {
      RoomOrigin(s, a, r);
      var h' := s'.rooms[r];
      if r in s.rooms && h' == s.rooms[r] {
      } else if r in s.rooms && exists cmd :: h' == Step(s.rooms[r], cmd) {
        var cmd :| h' == Step(s.rooms[r], cmd);
        StepKeepsHistory(s.rooms[r], cmd);
      } else {
        ReachableRoom([]);
      }
    }
  }

  lemma MembersAfter(s: RoomState, cmd: Command)
    ensures
      var s' := Execute(s, cmd).room;
      && (cmd.Join? ==> s'.members == s.members + {cmd.client})
      && (cmd.Leave? ==> s'.members == s.members - {cmd.client})
      && (cmd.Apply? ==> s'.members == s.members)
  {
  }

  /** What every step of a session keeps between its old and its new self: a command is run by the session's own
      client, on the room it is in (or enters), and moves it accordingly; without one it stays where it is. */
  ghost predicate LocalStep(rooms: map<RoomId, History>, x: Session, a: Action)
    requires a.Act?
  {
    && SessionOk(rooms, a.x)
    && match a.cmd
       case None => Inside(a.x) == Inside(x)
       case Some((r, cmd)) =>
         && r in rooms && cmd.client == a.c
         && match cmd
            case Join(_) => Inside(a.x) == Some(r) && (Inside(x).None? || Inside(x) == Some(r))
            case Leave(_) => Inside(x) == Some(r) && Inside(a.x).None?
            case Apply(_, _, _) => Inside(x) == Some(r) && Inside(a.x) == Some(r)
  }

  lemma RequestIsLocal(s: Server, c: ClientId, r: RoomId)
    requires c in s.sessions && SessionOk(s.rooms, s.sessions[c])
    ensures JoinAction(s, c, r).Act? ==> LocalStep(s.rooms, s.sessions[c], JoinAction(s, c, r))
    ensures LeaveAction(s, c, r).Act? ==> LocalStep(s.rooms, s.sessions[c], LeaveAction(s, c, r))
  {
  }

  lemma EventIsLocal(s: Server, c: ClientId, r: RoomId, event: Event, now: TimePoint)
    requires c in s.sessions && SessionOk(s.rooms, s.sessions[c])
    ensures EventAction(s, c, r, event, now).Act? ==> LocalStep(s.rooms, s.sessions[c], EventAction(s, c, r, event, now))
  {
  }

  lemma StopIsLocal(s: Server, c: ClientId)
    requires c in s.sessions && SessionOk(s.rooms, s.sessions[c]) && Agree(s.rooms, s.sessions)
    ensures StopAction(s, c).Act? ==> LocalStep(s.rooms, s.sessions[c], StopAction(s, c))
  {
    var x := s.sessions[c];
    if s.IsIdle(c) && x.currentRoom.Some? {
      assert Inside(x) == x.currentRoom;
      assert c in s.rooms[x.currentRoom.value].room.members;
    }
  }

  lemma TailIsLocal(s: Server, l: Label)
    requires l.FinishJoin? || l.CheckEmpty? || l.TakeSnapshot? || l.Push? || l.Post? || l.NextEntry? || l.Finish?
    requires l.c in s.sessions && SessionOk(s.rooms, s.sessions[l.c])
    ensures ActionOf(s, l).Act? ==> LocalStep(s.rooms, s.sessions[l.c], ActionOf(s, l))
  {
  }

  lemma NextIsLocal(s: Server, l: Label)
    requires SessionsInv(s) && ActionOf(s, l).Act?
    ensures ActionOf(s, l).c in s.sessions
    ensures LocalStep(s.rooms, s.sessions[ActionOf(s, l).c], ActionOf(s, l))
  {
    match l
    case JoinRequest(c, r) => RequestIsLocal(s, c, r);
    case LeaveRequest(c, r) => RequestIsLocal(s, c, r);
    case EventRequest(c, r, event, now) => EventIsLocal(s, c, r, event, now);
    case Stop(c) => StopIsLocal(s, c);
    case FinishJoin(c) => TailIsLocal(s, l);
    case CheckEmpty(c) => TailIsLocal(s, l);
    case TakeSnapshot(c) => TailIsLocal(s, l);
    case Push(c) => TailIsLocal(s, l);
    case Post(c, _) => TailIsLocal(s, l);
    case NextEntry(c) => TailIsLocal(s, l);
    case Finish(c) => TailIsLocal(s, l);
    case _ =>
  }

  lemma ActKeepsAgree(s: Server, a: Action)
    requires SessionsInv(s)
    requires a.Act? ==> a.c in s.sessions && LocalStep(s.rooms, s.sessions[a.c], a)
    ensures Agree(Perform(s, a).rooms, Perform(s, a).sessions)
  {
    var s' := Perform(s, a);
    if a.Act? && a.cmd.Some? {
      MembersAfter(s.rooms[a.cmd.value.0].room, a.cmd.value.1);
    }
    forall r, d | r in s'.rooms
      ensures d in s'.rooms[r].room.members <==> d in s'.sessions && Inside(s'.sessions[d]) == Some(r)
    {
      if r in s.rooms {
        assert d in s.rooms[r].room.members <==> d in s.sessions && Inside(s.sessions[d]) == Some(r);
      }
    }
  }

  lemma ActKeepsSessions(s: Server, a: Action)
    requires SessionsInv(s)
    requires a.Act? ==> a.c in s.sessions && LocalStep(s.rooms, s.sessions[a.c], a)
    ensures SessionsInv(Perform(s, a))
  {
    ActKeepsAgree(s, a);
    assert s.rooms.Keys <= Perform(s, a).rooms.Keys;
  }

  lemma NextKeepsAgreement(s: Server, l: Label)
    requires AgreementInv(s)
    ensures AgreementInv(Next(s, l))
  {
    var a := ActionOf(s, l);
    if a.Act? {
      NextIsLocal(s, l);
    }
    NextKeepsRooms(s, a);
    ActKeepsSessions(s, a);
  }

  lemma {:induction false} RunKeepsAgreement(s: Server, ls: seq<Label>)
    requires AgreementInv(s)
    ensures AgreementInv(After(s, ls))
    decreases |ls|
  {
    if ls != [] {
      NextKeepsAgreement(s, ls[0]);
      RunKeepsAgreement(Next(s, ls[0]), ls[1..]);
    }
  }

  lemma ReachableAgrees(ls: seq<Label>)
    ensures AgreementInv(After(START, ls))
  {
    RunKeepsAgreement(START, ls);
  }

  /** Whenever a session is between handlers, its client is a member of exactly the room the session holds. */
  lemma SessionCoreAgreement(ls: seq<Label>, c: ClientId, r: RoomId)
    ensures
      var s := After(START, ls);
      s.IsIdle(c) && r in s.rooms ==> (c in s.rooms[r].room.members <==> s.sessions[c].currentRoom == Some(r))
  {
    ReachableAgrees(ls);
  }

  /** A message that passes the session's room gate is never answered RoomNotFound or NotInRoom by the core,
      and a leave, asked for or made by `stopImpl`, is always accepted. */
  lemma {:induction false} PastTheGate(ls: seq<Label>, c: ClientId, r: RoomId, event: Event, now: TimePoint)
    requires After(START, ls).GateOpen(c, r)
    ensures After(START, ls).CoreReply(r, Apply(c, event, now)) !in {Err(RoomNotFound), Err(NotInRoom)}
    ensures After(START, ls).CoreReply(r, Leave(c)).Ok?
  {
    var s := After(START, ls);
    ReachableAgrees(ls);
    InItsRoom(s, c, r);
    MemberPasses(s.rooms[r].room, c, event, now);
  }

  lemma {:induction false} InItsRoom(s: Server, c: ClientId, r: RoomId)
    requires AgreementInv(s) && s.GateOpen(c, r)
    ensures r in s.rooms && c in s.rooms[r].room.members
  {
    assert SessionOk(s.rooms, s.sessions[c]);
  }

  lemma MemberPasses(room: RoomState, c: ClientId, event: Event, now: TimePoint)
    requires c in room.members
    ensures Execute(room, Apply(c, event, now)).reply !in {Err(RoomNotFound), Err(NotInRoom)}
    ensures Execute(room, Leave(c)).reply.Ok?
  {
  }
}
