/** A handler that nobody interrupts does what the session object promises: the steps of Shell and
    the methods of Session are the same handlers. */
module Handlers {
  import opened Types
  import opened RoomSpec
  import opened RoomInvariant
  import opened Convergence
  import opened Shell
  import opened Agreement
  import opened Saving
  import opened Delivery
  import opened Finishing
  import opened Requests
  import Sessions
  import Wire

  /** In this run only the handler that `c` has begun goes on. */
  predicate Alone(ls: seq<Label>, c: ClientId) {
    forall i :: 0 <= i < |ls| ==> IsTail(ls[i], c)
  }

  /** What the handler of `c` has still to post to `m`: to registered others entries, to its own client a join snapshot. */
  function Due(s: Server, c: ClientId, m: ClientId): seq<Message>
    requires c in s.sessions
  {
    if m == c then OwnSnapshot(s.sessions[c]) else if m in s.registered then Outgoing(s.sessions[c], m) else []
  }

  /** What the handler of `c` has still to push, if nobody else acts. */
  function SnapDue(s: Server, c: ClientId): seq<PersistedSnapshot>
    requires c in s.sessions
  {
    match s.sessions[c].pc
    case Left(r, _) => if r in s.rooms && s.rooms[r].room.members == {} then [Snap(r, s.rooms[r])] else []
    case LeftEmpty(r, _) => if r in s.rooms then [Snap(r, s.rooms[r])] else []
    case LeftSnap(_, _, snap) => [snap]
    case Ended(r, _, _) => if r in s.rooms then [Snap(r, s.rooms[r])] else []
    case EndedSnap(_, _, _, snap) => [snap]
    case _ => []
  }

  /** The session at the end of its handler. */
  function AtEnd(x: Session): Session {
    Session(Inside(x), x.stopped || x.stopping, false, Idle)
  }

  /** The registry at the end of the handler of `c`: a stopping session leaves it. */
  function RegisteredAtEnd(s: Server, c: ClientId): set<ClientId>
    requires c in s.sessions
  {
    if s.sessions[c].stopping then s.registered - {c} else s.registered
  }

  /** What a handler leaves alone, and what it has done together with what it has still to do. */
  ghost predicate Conserves(s: Server, s': Server, c: ClientId) {
    && c in s.sessions && c in s'.sessions
    && s'.rooms == s.rooms && s'.nextRoomId == s.nextRoomId && s'.nextClientId == s.nextClientId
    && s'.sessions == s.sessions[c := s'.sessions[c]]
    && AtEnd(s'.sessions[c]) == AtEnd(s.sessions[c])
    && RegisteredAtEnd(s', c) == RegisteredAtEnd(s, c)
    && s'.pushed + SnapDue(s', c) == s.pushed + SnapDue(s, c)
    && forall m :: s'.Inbox(m) + Due(s', c, m) == s.Inbox(m) + Due(s, c, m)
  }

  /** What is common to the steps of a handler that has begun. */
  ghost predicate TailShape(s: Server, a: Action, c: ClientId) {
    && a.Act? && a.c == c && a.cmd.None? && c in s.sessions
    && AtEnd(a.x) == AtEnd(s.sessions[c])
    && (if a.unregister then s.sessions[c].stopping && !a.x.stopping else a.x.stopping == s.sessions[c].stopping)
    && (a.post.Some? && a.post.value.1.EventMsg? ==> a.post.value.0 in s.registered)
  }

  lemma {:induction false} TailHasShape(s: Server, l: Label, c: ClientId)
    requires SessionsInv(s) && IsTail(l, c) && ActionOf(s, l).Act?
    ensures TailShape(s, ActionOf(s, l), c)
  {
    assert SessionOk(s.rooms, s.sessions[c]);
  }

  lemma {:induction false} TailPosts(s: Server, a: Action, c: ClientId, m: ClientId)
    requires TailShape(s, a, c) && SendStep(s, s.sessions[c], a)
    ensures Perform(s, a).Inbox(m) + Due(Perform(s, a), c, m) == s.Inbox(m) + Due(s, c, m)
  {
    var left := Due(Perform(s, a), c, m);
    DueMoves(s, a, c, m);
    if a.post.Some? && a.post.value.0 == m {
      Associative(s.Inbox(m), [a.post.value.1], left);
    }
  }

  lemma {:induction false} DueMoves(s: Server, a: Action, c: ClientId, m: ClientId)
    requires TailShape(s, a, c) && SendStep(s, s.sessions[c], a)
    ensures Due(s, c, m) == (if a.post.Some? && a.post.value.0 == m then [a.post.value.1] else []) + Due(Perform(s, a), c, m)
  {
    var left := Due(Perform(s, a), c, m);
    assert [] + left == left;
    if a.post.Some? {
      assert Genuine(s.rooms, c, a.post.value.0, a.post.value.1);
    }
    if m == c {
      OwnDueMoves(s, a, c);
    } else {
      assert Perform(s, a).sessions[c] == a.x && (m in Perform(s, a).registered <==> m in s.registered);
    }
  }

  lemma {:induction false} OwnDueMoves(s: Server, a: Action, c: ClientId)
    requires TailShape(s, a, c) && SendStep(s, s.sessions[c], a)
    ensures OwnSnapshot(s.sessions[c]) ==
            (if a.post.Some? && a.post.value.0 == c then [a.post.value.1] else []) + OwnSnapshot(Perform(s, a).sessions[c])
  {
    assert [] + OwnSnapshot(a.x) == OwnSnapshot(a.x);
  }

  lemma {:induction false} TailPushes(s: Server, l: Label, c: ClientId)
    requires c in s.sessions && IsTail(l, c)
    ensures
      var s' := Perform(s, ActionOf(s, l));
      c in s'.sessions && s'.pushed + SnapDue(s', c) == s.pushed + SnapDue(s, c)
  {
  }

  lemma NothingConserves(s: Server, c: ClientId)
    requires c in s.sessions
    ensures Conserves(s, s, c)
  {
    assert s.sessions == s.sessions[c := s.sessions[c]];
  }

  lemma {:induction false} TailConserves(s: Server, l: Label, c: ClientId)
    requires ServerOk(s) && c in s.sessions && IsTail(l, c)
    ensures Conserves(s, Next(s, l), c)
  {
    var a := ActionOf(s, l);
    StepFacts(s, l);
    if a.Act? {
      TailActConserves(s, l, c);
    } else {
      assert a.Nothing?;
      NothingConserves(s, c);
    }
  }

  lemma {:induction false} TailActConserves(s: Server, l: Label, c: ClientId)
    requires SessionsInv(s) && c in s.sessions && IsTail(l, c)
    requires ActionOf(s, l).Act? && ActionOf(s, l).c in s.sessions && SendStep(s, s.sessions[ActionOf(s, l).c], ActionOf(s, l))
    ensures Conserves(s, Perform(s, ActionOf(s, l)), c)
  {
    TailPushes(s, l, c);
    TailHasShape(s, l, c);
    ActConserves(s, ActionOf(s, l), c);
  }

  lemma {:induction false} ActConserves(s: Server, a: Action, c: ClientId)
    requires TailShape(s, a, c) && SendStep(s, s.sessions[c], a)
    requires Perform(s, a).pushed + SnapDue(Perform(s, a), c) == s.pushed + SnapDue(s, c)
    ensures Conserves(s, Perform(s, a), c)
  {
    forall m ensures Perform(s, a).Inbox(m) + Due(Perform(s, a), c, m) == s.Inbox(m) + Due(s, c, m) {
      TailPosts(s, a, c, m);
    }
  }

  lemma ConservesTwice(s: Server, s1: Server, s2: Server, c: ClientId)
    requires Conserves(s, s1, c) && Conserves(s1, s2, c)
    ensures Conserves(s, s2, c)
  {
  }

  lemma {:induction false} AloneConserves(s: Server, ls: seq<Label>, c: ClientId)
    requires ServerOk(s) && c in s.sessions && Alone(ls, c)
    ensures ServerOk(After(s, ls)) && Conserves(s, After(s, ls), c)
    decreases |ls|
  {
    if ls == [] {
      NothingConserves(s, c);
    } else {
      TailConserves(s, ls[0], c);
      NextKeepsOk(s, ls[0]);
      AloneConserves(Next(s, ls[0]), ls[1..], c);
      ConservesTwice(s, Next(s, ls[0]), After(s, ls), c);
    }
  }

  /** After the handler's last step all of it has happened. */
  ghost predicate Done(s: Server, s': Server, c: ClientId) {
    && c in s.sessions
    && s'.rooms == s.rooms && s'.nextRoomId == s.nextRoomId && s'.nextClientId == s.nextClientId
    && s'.sessions == s.sessions[c := AtEnd(s.sessions[c])]
    && s'.registered == RegisteredAtEnd(s, c)
    && s'.pushed == s.pushed + SnapDue(s, c)
    && forall m :: s'.Inbox(m) == s.Inbox(m) + Due(s, c, m)
  }

  lemma IdleIsDone(s: Server, s': Server, c: ClientId)
    requires ServerOk(s') && Conserves(s, s', c) && s'.sessions[c].pc.Idle?
    ensures Done(s, s', c)
  {
    assert SessionOk(s'.rooms, s'.sessions[c]);
    assert AtEnd(s'.sessions[c]) == s'.sessions[c];
    assert s'.pushed + [] == s'.pushed;
    forall m ensures s'.Inbox(m) == s.Inbox(m) + Due(s, c, m) {
      assert s'.Inbox(m) + [] == s'.Inbox(m);
    }
  }

  lemma RunsToEnd(s: Server, ls: seq<Label>, c: ClientId)
    requires ServerOk(s) && c in s.sessions && Alone(ls, c) && After(s, ls).IsIdle(c)
    ensures Done(s, After(s, ls), c)
  {
    AloneConserves(s, ls, c);
    IdleIsDone(s, After(s, ls), c);
  }

  /** A handler that has begun can always be run to its end by itself. */
  lemma {:induction false} CanEndAlone(s: Server, c: ClientId) returns (ls: seq<Label>)
    requires ServerOk(s) && c in s.sessions
    ensures Alone(ls, c) && After(s, ls).IsIdle(c)
    decreases Work(s.sessions[c].pc)
  {
    if s.sessions[c].pc.Idle? {
      ls := [];
    } else {
      var l := HandlerAdvances(s, c);
      NextKeepsOk(s, l);
      var rest := CanEndAlone(Next(s, l), c);
      ls := [l] + rest;
      assert ls[1..] == rest;
    }
  }

  /** What one request of `c` has done altogether, when its handler has run to its end: the command on the room, the
      session in `x`, one snapshot pushed if `saves`, the registry as `registered`; its entries posted to every other
      registered client they are for, the board to a client that joined; and nothing else. */
  ghost predicate Carried(s: Server, s': Server, c: ClientId, r: RoomId, cmd: Command, x: Session, saves: bool, registered: set<ClientId>) {
    && r in s.rooms
    && s'.rooms == s.rooms[r := Step(s.rooms[r], cmd)]
    && s'.sessions == s.sessions[c := x]
    && s'.registered == registered
    && s'.nextRoomId == s.nextRoomId && s'.nextClientId == s.nextClientId
    && s'.pushed == s.pushed + (if saves then [Snap(r, s'.rooms[r])] else [])
    && forall m :: s'.Inbox(m) == s.Inbox(m) +
         if m == c then (if cmd.Join? then [JoinSnapshot(r, s'.rooms[r])] else [])
         else if m in s.registered then ToPost(r, Added(Execute(s.rooms[r].room, cmd)), m)
         else []
  }

  /** Every way of running the handler of the request `l` by itself ends like this, and there is one. */
  ghost predicate EndsAs(s: Server, l: Label, c: ClientId, r: RoomId, cmd: Command, x: Session, saves: bool, registered: set<ClientId>) {
    && (forall ls :: Alone(ls, c) && After(Next(s, l), ls).IsIdle(c) ==>
          Carried(s, After(Next(s, l), ls), c, r, cmd, x, saves, registered))
    && exists ls :: Alone(ls, c) && After(Next(s, l), ls).IsIdle(c)
  }

  lemma {:induction false} BeganIsCarried(s: Server, s1: Server, s': Server, c: ClientId, x1: Session, r: RoomId, cmd: Command, saves: bool)
    requires Began(s, s1, c, x1, r, cmd) && Done(s1, s', c)
    requires OwnSnapshot(x1) == if cmd.Join? then [JoinSnapshot(r, Step(s.rooms[r], cmd))] else []
    requires forall m :: Outgoing(x1, m) == ToPost(r, Added(Execute(s.rooms[r].room, cmd)), m)
    requires SnapDue(s1, c) == if saves then [Snap(r, s1.rooms[r])] else []
    ensures Carried(s, s', c, r, cmd, AtEnd(x1), saves, RegisteredAtEnd(s1, c))
  {
  }

  lemma {:induction false} RequestEnds(s: Server, l: Label, c: ClientId, x1: Session, r: RoomId, cmd: Command, saves: bool,
                                       x: Session, registered: set<ClientId>)
    requires ServerOk(s) && Began(s, Next(s, l), c, x1, r, cmd)
    requires OwnSnapshot(x1) == if cmd.Join? then [JoinSnapshot(r, Step(s.rooms[r], cmd))] else []
    requires forall m :: Outgoing(x1, m) == ToPost(r, Added(Execute(s.rooms[r].room, cmd)), m)
    requires SnapDue(Next(s, l), c) == if saves then [Snap(r, Next(s, l).rooms[r])] else []
    requires x == AtEnd(x1) && registered == RegisteredAtEnd(Next(s, l), c)
    ensures EndsAs(s, l, c, r, cmd, x, saves, registered)
  {
    var s1 := Next(s, l);
    NextKeepsOk(s, l);
    forall ls | Alone(ls, c) && After(s1, ls).IsIdle(c)
      ensures Carried(s, After(s1, ls), c, r, cmd, x, saves, registered)
    {
      RunsToEnd(s1, ls, c);
      BeganIsCarried(s, s1, After(s1, ls), c, x1, r, cmd, saves);
    }
    var way := CanEndAlone(s1, c);
    assert Alone(way, c) && After(s1, way).IsIdle(c);
  }

  lemma NotStopping(s: Server, c: ClientId)
    requires ServerOk(s) && Ready(s, c)
    ensures !s.sessions[c].stopping
  {
    assert SessionOk(s.rooms, s.sessions[c]);
  }

  /** A join by a free session that is in no room, or in that one already: run by itself, its handler leaves the client in
      the room and posts it the board as it then is. */
  lemma {:induction false} JoinAlone(s: Server, c: ClientId, r: RoomId)
    requires ServerOk(s) && c in s.sessions && s.sessions[c].pc == Idle && r in s.rooms
    requires s.sessions[c].currentRoom == None || s.sessions[c].currentRoom == Some(r)
    ensures EndsAs(s, JoinRequest(c, r), c, r, Join(c), s.sessions[c].(currentRoom := Some(r)), false, s.registered)
  {
    var h := Step(s.rooms[r], Join(c));
    var x1 := s.sessions[c].(pc := Joined(r, h.room.LastSeq(), h.room.board));
    NotStopping(s, c);
    JoinAnswered(s, c, r);
    RequestEnds(s, JoinRequest(c, r), c, x1, r, Join(c), false, s.sessions[c].(currentRoom := Some(r)), s.registered);
  }

  /** A leave by a free session of its room: the client is out, everybody registered is posted the entries addressed to it,
      and the board is pushed exactly when the room is then empty. */
  lemma {:induction false} LeaveAlone(s: Server, c: ClientId, r: RoomId)
    requires ServerOk(s) && c in s.sessions && s.sessions[c].pc == Idle && s.sessions[c].currentRoom == Some(r)
    ensures r in s.rooms
    ensures EndsAs(s, LeaveRequest(c, r), c, r, Leave(c), s.sessions[c].(currentRoom := None),
                   Step(s.rooms[r], Leave(c)).room.members == {}, s.registered)
  {
    NotStopping(s, c);
    InItsRoom(s, c, r);
    LeaveAnswered(s, c, r);
    var x1 := s.sessions[c].(pc := Left(r, Execute(s.rooms[r].room, Leave(c)).reply.value));
    RequestEnds(s, LeaveRequest(c, r), c, x1, r, Leave(c), Step(s.rooms[r], Leave(c)).room.members == {},
                s.sessions[c].(currentRoom := None), s.registered);
  }

  lemma {:induction false} EventHandler(s: Server, s1: Server, c: ClientId, x1: Session, r: RoomId, event: Event, now: TimePoint)
    requires Began(s, s1, c, x1, r, Apply(c, event, now)) && Execute(s.rooms[r].room, Apply(c, event, now)).reply.Ok?
    requires
      var entries := Execute(s.rooms[r].room, Apply(c, event, now)).reply.value;
      x1.pc == if event.StrokeEnd? || event.Clear? then Ended(r, entries, s.rooms[r].room.nextSeq) else Sending(r, entries)
    ensures OwnSnapshot(x1) == []
    ensures forall m :: Outgoing(x1, m) == ToPost(r, Added(Execute(s.rooms[r].room, Apply(c, event, now))), m)
    ensures c in s1.sessions && SnapDue(s1, c) == if event.StrokeEnd? || event.Clear? then [Snap(r, s1.rooms[r])] else []
  {
  }

  /** An event that the room accepts, from a free session of that room: the client stays where it is, the entries are
      posted, and the board is pushed exactly after a stroke end or a clear. */
  lemma {:induction false} EventAlone(s: Server, c: ClientId, r: RoomId, event: Event, now: TimePoint)
    requires ServerOk(s) && c in s.sessions && s.sessions[c].pc == Idle && s.sessions[c].currentRoom == Some(r)
    requires r in s.rooms && Execute(s.rooms[r].room, Apply(c, event, now)).reply.Ok?
    ensures EndsAs(s, EventRequest(c, r, event, now), c, r, Apply(c, event, now), s.sessions[c],
                   event.StrokeEnd? || event.Clear?, s.registered)
  {
    var entries := Execute(s.rooms[r].room, Apply(c, event, now)).reply.value;
    var pc := if event.StrokeEnd? || event.Clear? then Ended(r, entries, s.rooms[r].room.nextSeq) else Sending(r, entries);
    EventAnswered(s, c, r, event, now);
    EventRuns(s, c, s.sessions[c].(pc := pc), r, event, now);
  }

  lemma {:induction false} EventRuns(s: Server, c: ClientId, x1: Session, r: RoomId, event: Event, now: TimePoint)
    requires ServerOk(s) && Ready(s, c) && s.sessions[c].currentRoom == Some(r)
    requires Began(s, Next(s, EventRequest(c, r, event, now)), c, x1, r, Apply(c, event, now))
    requires Execute(s.rooms[r].room, Apply(c, event, now)).reply.Ok?
    requires
      var entries := Execute(s.rooms[r].room, Apply(c, event, now)).reply.value;
      x1 == s.sessions[c].(pc := if event.StrokeEnd? || event.Clear? then Ended(r, entries, s.rooms[r].room.nextSeq)
                                 else Sending(r, entries))
    ensures EndsAs(s, EventRequest(c, r, event, now), c, r, Apply(c, event, now), s.sessions[c],
                   event.StrokeEnd? || event.Clear?, s.registered)
  {
    NotStopping(s, c);
    EventHandler(s, Next(s, EventRequest(c, r, event, now)), c, x1, r, event, now);
    RequestEnds(s, EventRequest(c, r, event, now), c, x1, r, Apply(c, event, now), event.StrokeEnd? || event.Clear?,
                s.sessions[c], s.registered);
  }

  /** The first stop of a free session in a room is a leave after which the session is stopped and off the registry. */
  lemma {:induction false} StopAlone(s: Server, c: ClientId, r: RoomId)
    requires ServerOk(s) && c in s.sessions && s.sessions[c].pc == Idle && s.sessions[c].currentRoom == Some(r)
    requires !s.sessions[c].stopped
    ensures r in s.rooms
    ensures EndsAs(s, Stop(c), c, r, Leave(c), Session(None, true, false, Idle),
                   Step(s.rooms[r], Leave(c)).room.members == {}, s.registered - {c})
  {
    InItsRoom(s, c, r);
    StopAnswered(s, c);
    var x1 := s.sessions[c].(stopped := true, stopping := true, pc := Left(r, Execute(s.rooms[r].room, Leave(c)).reply.value));
    RequestEnds(s, Stop(c), c, x1, r, Leave(c), Step(s.rooms[r], Leave(c)).room.members == {},
                Session(None, true, false, Idle), s.registered - {c});
  }

  // ----- The same messages -----

  /** The message value that a posted event becomes on its way to `m`. */
  function NoticeFor(msg: Message, m: ClientId): Sessions.ServerMessage
    requires msg.EventMsg?
  {
    Sessions.EventNotice(Wire.ToServerMessage(OutgoingEvent(msg.room, m, msg.seqNo, msg.payload)))
  }

  function HeadPost(r: RoomId, e: Entry, m: ClientId): seq<Message> {
    if m in e.recipients then [EventMsg(r, e.seqNo, e.payload)] else []
  }

  ghost predicate Same(posted: seq<Message>, notices: seq<Sessions.ServerMessage>, m: ClientId) {
    && |notices| == |posted|
    && forall i :: 0 <= i < |posted| ==> posted[i].EventMsg? && notices[i] == NoticeFor(posted[i], m)
  }

  lemma SameConcat(p: seq<Message>, n: seq<Sessions.ServerMessage>, q: seq<Message>, o: seq<Sessions.ServerMessage>, m: ClientId)
    requires Same(p, n, m) && Same(q, o, m)
    ensures Same(p + q, n + o, m)
  {
  }

  /** What a handler of the system posts to `m` is, message by message, what the session object announces to it. */
  lemma {:induction false} SameNotices(r: RoomId, entries: seq<Entry>, m: ClientId)
    ensures Same(ToPost(r, entries, m), Sessions.NoticesFor(entries, r, m), m)
  {
    if entries != [] {
      SameNotices(r, entries[1..], m);
      var e := entries[0];
      var notice := if m in e.recipients
                    then [Sessions.EventNotice(Wire.ToServerMessage(OutgoingEvent(r, m, e.seqNo, e.payload)))] else [];
      SameConcat(HeadPost(r, e, m), notice, ToPost(r, entries[1..], m), Sessions.NoticesFor(entries[1..], r, m), m);
    }
  }
}
