/** What reaches a member's strand, in every interleaving: each author's events in the author's
    order, none lost. */
module Delivery {
  import opened Types
  import opened RoomSpec
  import opened RoomInvariant
  import opened Replica
  import opened Convergence
  import opened Reordering
  import opened Arrivals
  import opened Shell
  import opened Agreement
  import opened Saving

  /** The payloads of the events of room `r` numbered above `lastSeq`, in order. */
  function Events(msgs: seq<Message>, r: RoomId, lastSeq: Seq): seq<Payload> {
    if msgs == [] then []
    else
      var msg := msgs[|msgs| - 1];
      Events(msgs[..|msgs| - 1], r, lastSeq)
      + (if msg.EventMsg? && msg.room == r && lastSeq < msg.seqNo then [msg.payload] else [])
  }

  /** What a handler with these entries still to post has for `m`. */
  function ToPost(r: RoomId, todo: seq<Entry>, m: ClientId): seq<Message> {
    if todo == [] then []
    else (if m in todo[0].recipients then [EventMsg(r, todo[0].seqNo, todo[0].payload)] else []) + ToPost(r, todo[1..], m)
  }

  function Outgoing(x: Session, m: ClientId): seq<Message> {
    if x.pc.Idle? || x.pc.Joined? then [] else ToPost(x.pc.room, x.pc.todo, m)
  }

  function OutgoingOf(s: Server, a: ClientId, m: ClientId): seq<Message> {
    if a in s.sessions then Outgoing(s.sessions[a], m) else []
  }

  function OwnSnapshot(x: Session): seq<Message> {
    if x.pc.Joined? then [SnapshotMsg(x.pc.room, x.pc.lastSeq, x.pc.state)] else []
  }

  lemma {:induction false} EventsConcat(a: seq<Message>, b: seq<Message>, r: RoomId, lastSeq: Seq)
    ensures Events(a + b, r, lastSeq) == Events(a, r, lastSeq) + Events(b, r, lastSeq)
  {
    if b == [] {
      assert a + b == a;
    } else {
      assert (a + b)[..|a + b| - 1] == a + b[..|b| - 1];
      EventsConcat(a, b[..|b| - 1], r, lastSeq);
    }
  }

  // ----- What is on the way -----

  /** A message from `a` to `m`: an event of another author, already in its room's history, or `m`'s own snapshot. */
  ghost predicate Genuine(rooms: map<RoomId, History>, a: ClientId, m: ClientId, msg: Message) {
    match msg
    case EventMsg(r, n, p) => r in rooms && n <= |rooms[r].log| && p.Author() == a && a != m
    case SnapshotMsg(_, _, _) => a == m
  }

  /** Events in an inbox are other clients' and not numbered beyond their room's history. */
  ghost predicate InboxKnown(rooms: map<RoomId, History>, m: ClientId, msgs: seq<Message>) {
    forall i :: 0 <= i < |msgs| && msgs[i].EventMsg? ==>
      msgs[i].room in rooms && msgs[i].seqNo <= |rooms[msgs[i].room].log| && msgs[i].payload.Author() != m
  }

  predicate Opening(p: Payload) {
    p.StrokeBeginOut? || p.ClearOut?
  }

  /** The entries a handler is posting are its own client's and go to others; a begun stroke or a clear comes alone. */
  ghost predicate TodoOwn(rooms: map<RoomId, History>, a: ClientId, x: Session) {
    x.pc.Idle? || x.pc.Joined? ||
    (forall i :: 0 <= i < |x.pc.todo| ==>
       && x.pc.todo[i].payload.Author() == a && a !in x.pc.todo[i].recipients
       && (Opening(x.pc.todo[i].payload) ==> |x.pc.todo| == 1)
       && x.pc.room in rooms && x.pc.todo[i].seqNo <= |rooms[x.pc.room].log|)
  }

  ghost predicate TrafficInv(s: Server) {
    && (forall m :: InboxKnown(s.rooms, m, s.Inbox(m)))
    && (forall a :: a in s.sessions ==> TodoOwn(s.rooms, a, s.sessions[a]))
  }

  /** A member's base is a snapshot of its room, all of whose later entries reach the member. */
  ghost predicate BaseOk(s: Server, m: ClientId)
    requires m in s.base
  {
    var b := s.base[m];
    && b.SnapshotMsg? && b.room in s.rooms && m in s.sessions && m in s.rooms[b.room].room.members
    && b.lastSeq <= |s.rooms[b.room].log|
    && b.state == Replay(EMPTY_BOARD, Payloads(s.rooms[b.room].log[..b.lastSeq]))
    && (forall i :: b.lastSeq <= i < |s.rooms[b.room].log| ==> Reaches(s.rooms[b.room].log[i], m))
  }

  /** The history of room `r` after number `lastSeq`. */
  function Tail(rooms: map<RoomId, History>, r: RoomId, lastSeq: Seq): seq<Payload> {
    if r in rooms && lastSeq <= |rooms[r].log| then Payloads(rooms[r].log[lastSeq..]) else []
  }

  /** What `a` still has to post to `m` of the events that `m` waits for. */
  function Coming(s: Server, a: ClientId, m: ClientId): seq<Payload>
    requires m in s.base && s.base[m].SnapshotMsg?
  {
    Events(OutgoingOf(s, a, m), s.base[m].room, s.base[m].lastSeq)
  }

  /** Of `a`'s events since the member's snapshot, some have reached it and the rest is still to be posted, in order. */
  ghost predicate Accounted(s: Server, a: ClientId, m: ClientId)
    requires m in s.base && s.base[m].SnapshotMsg?
  {
    By(s.Seen(m), a) + Coming(s, a, m) == By(Tail(s.rooms, s.base[m].room, s.base[m].lastSeq), a)
  }

  /** Apart from its own, the events the member has seen are those in its inbox, in the same order. */
  ghost predicate Noticed(s: Server, m: ClientId)
    requires m in s.base && s.base[m].SnapshotMsg?
  {
    Select(s.Seen(m), NotAuthor(m)) == Events(s.Inbox(m), s.base[m].room, s.base[m].lastSeq)
  }

  /** All that a session has sent itself, up to the snapshot it is about to post. */
  function ToItself(s: Server, m: ClientId): seq<Message> {
    s.Inbox(m) + if m in s.sessions then OwnSnapshot(s.sessions[m]) else []
  }

  function LastSnapshot(msgs: seq<Message>): Option<Message> {
    if msgs == [] then None
    else if msgs[|msgs| - 1].SnapshotMsg? then Some(msgs[|msgs| - 1])
    else LastSnapshot(msgs[..|msgs| - 1])
  }

  /** The member's latest snapshot has been posted or is about to be. */
  ghost predicate SnapshotOnTheWay(s: Server, m: ClientId)
    requires m in s.base
  {
    LastSnapshot(ToItself(s, m)) == Some(s.base[m])
  }

  // ----- What one step does to what is on the way -----

  ghost predicate SendStep(s: Server, x: Session, a: Action)
    requires a.Act?
  {
    && TodoOwn(RunCommand(s.rooms, a.cmd), a.c, a.x)
    && match a.cmd
       case None =>
         (match a.post
          case None =>
            OwnSnapshot(a.x) == OwnSnapshot(x) && forall m :: m in s.registered ==> Outgoing(a.x, m) == Outgoing(x, m)
          case Some((to, msg)) =>
            && Genuine(s.rooms, a.c, to, msg)
            && (if msg.EventMsg?
                then OwnSnapshot(a.x) == OwnSnapshot(x) == []
                else OwnSnapshot(x) == [msg] && OwnSnapshot(a.x) == [])
            && forall m :: m in s.registered ==>
                 Outgoing(x, m) == (if msg.EventMsg? && m == to then [msg] else []) + Outgoing(a.x, m))
       case Some((r, cmd)) =>
         && a.post.None? && !a.unregister && r in s.rooms && cmd.client == a.c
         && OwnSnapshot(x) == [] && OwnSnapshot(a.x) == (if cmd.Join? then [JoinSnapshot(r, Step(s.rooms[r], cmd))] else [])
         && forall m :: Outgoing(x, m) == [] && Outgoing(a.x, m) == ToPost(r, Added(Execute(s.rooms[r].room, cmd)), m)
  }

  /** The entries of an accepted command are in the history it leaves behind, under its client's name. */
  lemma AddedIsOwn(h: History, r: RoomId, cmd: Command, x: Session, rooms: map<RoomId, History>)
    requires HistoryInv(h) && r in rooms && rooms[r] == Step(h, cmd)
    requires !x.pc.Idle? && !x.pc.Joined? && x.pc.room == r && x.pc.todo == Added(Execute(h.room, cmd))
    ensures TodoOwn(rooms, cmd.client, x)
  {
    StepFansOut(h.room, cmd);
    OpeningAlone(h.room, cmd);
    assert |h.log| == h.room.LastSeq();
  }

  lemma OpeningAlone(s: RoomState, cmd: Command)
    ensures
      var added := Added(Execute(s, cmd));
      forall i :: 0 <= i < |added| && Opening(added[i].payload) ==> |added| == 1
  {
  }

  lemma {:induction false} JoinSends(s: Server, c: ClientId, r: RoomId)
    requires JoinAction(s, c, r).Act?
    ensures SendStep(s, s.sessions[c], JoinAction(s, c, r))
  {
  }

  /** A command that is no join starts its handler on posting what it added to the history. */
  lemma {:induction false} CommandSends(s: Server, c: ClientId, x': Session, r: RoomId, cmd: Command)
    requires RoomsInv(s) && s.IsIdle(c) && r in s.rooms && cmd.client == c && !cmd.Join?
    requires !x'.pc.Idle? && !x'.pc.Joined? && x'.pc.room == r && x'.pc.todo == Added(Execute(s.rooms[r].room, cmd))
    ensures SendStep(s, s.sessions[c], Act(c, x', Some((r, cmd)), None, None, false))
  {
    AddedIsOwn(s.rooms[r], r, cmd, x', RunCommand(s.rooms, Some((r, cmd))));
  }

  lemma {:induction false} LeaveSends(s: Server, c: ClientId, r: RoomId)
    requires RoomsInv(s) && LeaveAction(s, c, r).Act?
    ensures SendStep(s, s.sessions[c], LeaveAction(s, c, r))
  {
    CommandSends(s, c, LeaveAction(s, c, r).x, r, Leave(c));
  }

  lemma {:induction false} EventSends(s: Server, c: ClientId, r: RoomId, event: Event, now: TimePoint)
    requires RoomsInv(s) && EventAction(s, c, r, event, now).Act?
    ensures SendStep(s, s.sessions[c], EventAction(s, c, r, event, now))
  {
    CommandSends(s, c, EventAction(s, c, r, event, now).x, r, Apply(c, event, now));
  }

  lemma {:induction false} StopSends(s: Server, c: ClientId)
    requires RoomsInv(s) && StopAction(s, c).Act? && StopAction(s, c).cmd.Some?
    ensures SendStep(s, s.sessions[c], StopAction(s, c))
  {
    CommandSends(s, c, StopAction(s, c).x, StopAction(s, c).cmd.value.0, Leave(c));
  }

  lemma {:induction false} StopWithoutRoomSends(s: Server, c: ClientId)
    requires StopAction(s, c).Act? && StopAction(s, c).cmd.None?
    ensures SendStep(s, s.sessions[c], StopAction(s, c))
  {
  }

  /** A step that posts nothing and leaves what is to be posted as it is. */
  lemma QuietSends(s: Server, c: ClientId, x': Session, push: Option<PersistedSnapshot>)
    requires c in s.sessions && TodoOwn(s.rooms, c, s.sessions[c])
    requires
      var pc := s.sessions[c].pc;
      && !pc.Idle? && !pc.Joined? && !x'.pc.Idle? && !x'.pc.Joined?
      && x'.pc.room == pc.room && x'.pc.todo == pc.todo
    ensures SendStep(s, s.sessions[c], Act(c, x', None, None, push, false))
  {
    var x := s.sessions[c];
    var none: Option<(RoomId, Command)> := None;
    assert RunCommand(s.rooms, none) == s.rooms;
    assert TodoOwn(s.rooms, c, x');
    assert OwnSnapshot(x') == OwnSnapshot(x);
    assert forall m :: Outgoing(x', m) == Outgoing(x, m);
  }

  lemma SavingSends(s: Server, c: ClientId, a: Action)
    requires c in s.sessions && TodoOwn(s.rooms, c, s.sessions[c])
    requires a.Act? && (a == CheckEmptyAction(s, c) || a == TakeSnapshotAction(s, c) || a == PushAction(s, c))
    ensures SendStep(s, s.sessions[c], a)
  {
    QuietSends(s, c, a.x, a.push);
  }

  lemma {:induction false} PostSends(s: Server, c: ClientId, to: ClientId)
    requires PostAction(s, c, to).Act? && TodoOwn(s.rooms, c, s.sessions[c])
    ensures SendStep(s, s.sessions[c], PostAction(s, c, to))
  {
    var (room, todo) := (s.sessions[c].pc.room, s.sessions[c].pc.todo);
    var rest := [todo[0].(recipients := todo[0].recipients - {to})] + todo[1..];
    assert rest[1..] == todo[1..];
    var none: Option<(RoomId, Command)> := None;
    assert RunCommand(s.rooms, none) == s.rooms;
    RestIsOwn(s.rooms, c, s.sessions[c], PostAction(s, c, to).x);
    forall m ensures ToPost(room, todo, m) ==
                     (if m == to then [EventMsg(room, todo[0].seqNo, todo[0].payload)] else []) + ToPost(room, rest, m) {
      PostedOne(room, todo, rest, to, m);
    }
  }

  lemma PostedOne(room: RoomId, todo: seq<Entry>, rest: seq<Entry>, to: ClientId, m: ClientId)
    requires todo != [] && rest != [] && to in todo[0].recipients && rest[1..] == todo[1..]
    requires rest[0] == todo[0].(recipients := todo[0].recipients - {to})
    ensures ToPost(room, todo, m) ==
            (if m == to then [EventMsg(room, todo[0].seqNo, todo[0].payload)] else []) + ToPost(room, rest, m)
  {
  }

  lemma {:induction false} RestIsOwn(rooms: map<RoomId, History>, c: ClientId, x: Session, x': Session)
    requires x.pc.Sending? && x'.pc.Sending? && TodoOwn(rooms, c, x) && x'.pc.room == x.pc.room
    requires |x'.pc.todo| == |x.pc.todo|
    requires forall i :: 0 <= i < |x.pc.todo| ==>
               && x'.pc.todo[i].payload == x.pc.todo[i].payload && x'.pc.todo[i].seqNo == x.pc.todo[i].seqNo
               && x'.pc.todo[i].recipients <= x.pc.todo[i].recipients
    ensures TodoOwn(rooms, c, x')
  {
  }

  lemma EndingSends(s: Server, c: ClientId)
    requires c in s.sessions && TodoOwn(s.rooms, c, s.sessions[c])
    ensures NextEntryAction(s, c).Act? ==> SendStep(s, s.sessions[c], NextEntryAction(s, c))
    ensures FinishAction(s, c).Act? ==> SendStep(s, s.sessions[c], FinishAction(s, c))
    ensures FinishJoinAction(s, c).Act? ==> SendStep(s, s.sessions[c], FinishJoinAction(s, c))
  {
  }

  lemma {:induction false} TailSends(s: Server, l: Label)
    requires !(l.JoinRequest? || l.LeaveRequest? || l.EventRequest? || l.Stop?)
    requires ActionOf(s, l).Act? && ActionOf(s, l).c in s.sessions
    requires TodoOwn(s.rooms, ActionOf(s, l).c, s.sessions[ActionOf(s, l).c])
    ensures SendStep(s, s.sessions[ActionOf(s, l).c], ActionOf(s, l))
  {
    match l
    case CheckEmpty(c) => SavingSends(s, c, ActionOf(s, l));
    case TakeSnapshot(c) => SavingSends(s, c, ActionOf(s, l));
    case Push(c) => SavingSends(s, c, ActionOf(s, l));
    case Post(c, to) => PostSends(s, c, to);
    case NextEntry(c) => EndingSends(s, c);
    case Finish(c) => EndingSends(s, c);
    case FinishJoin(c) => EndingSends(s, c);
    case _ =>
  }

  lemma {:induction false} NextSends(s: Server, l: Label)
    requires RoomsInv(s) && ActionOf(s, l).Act? && ActionOf(s, l).c in s.sessions
    requires TodoOwn(s.rooms, ActionOf(s, l).c, s.sessions[ActionOf(s, l).c])
    ensures SendStep(s, s.sessions[ActionOf(s, l).c], ActionOf(s, l))
  {
    match l
    case JoinRequest(c, r) => JoinSends(s, c, r);
    case LeaveRequest(c, r) => LeaveSends(s, c, r);
    case EventRequest(c, r, event, now) => EventSends(s, c, r, event, now);
    case Stop(c) => if StopAction(s, c).cmd.Some? { StopSends(s, c); } else { StopWithoutRoomSends(s, c); }
    case _ => TailSends(s, l);
  }

  // ----- What every step keeps -----

  lemma {:induction false} InboxesKept(s: Server, a: Action, m: ClientId)
    requires Grown(s.rooms, Perform(s, a).rooms) && InboxKnown(s.rooms, m, s.Inbox(m))
    requires a.Act? ==> a.c in s.sessions && SendStep(s, s.sessions[a.c], a)
    ensures InboxKnown(Perform(s, a).rooms, m, Perform(s, a).Inbox(m))
  {
  }

  lemma {:induction false} TodoKept(s: Server, a: Action, d: ClientId)
    requires Grown(s.rooms, Perform(s, a).rooms) && s.nextClientId !in s.sessions && d in Perform(s, a).sessions
    requires d in s.sessions ==> TodoOwn(s.rooms, d, s.sessions[d])
    requires a.Act? ==> a.c in s.sessions && SendStep(s, s.sessions[a.c], a)
    ensures TodoOwn(Perform(s, a).rooms, d, Perform(s, a).sessions[d])
  {
    if d !in s.sessions {
      assert Perform(s, a).sessions[d] == NEW_SESSION;
    } else if a.Act? && d == a.c {
      assert Perform(s, a).sessions[d] == a.x && Perform(s, a).rooms == RunCommand(s.rooms, a.cmd);
    } else {
      assert Perform(s, a).sessions[d] == s.sessions[d];
    }
  }

  lemma {:induction false} TrafficKept(s: Server, a: Action)
    requires TrafficInv(s) && s.nextRoomId !in s.rooms && s.nextClientId !in s.sessions
    requires Grown(s.rooms, Perform(s, a).rooms)
    requires a.Act? ==> a.c in s.sessions && SendStep(s, s.sessions[a.c], a)
    ensures TrafficInv(Perform(s, a))
  {
    var s' := Perform(s, a);
    forall m ensures InboxKnown(s'.rooms, m, s'.Inbox(m)) {
      InboxesKept(s, a, m);
    }
    forall d | d in s'.sessions ensures TodoOwn(s'.rooms, d, s'.sessions[d]) {
      TodoKept(s, a, d);
    }
  }

  /** A member's base outlives every step but the member's own next join or leave. */
  lemma {:induction false} BaseKept(s: Server, a: Action, m: ClientId)
    requires RoomsInv(s) && s.nextRoomId !in s.rooms
    requires a.Act? ==> a.c in s.sessions && LocalStep(s.rooms, s.sessions[a.c], a)
    requires m in s.base ==> BaseOk(s, m)
    requires m in Perform(s, a).base
    ensures BaseOk(Perform(s, a), m)
  {
    if a.Act? && a.cmd.Some? {
      var (r, cmd) := a.cmd.value;
      if cmd == Join(m) {
        FreshBaseOk(s, a, m);
      } else {
        OldBaseOk(s, a, m);
      }
    }
  }

  lemma FreshBaseOk(s: Server, a: Action, m: ClientId)
    requires a.Act? && a.c == m && m in s.sessions
    requires a.cmd.Some? && a.cmd.value.0 in s.rooms && a.cmd.value.1 == Join(m) && HistoryInv(s.rooms[a.cmd.value.0])
    ensures m in Perform(s, a).base && BaseOk(Perform(s, a), m)
  {
    MembersAfter(s.rooms[a.cmd.value.0].room, Join(m));
    FreshBase(s.rooms[a.cmd.value.0], m);
  }

  lemma OldBaseOk(s: Server, a: Action, m: ClientId)
    requires a.Act? && a.c in s.sessions
    requires a.cmd.Some? && a.cmd.value.0 in s.rooms && a.cmd.value.1 != Join(m) && a.cmd.value.1.client == a.c
    requires m in s.base ==> BaseOk(s, m)
    requires m in Perform(s, a).base
    ensures BaseOk(Perform(s, a), m)
  {
    var (r, cmd) := a.cmd.value;
    MembersAfter(s.rooms[r].room, cmd);
    if s.base[m].room == r {
      OldBase(s.rooms[r], cmd, m, s.base[m].lastSeq);
    }
  }

  lemma FreshBase(h: History, m: ClientId)
    requires HistoryInv(h)
    ensures
      var h' := Step(h, Join(m));
      && h'.log == h.log && h'.room.LastSeq() == |h'.log|
      && h'.room.board == Replay(EMPTY_BOARD, Payloads(h'.log[..|h'.log|]))
  {
    assert h.log + [] == h.log;
    assert h.log[..|h.log|] == h.log;
  }

  lemma OldBase(h: History, cmd: Command, m: ClientId, n: Seq)
    requires m in h.room.members && n <= |h.log| && cmd != Leave(m)
    requires forall i :: n <= i < |h.log| ==> Reaches(h.log[i], m)
    ensures
      var h' := Step(h, cmd);
      && h'.log[..n] == h.log[..n]
      && forall i :: n <= i < |h'.log| ==> Reaches(h'.log[i], m)
  {
    StepFansOut(h.room, cmd);
    var h' := Step(h, cmd);
    forall i | n <= i < |h'.log| ensures Reaches(h'.log[i], m) {
      if i < |h.log| {
        assert h'.log[i] == h.log[i] && Reaches(h.log[i], m);
      } else {
        assert h'.log[i] == Added(Execute(h.room, cmd))[i - |h.log|];
      }
    }
  }

  lemma {:induction false} LastSnapshotConcat(a: seq<Message>, b: seq<Message>)
    ensures LastSnapshot(a + b) == if LastSnapshot(b).Some? then LastSnapshot(b) else LastSnapshot(a)
  {
    if b == [] {
      assert a + b == a;
    } else {
      assert (a + b)[..|a + b| - 1] == a + b[..|b| - 1];
      LastSnapshotConcat(a, b[..|b| - 1]);
    }
  }

  lemma OneMessage(msg: Message, r: RoomId, lastSeq: Seq)
    ensures LastSnapshot([msg]) == if msg.SnapshotMsg? then Some(msg) else None
    ensures Events([msg], r, lastSeq) == if msg.EventMsg? && msg.room == r && lastSeq < msg.seqNo then [msg.payload] else []
  {
    assert [msg][..0] == [];
  }

  /** An event slipped in changes no snapshot. */
  lemma EventIsNoSnapshot(a: seq<Message>, msg: Message, b: seq<Message>)
    requires msg.EventMsg?
    ensures LastSnapshot(a + [msg] + b) == LastSnapshot(a + b)
  {
    LastSnapshotConcat(a, [msg]);
    OneMessage(msg, 0, 0);
    LastSnapshotConcat(a + [msg], b);
    LastSnapshotConcat(a, b);
  }

  lemma CommandSnapshotKept(s: Server, a: Action, m: ClientId)
    requires a.Act? && a.c == m && m in s.sessions && a.cmd.Some? && SendStep(s, s.sessions[m], a)
    requires m in s.base ==> SnapshotOnTheWay(s, m)
    requires m in Perform(s, a).base
    ensures SnapshotOnTheWay(Perform(s, a), m)
  {
    var s' := Perform(s, a);
    var own := OwnSnapshot(a.x);
    if a.cmd.value.1.Join? {
      LastSnapshotConcat(s.Inbox(m), own);
      OneMessage(own[0], 0, 0);
    } else {
      assert ToItself(s', m) == ToItself(s, m);
    }
  }

  lemma PostedTo(s: Server, a: Action, m: ClientId)
    requires a.Act? && a.c in s.sessions && a.cmd.None? && a.post.Some? && a.post.value.0 == m && m in s.sessions
    requires SendStep(s, s.sessions[a.c], a)
    ensures LastSnapshot(ToItself(Perform(s, a), m)) == LastSnapshot(ToItself(s, m))
  {
    var s' := Perform(s, a);
    var msg := a.post.value.1;
    if msg.SnapshotMsg? {
      assert ToItself(s', m) == ToItself(s, m);
    } else {
      EventIsNoSnapshot(s.Inbox(m), msg, OwnSnapshot(s.sessions[m]));
    }
  }

  lemma {:induction false} SnapshotKept(s: Server, a: Action, m: ClientId)
    requires a.Act? ==> a.c in s.sessions && SendStep(s, s.sessions[a.c], a)
    requires m in s.base ==> SnapshotOnTheWay(s, m)
    requires m in Perform(s, a).base && m in s.sessions && s.nextClientId !in s.sessions
    ensures SnapshotOnTheWay(Perform(s, a), m)
  {
    if a.Act? && a.c == m && a.cmd.Some? {
      CommandSnapshotKept(s, a, m);
    } else if a.Act? && a.post.Some? && a.post.value.0 == m {
      PostedTo(s, a, m);
    } else {
      assert ToItself(Perform(s, a), m) == ToItself(s, m);
    }
  }

  // ----- Every author's events are accounted for -----

  lemma Associative<T>(a: seq<T>, b: seq<T>, c: seq<T>)
    ensures a + b + c == a + (b + c)
  {
  }

  lemma ToPostHead(q: RoomId, todo: seq<Entry>, m: ClientId, r: RoomId, lastSeq: Seq)
    requires todo != []
    ensures Events(ToPost(q, todo, m), r, lastSeq) ==
            (if m in todo[0].recipients && q == r && lastSeq < todo[0].seqNo then [todo[0].payload] else [])
            + Events(ToPost(q, todo[1..], m), r, lastSeq)
  {
    var msg := EventMsg(q, todo[0].seqNo, todo[0].payload);
    if m in todo[0].recipients {
      EventsConcat([msg], ToPost(q, todo[1..], m), r, lastSeq);
      OneMessage(msg, r, lastSeq);
    } else {
      EventsConcat([], ToPost(q, todo[1..], m), r, lastSeq);
    }
  }

  lemma {:induction false} ToPostEvents(q: RoomId, todo: seq<Entry>, m: ClientId, lastSeq: Seq)
    requires forall i :: 0 <= i < |todo| ==> m in todo[i].recipients && lastSeq < todo[i].seqNo
    ensures Events(ToPost(q, todo, m), q, lastSeq) == Payloads(todo)
  {
    if todo != [] {
      ToPostHead(q, todo, m, q, lastSeq);
      ToPostEvents(q, todo[1..], m, lastSeq);
    }
  }

  lemma TailGrows(rooms: map<RoomId, History>, q: RoomId, cmd: Command, r: RoomId, lastSeq: Seq)
    requires q in rooms && r in rooms && lastSeq <= |rooms[r].log|
    ensures
      var added := Payloads(Added(Execute(rooms[q].room, cmd)));
      Tail(rooms[q := Step(rooms[q], cmd)], r, lastSeq) == Tail(rooms, r, lastSeq) + (if q == r then added else [])
  {
    if q == r {
      LogGrows(rooms[q].log, Added(Execute(rooms[q].room, cmd)), lastSeq);
    }
  }

  lemma LogGrows(log: seq<Entry>, added: seq<Entry>, n: Seq)
    requires n <= |log|
    ensures Payloads((log + added)[n..]) == Payloads(log[n..]) + Payloads(added)
  {
  }

  lemma {:induction false} ToPostKnown(q: RoomId, todo: seq<Entry>, m: ClientId, r: RoomId, lastSeq: Seq)
    requires q == r ==> forall i :: 0 <= i < |todo| ==> todo[i].seqNo <= lastSeq
    ensures Events(ToPost(q, todo, m), r, lastSeq) == []
  {
    if todo != [] {
      ToPostHead(q, todo, m, r, lastSeq);
      ToPostKnown(q, todo[1..], m, r, lastSeq);
    }
  }

  lemma ToPostOf(q: RoomId, added: seq<Entry>, m: ClientId, r: RoomId, lastSeq: Seq)
    requires q == r ==> forall i :: 0 <= i < |added| ==> m in added[i].recipients && lastSeq < added[i].seqNo
    ensures Events(ToPost(q, added, m), r, lastSeq) == if q == r then Payloads(added) else []
  {
    if q == r {
      ToPostEvents(q, added, m, lastSeq);
    } else {
      ToPostKnown(q, added, m, r, lastSeq);
    }
  }

  lemma {:induction false} ToPostNothing(q: RoomId, todo: seq<Entry>, m: ClientId)
    requires forall i :: 0 <= i < |todo| ==> m !in todo[i].recipients
    ensures ToPost(q, todo, m) == []
  {
    if todo != [] {
      ToPostNothing(q, todo[1..], m);
    }
  }

  lemma {:induction false} NothingLater(msgs: seq<Message>, r: RoomId, lastSeq: Seq)
    requires forall i :: 0 <= i < |msgs| && msgs[i].EventMsg? && msgs[i].room == r ==> msgs[i].seqNo <= lastSeq
    ensures Events(msgs, r, lastSeq) == []
  {
    if msgs != [] {
      NothingLater(msgs[..|msgs| - 1], r, lastSeq);
    }
  }

  // ----- A step without a command -----

  /** What a step posts to `m` of the events it waits for: at most one. */
  function Front(s: Server, a: Action, m: ClientId): seq<Payload> {
    if a.Act? && a.post.Some? && a.post.value.0 == m && a.post.value.1.EventMsg? &&
       s.Awaits(m, a.post.value.1.room, a.post.value.1.seqNo)
    then [a.post.value.1.payload] else []
  }

  predicate Runs(a: Action) {
    a.Act? && a.cmd.Some?
  }

  /** It moves what it posts from what is coming to what has been seen, and nothing else. */
  lemma MoveSees(s: Server, a: Action, m: ClientId)
    requires !Runs(a) && (a.Act? ==> a.c in s.sessions && SendStep(s, s.sessions[a.c], a))
    requires m in s.base && s.base[m].SnapshotMsg? && m in s.registered && s.nextClientId !in s.sessions
    ensures
      var s' := Perform(s, a);
      && s'.base == s.base
      && s'.Seen(m) == s.Seen(m) + Front(s, a, m)
      && (a.Act? ==> Coming(s, a.c, m) == Front(s, a, m) + Coming(s', a.c, m))
      && (forall d :: !(a.Act? && d == a.c) ==> Coming(s', d, m) == Coming(s, d, m))
      && (forall p :: p in Front(s, a, m) ==> a.Act? && p.Author() == a.c != m)
  {
    var s' := Perform(s, a);
    if a.Act? {
      MoveComing(s, a, m);
    }
    forall d | !(a.Act? && d == a.c) ensures Coming(s', d, m) == Coming(s, d, m) {
      assert OutgoingOf(s', d, m) == OutgoingOf(s, d, m);
    }
    assert s.Seen(m) + [] == s.Seen(m);
  }

  lemma NothingFirst<T>(s: seq<T>)
    ensures [] + s == s
  {
  }

  lemma {:induction false} MoveComing(s: Server, a: Action, m: ClientId)
    requires a.Act? && a.cmd.None? && a.c in s.sessions && SendStep(s, s.sessions[a.c], a)
    requires m in s.base && s.base[m].SnapshotMsg? && m in s.registered
    ensures Perform(s, a).base == s.base
    ensures Coming(s, a.c, m) == Front(s, a, m) + Coming(Perform(s, a), a.c, m)
  {
    var b := s.base[m];
    var left := Outgoing(a.x, m);
    assert Coming(Perform(s, a), a.c, m) == Events(left, b.room, b.lastSeq);
    if a.post.Some? && a.post.value.1.EventMsg? && a.post.value.0 == m {
      EventsConcat([a.post.value.1], left, b.room, b.lastSeq);
      OneMessage(a.post.value.1, b.room, b.lastSeq);
    } else {
      NothingFirst(left);
      NothingFirst(Events(left, b.room, b.lastSeq));
    }
  }

  lemma {:induction false} AllByOne(ps: seq<Payload>, b: ClientId, a: ClientId)
    requires forall i :: 0 <= i < |ps| ==> ps[i].Author() == b
    ensures By(ps, a) == if a == b then ps else []
  {
    if ps != [] {
      AllByOne(ps[..|ps| - 1], b, a);
    }
  }

  /** Events of author `b`, moved from what is coming to what has been seen. */
  lemma SeenMoves(seen: seq<Payload>, front: seq<Payload>, coming: seq<Payload>, coming': seq<Payload>, tail: seq<Payload>,
                  b: ClientId, a: ClientId)
    requires forall i :: 0 <= i < |front| ==> front[i].Author() == b
    requires coming == if a == b then front + coming' else coming'
    requires By(seen, a) + coming == tail
    ensures By(seen + front, a) + coming' == tail
  {
    SelectConcat(seen, front, HasAuthor(a));
    AllByOne(front, b, a);
    if a == b {
      Associative(By(seen, a), front, coming');
    } else {
      assert By(seen, a) + [] == By(seen, a);
    }
  }

  lemma {:induction false} AccountedMove(s: Server, a: Action, d: ClientId, m: ClientId)
    requires !Runs(a) && (a.Act? ==> a.c in s.sessions && SendStep(s, s.sessions[a.c], a))
    requires m in s.base && s.base[m].SnapshotMsg? && m in s.registered && s.nextClientId !in s.sessions
    requires s.base[m].room in s.rooms && s.nextRoomId !in s.rooms && Accounted(s, d, m)
    ensures m in Perform(s, a).base && Perform(s, a).base[m] == s.base[m] && Accounted(Perform(s, a), d, m)
  {
    MoveSees(s, a, m);
    var s' := Perform(s, a);
    var front := Front(s, a, m);
    var tail := Tail(s.rooms, s.base[m].room, s.base[m].lastSeq);
    assert Tail(s'.rooms, s.base[m].room, s.base[m].lastSeq) == tail;
    AccountedAcross(s, s', front, if a.Act? then a.c else d, a.Act?, d, m);
  }

  lemma {:induction false} AccountedAcross(s: Server, s': Server, front: seq<Payload>, c: ClientId, acts: bool, d: ClientId, m: ClientId)
    requires m in s.base && s.base[m].SnapshotMsg? && s'.base == s.base && s'.Seen(m) == s.Seen(m) + front
    requires Tail(s'.rooms, s.base[m].room, s.base[m].lastSeq) == Tail(s.rooms, s.base[m].room, s.base[m].lastSeq)
    requires Coming(s, d, m) == if acts && d == c then front + Coming(s', d, m) else Coming(s', d, m)
    requires (front != [] ==> acts) && forall p :: p in front ==> p.Author() == c
    requires Accounted(s, d, m)
    ensures Accounted(s', d, m)
  {
    if acts {
      SeenMoves(s.Seen(m), front, Coming(s, d, m), Coming(s', d, m), By(Tail(s.rooms, s.base[m].room, s.base[m].lastSeq), d), c, d);
    } else {
      assert s.Seen(m) + front == s.Seen(m);
    }
  }

  lemma PostNoticed(seen: seq<Payload>, inbox: seq<Message>, msg: Message, m: ClientId, r: RoomId, lastSeq: Seq)
    requires Select(seen, NotAuthor(m)) == Events(inbox, r, lastSeq)
    requires msg.EventMsg? ==> msg.payload.Author() != m
    ensures Select(seen + Events([msg], r, lastSeq), NotAuthor(m)) == Events(inbox + [msg], r, lastSeq)
  {
    EventsConcat(inbox, [msg], r, lastSeq);
    OneMessage(msg, r, lastSeq);
    SelectConcat(seen, Events([msg], r, lastSeq), NotAuthor(m));
    OneSelected(Events([msg], r, lastSeq), m);
  }

  lemma PostedToOther(s: Server, a: Action, m: ClientId)
    requires !Runs(a) && !(a.Act? && a.post.Some? && a.post.value.0 == m)
    ensures Perform(s, a).base == s.base && Perform(s, a).Inbox(m) == s.Inbox(m) && Perform(s, a).Seen(m) == s.Seen(m)
  {
  }

  lemma PostedToMember(s: Server, a: Action, m: ClientId, msg: Message)
    requires a.Act? && a.cmd.None? && a.post == Some((m, msg))
    requires m in s.base && s.base[m].SnapshotMsg?
    ensures Perform(s, a).base == s.base && Perform(s, a).Inbox(m) == s.Inbox(m) + [msg]
    ensures Perform(s, a).Seen(m) == s.Seen(m) + Events([msg], s.base[m].room, s.base[m].lastSeq)
  {
    OneMessage(msg, s.base[m].room, s.base[m].lastSeq);
    assert s.Seen(m) + [] == s.Seen(m);
  }

  /** What is posted to `m` shows up in its inbox and among what it has seen. */
  lemma NoticedMove(s: Server, a: Action, m: ClientId)
    requires !Runs(a) && (a.Act? ==> a.c in s.sessions && SendStep(s, s.sessions[a.c], a))
    requires m in s.base && s.base[m].SnapshotMsg? && Noticed(s, m)
    ensures m in Perform(s, a).base && Perform(s, a).base[m] == s.base[m] && Noticed(Perform(s, a), m)
  {
    if a.Act? && a.post.Some? && a.post.value.0 == m {
      var b, msg := s.base[m], a.post.value.1;
      PostedToMember(s, a, m, msg);
      assert Genuine(s.rooms, a.c, m, msg);
      PostNoticed(s.Seen(m), s.Inbox(m), msg, m, b.room, b.lastSeq);
    } else {
      PostedToOther(s, a, m);
    }
  }

  lemma OneSelected(front: seq<Payload>, m: ClientId)
    requires |front| <= 1 && forall p :: p in front ==> p.Author() != m
    ensures Select(front, NotAuthor(m)) == front
  {
    if front != [] {
      assert front == [front[0]] && front[0] in front && [front[0]][..0] == [];
    }
  }

  // ----- A step with a command -----

  /** The member's own join: nothing posted or coming belongs to what it waits for now. */
  lemma JoinSees(s: Server, a: Action, m: ClientId, d: ClientId)
    requires TrafficInv(s) && Runs(a) && a.c == m && m in s.sessions && SendStep(s, s.sessions[m], a)
    requires a.cmd.value.1 == Join(m)
    requires Step(s.rooms[a.cmd.value.0], Join(m)).room.LastSeq() == |s.rooms[a.cmd.value.0].log|
    ensures
      var s' := Perform(s, a);
      && m in s'.base && s'.base[m].SnapshotMsg? && s'.Seen(m) == [] && Coming(s', d, m) == []
      && Tail(s'.rooms, s'.base[m].room, s'.base[m].lastSeq) == []
      && Accounted(s', d, m) && Noticed(s', m)
  {
    var s' := Perform(s, a);
    var r := a.cmd.value.0;
    var n := |s.rooms[r].log|;
    assert Step(s.rooms[r], Join(m)).log == s.rooms[r].log + [];
    assert InboxKnown(s.rooms, m, s.Inbox(m));
    NothingLater(s.Inbox(m), r, n);
    if d != m && d in s.sessions && !s.sessions[d].pc.Idle? && !s.sessions[d].pc.Joined? {
      assert TodoOwn(s.rooms, d, s.sessions[d]);
      ToPostKnown(s.sessions[d].pc.room, s.sessions[d].pc.todo, m, r, n);
    }
  }

  /** A command that leaves the member's base as it is: what it adds to the member's room has been seen if the member
      sent it, and is coming otherwise. */
  lemma {:induction false} OthersComing(s: Server, a: Action, m: ClientId)
    requires Runs(a) && a.c in s.sessions && m in s.base && s.base[m].SnapshotMsg?
    requires m in Perform(s, a).base && Perform(s, a).base[m] == s.base[m]
    ensures forall d :: d != a.c ==> Coming(Perform(s, a), d, m) == Coming(s, d, m)
  {
    forall d | d != a.c ensures Coming(Perform(s, a), d, m) == Coming(s, d, m) {
      assert OutgoingOf(Perform(s, a), d, m) == OutgoingOf(s, d, m);
    }
  }

  lemma {:induction false} CommandComing(s: Server, a: Action, m: ClientId, coming: seq<Payload>)
    requires Runs(a) && a.c in s.sessions && SendStep(s, s.sessions[a.c], a)
    requires m in s.base && s.base[m].SnapshotMsg? && m in Perform(s, a).base && Perform(s, a).base[m] == s.base[m]
    requires
      var (q, cmd) := a.cmd.value;
      Events(ToPost(q, Added(Execute(s.rooms[q].room, cmd)), m), s.base[m].room, s.base[m].lastSeq) == coming
    ensures Coming(s, a.c, m) == [] && Coming(Perform(s, a), a.c, m) == coming
  {
    assert Outgoing(s.sessions[a.c], m) == [];
    assert Perform(s, a).sessions[a.c] == a.x;
  }

  lemma {:induction false} CommandSees(s: Server, a: Action, m: ClientId)
    requires Runs(a) && a.c in s.sessions && SendStep(s, s.sessions[a.c], a)
    requires m in s.base && s.base[m].SnapshotMsg? && s.base[m].room in s.rooms && s.base[m].lastSeq <= |s.rooms[s.base[m].room].log|
    requires m in s.rooms[s.base[m].room].room.members
    requires |s.rooms[a.cmd.value.0].log| == s.rooms[a.cmd.value.0].room.LastSeq() && 1 <= s.rooms[a.cmd.value.0].room.nextSeq
    requires a.cmd.value.1 != Join(m) && a.cmd.value.1 != Leave(m)
    requires a.c == m ==> a.cmd.value.0 == s.base[m].room
    ensures
      var s' := Perform(s, a);
      var (q, cmd) := a.cmd.value;
      var b := s.base[m];
      var added' := if q == b.room then Payloads(Added(Execute(s.rooms[q].room, cmd))) else [];
      && m in s'.base && s'.base[m] == b
      && Tail(s'.rooms, b.room, b.lastSeq) == Tail(s.rooms, b.room, b.lastSeq) + added'
      && s'.Seen(m) == s.Seen(m) + (if a.c == m then added' else [])
      && Coming(s, a.c, m) == [] && Coming(s', a.c, m) == (if a.c == m then [] else added')
      && (forall d :: d != a.c ==> Coming(s', d, m) == Coming(s, d, m))
      && (forall i :: 0 <= i < |added'| ==> added'[i].Author() == a.c)
  {
    var s' := Perform(s, a);
    var (q, cmd) := a.cmd.value;
    var b := s.base[m];
    var added := Added(Execute(s.rooms[q].room, cmd));
    TailGrows(s.rooms, q, cmd, b.room, b.lastSeq);
    StepFansOut(s.rooms[q].room, cmd);
    if a.c == m {
      ToPostNothing(q, added, m);
    } else {
      ToPostOf(q, added, m, b.room, b.lastSeq);
      assert s.Seen(m) + [] == s.Seen(m);
    }
    CommandComing(s, a, m, if a.c == m || q != b.room then [] else Payloads(added));
    OthersComing(s, a, m);
  }

  /** New events of author `c` join the tail and what has been seen, or what is coming. */
  lemma SeenGrows(seen: seq<Payload>, coming: seq<Payload>, tail: seq<Payload>, added': seq<Payload>, c: ClientId, own: bool, a: ClientId)
    requires forall i :: 0 <= i < |added'| ==> added'[i].Author() == c
    requires By(seen, a) + coming == By(tail, a) && (a == c ==> coming == [])
    ensures By(seen + (if own then added' else []), a) + (if a == c && !own then added' else coming) == By(tail + added', a)
  {
    SelectConcat(tail, added', HasAuthor(a));
    SelectConcat(seen, added', HasAuthor(a));
    AllByOne(added', c, a);
    assert seen + [] == seen;
    if a == c {
      assert By(seen, a) + [] == By(seen, a) && By(seen, a) + added' + [] == By(seen, a) + added';
    } else {
      assert By(seen, a) + [] == By(seen, a) && By(tail, a) + [] == By(tail, a);
    }
  }

  lemma AccountedCommand(s: Server, a: Action, d: ClientId, m: ClientId)
    requires Runs(a) && a.c in s.sessions && SendStep(s, s.sessions[a.c], a)
    requires m in s.base && s.base[m].SnapshotMsg? && s.base[m].room in s.rooms && s.base[m].lastSeq <= |s.rooms[s.base[m].room].log|
    requires m in s.rooms[s.base[m].room].room.members
    requires |s.rooms[a.cmd.value.0].log| == s.rooms[a.cmd.value.0].room.LastSeq() && 1 <= s.rooms[a.cmd.value.0].room.nextSeq
    requires a.cmd.value.1 != Join(m) && a.cmd.value.1 != Leave(m)
    requires a.c == m ==> a.cmd.value.0 == s.base[m].room
    requires Accounted(s, d, m)
    ensures m in Perform(s, a).base && Perform(s, a).base[m] == s.base[m] && Accounted(Perform(s, a), d, m)
  {
    CommandSees(s, a, m);
    var (q, cmd) := a.cmd.value;
    var b := s.base[m];
    var added' := if q == b.room then Payloads(Added(Execute(s.rooms[q].room, cmd))) else [];
    SeenGrows(s.Seen(m), Coming(s, d, m), Tail(s.rooms, b.room, b.lastSeq), added', a.c, a.c == m, d);
  }

  lemma NoticedCommand(s: Server, a: Action, m: ClientId)
    requires Runs(a) && a.c in s.sessions && SendStep(s, s.sessions[a.c], a)
    requires m in s.base && s.base[m].SnapshotMsg? && Noticed(s, m)
    requires a.cmd.value.1 != Join(m) && a.cmd.value.1 != Leave(m)
    ensures m in Perform(s, a).base && Perform(s, a).base[m] == s.base[m] && Noticed(Perform(s, a), m)
  {
    var (q, cmd) := a.cmd.value;
    if a.c == m && s.Awaits(m, q, s.rooms[q].room.nextSeq) {
      var added' := Payloads(Added(Execute(s.rooms[q].room, cmd)));
      StepFansOut(s.rooms[q].room, cmd);
      SelectConcat(s.Seen(m), added', NotAuthor(m));
      SelectNone(added', NotAuthor(m));
      var before := Select(s.Seen(m), NotAuthor(m));
      assert before + [] == before;
    }
  }

  /** What holds of one member's deliveries. */
  ghost predicate MemberServed(s: Server, m: ClientId) {
    m in s.base ==>
      && BaseOk(s, m)
      && SnapshotOnTheWay(s, m)
      && EventsServed(s, m)
  }

  ghost predicate DeliveryInv(s: Server) {
    TrafficInv(s) && forall m :: MemberServed(s, m)
  }

  ghost predicate EventsServed(s: Server, m: ClientId) {
    && m in s.base && s.base[m].SnapshotMsg? && Noticed(s, m)
    && (m in s.registered ==> forall d :: Accounted(s, d, m))
  }

  lemma JoinServes(s: Server, a: Action, m: ClientId)
    requires TrafficInv(s) && Runs(a) && a.c == m && m in s.sessions && SendStep(s, s.sessions[m], a)
    requires a.cmd.value.1 == Join(m) && HistoryInv(s.rooms[a.cmd.value.0])
    ensures EventsServed(Perform(s, a), m)
  {
    FreshBase(s.rooms[a.cmd.value.0], m);
    JoinSees(s, a, m, m);
    forall d ensures Accounted(Perform(s, a), d, m) {
      JoinSees(s, a, m, d);
    }
  }

  lemma CommandServes(s: Server, a: Action, m: ClientId)
    requires Runs(a) && a.c in s.sessions && SendStep(s, s.sessions[a.c], a) && HistoryInv(s.rooms[a.cmd.value.0])
    requires a.cmd.value.1 != Join(m) && a.cmd.value.1 != Leave(m)
    requires m in s.base && BaseOk(s, m) && EventsServed(s, m)
    requires a.c == m ==> a.cmd.value.0 == s.base[m].room
    ensures EventsServed(Perform(s, a), m)
  {
    NoticedCommand(s, a, m);
    if m in s.registered {
      forall d ensures Accounted(Perform(s, a), d, m) {
        AccountedCommand(s, a, d, m);
      }
    }
  }

  lemma MoveServes(s: Server, a: Action, m: ClientId)
    requires !Runs(a) && (a.Act? ==> a.c in s.sessions && SendStep(s, s.sessions[a.c], a))
    requires s.nextRoomId !in s.rooms && s.nextClientId !in s.sessions
    requires m in s.base && BaseOk(s, m) && EventsServed(s, m)
    ensures EventsServed(Perform(s, a), m)
  {
    NoticedMove(s, a, m);
    assert m in Perform(s, a).registered ==> m in s.registered;
    if m in s.registered {
      forall d ensures Accounted(Perform(s, a), d, m) {
        AccountedMove(s, a, d, m);
      }
    }
  }

  lemma {:induction false} EventsKept(s: Server, a: Action, m: ClientId)
    requires RoomsInv(s) && TrafficInv(s) && s.nextRoomId !in s.rooms && s.nextClientId !in s.sessions
    requires a.Act? ==> a.c in s.sessions && SendStep(s, s.sessions[a.c], a)
    requires m in s.base ==> BaseOk(s, m) && EventsServed(s, m)
    requires m in Perform(s, a).base
    requires Runs(a) && a.c == m && a.cmd.value.1 != Join(m) ==> m in s.base && a.cmd.value.0 == s.base[m].room
    ensures EventsServed(Perform(s, a), m)
  {
    if Runs(a) && a.cmd.value.1 == Join(m) {
      JoinServes(s, a, m);
    } else if Runs(a) {
      CommandServes(s, a, m);
    } else {
      MoveServes(s, a, m);
    }
  }

  lemma OwnRoom(s: Server, a: Action, m: ClientId)
    requires SessionsInv(s) && Runs(a) && a.c == m && m in s.sessions && LocalStep(s.rooms, s.sessions[m], a)
    requires m in s.base ==> BaseOk(s, m)
    requires m in Perform(s, a).base && a.cmd.value.1 != Join(m)
    ensures m in s.base && a.cmd.value.0 == s.base[m].room
  {
    assert Inside(s.sessions[m]) == Some(a.cmd.value.0);
    assert Inside(s.sessions[m]) == Some(s.base[m].room);
  }

  lemma {:induction false} SnapshotStays(s: Server, a: Action, m: ClientId)
    requires AgreementInv(s) && MemberServed(s, m) && m in Perform(s, a).base
    requires a.Act? ==> a.c in s.sessions && LocalStep(s.rooms, s.sessions[a.c], a) && SendStep(s, s.sessions[a.c], a)
    ensures SnapshotOnTheWay(Perform(s, a), m)
  {
    SnapshotKept(s, a, m);
  }

  lemma {:induction false} EventsStay(s: Server, a: Action, m: ClientId)
    requires AgreementInv(s) && TrafficInv(s) && MemberServed(s, m) && m in Perform(s, a).base
    requires a.Act? ==> a.c in s.sessions && LocalStep(s.rooms, s.sessions[a.c], a) && SendStep(s, s.sessions[a.c], a)
    ensures EventsServed(Perform(s, a), m)
  {
    if Runs(a) && a.c == m && a.cmd.value.1 != Join(m) {
      OwnRoom(s, a, m);
    }
    EventsKept(s, a, m);
  }

  lemma {:induction false} ServedKept(s: Server, a: Action, m: ClientId)
    requires AgreementInv(s) && TrafficInv(s) && MemberServed(s, m)
    requires a.Act? ==> a.c in s.sessions && LocalStep(s.rooms, s.sessions[a.c], a) && SendStep(s, s.sessions[a.c], a)
    ensures MemberServed(Perform(s, a), m)
  {
    if m in Perform(s, a).base {
      BaseKept(s, a, m);
      SnapshotStays(s, a, m);
      EventsStay(s, a, m);
    }
  }

  lemma NextKeepsDelivery(s: Server, l: Label)
    requires AgreementInv(s) && DeliveryInv(s)
    ensures DeliveryInv(Next(s, l))
  {
    var a := ActionOf(s, l);
    if a.Act? {
      NextIsLocal(s, l);
      NextSends(s, l);
    }
    NextGrows(s, a);
    TrafficKept(s, a);
    forall m ensures MemberServed(Next(s, l), m) {
      ServedKept(s, a, m);
    }
  }

  lemma {:induction false} RunKeepsDelivery(s: Server, ls: seq<Label>)
    requires AgreementInv(s) && DeliveryInv(s)
    ensures AgreementInv(After(s, ls)) && DeliveryInv(After(s, ls))
    decreases |ls|
  {
    if ls != [] {
      NextKeepsAgreement(s, ls[0]);
      NextKeepsDelivery(s, ls[0]);
      RunKeepsDelivery(Next(s, ls[0]), ls[1..]);
    }
  }

  // ----- Convergence of the whole server -----

  /** No handler has anything left to post to the member. */
  ghost predicate AllPosted(s: Server, m: ClientId) {
    && (forall a :: OutgoingOf(s, a, m) == [])
    && m in s.sessions && !s.sessions[m].pc.Joined?
  }

  /** A way for the client to replay: what it received, each author's part in arrival order, with its own events in their order. */
  ghost predicate Merges(received: seq<Payload>, own: seq<Payload>, m: ClientId, merged: seq<Payload>) {
    By(merged, m) == own && forall a :: a != m ==> By(merged, a) == By(received, a)
  }

  lemma MergeIsArrival(s: Server, m: ClientId, merged: seq<Payload>)
    requires m in s.base && m in s.registered && MemberServed(s, m) && AllPosted(s, m)
    requires
      var b := s.base[m];
      Merges(Events(s.Inbox(m), b.room, b.lastSeq), By(Tail(s.rooms, b.room, b.lastSeq), m), m, merged)
    ensures KeepsAuthorOrder(Tail(s.rooms, s.base[m].room, s.base[m].lastSeq), merged)
  {
    var b := s.base[m];
    var tail := Tail(s.rooms, b.room, b.lastSeq);
    forall a ensures By(merged, a) == By(tail, a) {
      if a != m {
        AllSeen(s, m, a);
        SelectTwice(s.Seen(m), HasAuthor(a), NotAuthor(m));
      }
    }
  }

  lemma AllSeen(s: Server, m: ClientId, a: ClientId)
    requires m in s.base && m in s.registered && MemberServed(s, m) && OutgoingOf(s, a, m) == []
    ensures By(s.Seen(m), a) == By(Tail(s.rooms, s.base[m].room, s.base[m].lastSeq), a)
  {
    assert Accounted(s, a, m) && Coming(s, a, m) == [];
    assert By(s.Seen(m), a) + [] == By(s.Seen(m), a);
  }

  lemma TailFacts(h: History, n: Seq, board: Board)
    requires HistoryInv(h) && n <= |h.log| && board == Replay(EMPTY_BOARD, Payloads(h.log[..n]))
    ensures Increasing(h.room.board.strokes) && IdsByAuthor(Payloads(h.log[n..]))
    ensures Replay(board, Payloads(h.log[n..])) == h.room.board
  {
    OwnedIdsByAuthor(h, n);
    assert Payloads(h.log) == Payloads(h.log[..n]) + Payloads(h.log[n..]);
    ReplayConcat(EMPTY_BOARD, Payloads(h.log[..n]), Payloads(h.log[n..]));
  }

  lemma {:induction false} BaseIsLast(s: Server, m: ClientId)
    requires m in s.base && MemberServed(s, m) && AllPosted(s, m)
    ensures LastSnapshot(s.Inbox(m)) == Some(s.base[m]) && BaseOk(s, m)
  {
    assert ToItself(s, m) == s.Inbox(m);
  }

  lemma {:induction false} MergeShows(s: Server, m: ClientId, merged: seq<Payload>)
    requires RoomsInv(s) && m in s.base && m in s.registered && MemberServed(s, m) && AllPosted(s, m)
    requires
      var b := s.base[m];
      var tail := Tail(s.rooms, b.room, b.lastSeq);
      Merges(Events(s.Inbox(m), b.room, b.lastSeq), By(tail, m), m, merged) && ClearsHarmless(tail)
    ensures Shows(KeyedFold(KeyOf(s.base[m].state), merged), s.rooms[s.base[m].room].room.board)
  {
    var b := s.base[m];
    MergeIsArrival(s, m, merged);
    TailFacts(s.rooms[b.room], b.lastSeq, b.state);
    ShowsOnArrivals(b.state, s.rooms[b.room].room.board, Tail(s.rooms, b.room, b.lastSeq));
  }

  /** Convergence of the whole server, however late a client shows its own events: in every interleaving, once nothing is
      left to be posted to a registered member, its latest snapshot message, with the events posted to it (whether
      before or after that message) and its own accepted ones, merged in any way that keeps each author's order, shows
      its room's board, provided clears are harmless. Races says exactly when the order of the posts itself does. */
  lemma {:induction false} DeliveredBoard(ls: seq<Label>, m: ClientId, merged: seq<Payload>)
    requires
      var s := After(START, ls);
      && m in s.base && m in s.registered && AllPosted(s, m)
    ensures
      var s := After(START, ls);
      var snapshot := LastSnapshot(s.Inbox(m));
      && snapshot.Some? && snapshot.value.SnapshotMsg?
      && var SnapshotMsg(r, lastSeq, state) := snapshot.value;
         && r in s.rooms && m in s.rooms[r].room.members
         && var tail := Tail(s.rooms, r, lastSeq);
            (Merges(Events(s.Inbox(m), r, lastSeq), By(tail, m), m, merged) && ClearsHarmless(tail) ==>
               Shows(KeyedFold(KeyOf(state), merged), s.rooms[r].room.board))
  {
    var s := After(START, ls);
    RunKeepsDelivery(START, ls);
    assert MemberServed(s, m);
    BaseIsLast(s, m);
    if Merges(Events(s.Inbox(m), s.base[m].room, s.base[m].lastSeq), By(Tail(s.rooms, s.base[m].room, s.base[m].lastSeq), m), m, merged)
       && ClearsHarmless(Tail(s.rooms, s.base[m].room, s.base[m].lastSeq)) {
      MergeShows(s, m, merged);
    }
  }

  /** Every member of a room has a base there, so the theorem above speaks of all of them. */
  lemma MembersHaveBase(ls: seq<Label>, m: ClientId, r: RoomId)
    requires
      var s := After(START, ls);
      r in s.rooms && m in s.rooms[r].room.members
    ensures
      var s := After(START, ls);
      m in s.base && s.base[m].SnapshotMsg? && s.base[m].room == r
  {
    RunKeepsBases(START, ls);
    ReachableAgrees(ls);
    MembersAreInside(After(START, ls), m, r);
  }

  lemma MembersAreInside(s: Server, m: ClientId, r: RoomId)
    requires SessionsInv(s) && r in s.rooms && m in s.rooms[r].room.members
    ensures m in s.sessions && Inside(s.sessions[m]) == Some(r)
  {
  }

  ghost predicate BasesExist(s: Server) {
    forall c :: c in s.sessions && Inside(s.sessions[c]).Some? ==>
      c in s.base && s.base[c].SnapshotMsg? && s.base[c].room == Inside(s.sessions[c]).value
  }

  lemma {:induction false} RunKeepsBases(s: Server, ls: seq<Label>)
    requires AgreementInv(s) && BasesExist(s)
    ensures BasesExist(After(s, ls))
    decreases |ls|
  {
    if ls != [] {
      NextKeepsAgreement(s, ls[0]);
      if ActionOf(s, ls[0]).Act? {
        NextIsLocal(s, ls[0]);
      }
      ActionKeepsBases(s, ActionOf(s, ls[0]));
      RunKeepsBases(Next(s, ls[0]), ls[1..]);
    }
  }

  lemma ActionKeepsBases(s: Server, a: Action)
    requires BasesExist(s)
    requires a.Act? ==> a.c in s.sessions && LocalStep(s.rooms, s.sessions[a.c], a)
    ensures BasesExist(Perform(s, a))
  {
  }
}
