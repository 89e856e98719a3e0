/** Whether the last snapshot of an abandoned room that reaches the sink carries its final
    board. It does when nobody came back after the room had become empty; in general it does,
    however the handlers interleave, exactly when no leaver of an earlier time still holds an
    outdated snapshot. */
module Durability {
  import opened Types
  import opened RoomSpec
  import opened RoomInvariant
  import opened Convergence
  import opened Shell
  import opened Agreement
  import opened Saving

  /** The handler has left room `r` and has not pushed or skipped its snapshot yet. */
  predicate Leaving(x: Session, r: RoomId) {
    HasLeft(x.pc) && x.pc.room == r
  }

  ghost predicate SomeoneLeaving(sessions: map<ClientId, Session>, r: RoomId) {
    exists c :: c in sessions && Leaving(sessions[c], r)
  }

  /** Every leave handler of the room has run to the end of its core call. */
  ghost predicate Settled(s: Server, r: RoomId) {
    forall c :: c in s.sessions ==> !Leaving(s.sessions[c], r)
  }

  function LastPush(pushed: seq<PersistedSnapshot>, r: RoomId): Option<PersistedSnapshot> {
    if pushed == [] then None
    else if pushed[|pushed| - 1].room == r then Some(pushed[|pushed| - 1])
    else LastPush(pushed[..|pushed| - 1], r)
  }

  function Strokes(s: Server, r: RoomId): seq<Stroke>
    requires r in s.rooms
  {
    s.rooms[r].room.board.strokes
  }

  predicate Deserted(s: Server, r: RoomId) {
    r in s.rooms && s.rooms[r].room.members == {}
  }

  /** The last snapshot of the room given to the sink holds the strokes now on its board. */
  predicate Carries(s: Server, r: RoomId)
    requires r in s.rooms
  {
    LastPush(s.pushed, r).Some? && LastPush(s.pushed, r).value.strokes == Strokes(s, r)
  }

  predicate HoldsStale(x: Session, r: RoomId, strokes: seq<Stroke>) {
    x.pc.LeftSnap? && x.pc.room == r && x.pc.snap.strokes != strokes
  }

  /** No handler holds an outdated snapshot of the room that it has yet to push. */
  ghost predicate Fresh(s: Server, r: RoomId)
    requires r in s.rooms
  {
    forall c :: c in s.sessions ==> !HoldsStale(s.sessions[c], r, Strokes(s, r))
  }

  ghost predicate Quiet(s: Server, r: RoomId) {
    Deserted(s, r) && Fresh(s, r) && (Carries(s, r) || SomeoneLeaving(s.sessions, r))
  }

  predicate JoinsRoom(a: Action, r: RoomId) {
    a.Act? && a.cmd.Some? && a.cmd.value.0 == r && a.cmd.value.1.Join?
  }

  /** Nobody is admitted to the room during the run. */
  predicate NobodyEnters(s: Server, ls: seq<Label>, r: RoomId)
    decreases |ls|
  {
    ls == [] || (!JoinsRoom(ActionOf(s, ls[0]), r) && NobodyEnters(Next(s, ls[0]), ls[1..], r))
  }

  /** What a step does to its session's saving in a room nobody is in. */
  ghost predicate QuietStep(s: Server, x: Session, a: Action, r: RoomId)
    requires a.Act? && r in s.rooms
  {
    && (a.x.pc.LeftSnap? && a.x.pc.room == r ==> x.pc.LeftEmpty? && x.pc.room == r && a.x.pc.snap == Snap(r, s.rooms[r]))
    && (Leaving(x, r) && !Leaving(a.x, r) ==> x.pc.LeftSnap? && a.push == Some(x.pc.snap))
    && (a.push.Some? ==> (x.pc.LeftSnap? || x.pc.EndedSnap?) && a.push.value == x.pc.snap)
  }

  lemma SavingIsQuietStep(s: Server, c: ClientId, r: RoomId)
    requires Deserted(s, r)
    ensures CheckEmptyAction(s, c).Act? ==> QuietStep(s, s.sessions[c], CheckEmptyAction(s, c), r)
    ensures TakeSnapshotAction(s, c).Act? ==> QuietStep(s, s.sessions[c], TakeSnapshotAction(s, c), r)
    ensures PushAction(s, c).Act? ==> QuietStep(s, s.sessions[c], PushAction(s, c), r)
  {
  }

  lemma NextIsQuietStep(s: Server, l: Label, r: RoomId)
    requires Deserted(s, r) && ActionOf(s, l).Act?
    ensures ActionOf(s, l).c in s.sessions
    ensures QuietStep(s, s.sessions[ActionOf(s, l).c], ActionOf(s, l), r)
  {
    match l
    case CheckEmpty(c) => SavingIsQuietStep(s, c, r);
    case TakeSnapshot(c) => SavingIsQuietStep(s, c, r);
    case Push(c) => SavingIsQuietStep(s, c, r);
    case _ =>
  }

  lemma LastPushAfter(pushed: seq<PersistedSnapshot>, p: PersistedSnapshot, r: RoomId)
    ensures LastPush(pushed + [p], r) == if p.room == r then Some(p) else LastPush(pushed, r)
  {
    assert (pushed + [p])[..|pushed + [p]| - 1] == pushed;
  }

  /** In a deserted room only joins change anything. */
  lemma DesertedStays(s: Server, a: Action, r: RoomId)
    requires SessionsInv(s) && Deserted(s, r) && !JoinsRoom(a, r)
    requires a.Act? ==> a.c in s.sessions && LocalStep(s.rooms, s.sessions[a.c], a)
    ensures Deserted(Perform(s, a), r) && Perform(s, a).rooms[r] == s.rooms[r]
  {
    if a.Act? {
      assert Inside(s.sessions[a.c]) != Some(r);
    }
  }

  /** A leaver of the room goes away only by pushing the room's strokes. */
  lemma CarriesOrLeaving(s: Server, a: Action, r: RoomId)
    requires Quiet(s, r)
    requires r in Perform(s, a).rooms && Perform(s, a).rooms[r] == s.rooms[r] && s.nextClientId !in s.sessions
    requires a.Act? ==>
               && a.c in s.sessions && QuietStep(s, s.sessions[a.c], a, r)
               && SessionOk(s.rooms, s.sessions[a.c]) && SavingOk(s.rooms, s.sessions[a.c].pc)
               && Inside(s.sessions[a.c]) != Some(r)
    ensures Carries(Perform(s, a), r) || SomeoneLeaving(Perform(s, a).sessions, r)
  {
    var s' := Perform(s, a);
    if a.Act? && a.push.Some? {
      assert !HoldsStale(s.sessions[a.c], r, Strokes(s, r));
      LastPushAfter(s.pushed, a.push.value, r);
    }
    if !Carries(s, r) {
      var c :| c in s.sessions && Leaving(s.sessions[c], r);
      assert Leaving(s'.sessions[c], r) || (a.Act? && a.push == Some(s.sessions[c].pc.snap));
    }
  }

  lemma ActionKeepsFresh(s: Server, a: Action, r: RoomId)
    requires Deserted(s, r) && Fresh(s, r)
    requires r in Perform(s, a).rooms && Perform(s, a).rooms[r] == s.rooms[r]
    requires a.Act? ==> a.c in s.sessions && QuietStep(s, s.sessions[a.c], a, r)
    ensures Fresh(Perform(s, a), r)
  {
    var s' := Perform(s, a);
    forall c | c in s'.sessions ensures !HoldsStale(s'.sessions[c], r, Strokes(s', r)) {
      if c in s.sessions {
        assert !HoldsStale(s.sessions[c], r, Strokes(s, r));
      }
    }
  }

  lemma NextKeepsQuiet(s: Server, l: Label, r: RoomId)
    requires SessionsInv(s) && SavingInv(s) && Quiet(s, r) && !JoinsRoom(ActionOf(s, l), r)
    ensures Quiet(Next(s, l), r) && Next(s, l).rooms[r] == s.rooms[r]
  {
    var a := ActionOf(s, l);
    if a.Act? {
      NextIsLocal(s, l);
      NextIsQuietStep(s, l, r);
      assert Inside(s.sessions[a.c]) != Some(r);
    }
    DesertedStays(s, a, r);
    ActionKeepsFresh(s, a, r);
    CarriesOrLeaving(s, a, r);
  }

  lemma {:induction false} RunKeepsQuiet(s: Server, ls: seq<Label>, r: RoomId)
    requires AgreementInv(s) && SavingInv(s) && Quiet(s, r) && NobodyEnters(s, ls, r)
    ensures Quiet(After(s, ls), r) && After(s, ls).rooms[r] == s.rooms[r]
    decreases |ls|
  {
    if ls != [] {
      NextKeepsQuiet(s, ls[0], r);
      NextKeepsAgreement(s, ls[0]);
      NextKeepsSaving(s, ls[0]);
      RunKeepsQuiet(Next(s, ls[0]), ls[1..], r);
    }
  }

  // ----- A stale snapshot can be pushed last -----

  function LeaversAt(s: Server, r: RoomId, stage: nat): set<ClientId> {
    set c | c in s.sessions && Leaving(s.sessions[c], r)
            && (s.sessions[c].pc.Left? || (stage >= 1 && s.sessions[c].pc.LeftEmpty?) || stage >= 2)
  }

  function LeaverLabel(pc: Pc, c: ClientId): Label {
    if pc.Left? then CheckEmpty(c) else if pc.LeftEmpty? then TakeSnapshot(c) else Push(c)
  }

  lemma LeaverAdvances(s: Server, r: RoomId, c: ClientId)
    requires Deserted(s, r) && c in s.sessions && Leaving(s.sessions[c], r)
    ensures
      var a := ActionOf(s, LeaverLabel(s.sessions[c].pc, c));
      && a.Act? && a.c == c && a.cmd.None?
      && (s.sessions[c].pc.Left? ==> a.x.pc.LeftEmpty? && a.x.pc.room == r)
      && (s.sessions[c].pc.LeftEmpty? ==> a.x.pc.LeftSnap? && a.x.pc.room == r && a.x.pc.snap == Snap(r, s.rooms[r]))
      && (s.sessions[c].pc.LeftSnap? ==> !Leaving(a.x, r))
  {
  }

  lemma LeaversShrink(s: Server, r: RoomId, c: ClientId)
    requires Deserted(s, r) && c in s.sessions && Leaving(s.sessions[c], r)
    ensures
      var l := LeaverLabel(s.sessions[c].pc, c);
      var s' := Next(s, l);
      && !JoinsRoom(ActionOf(s, l), r)
      && Deserted(s', r) && Strokes(s', r) == Strokes(s, r)
      && c in s'.sessions && s'.sessions == s.sessions[c := s'.sessions[c]]
      && LeaversAt(s', r, 0) == LeaversAt(s, r, 0) - {c}
      && LeaversAt(s', r, 1) == LeaversAt(s, r, 1) - (if s.sessions[c].pc.Left? then {} else {c})
      && LeaversAt(s', r, 2) == LeaversAt(s, r, 2) - (if s.sessions[c].pc.LeftSnap? then {c} else {})
      && c in LeaversAt(s, r, if s.sessions[c].pc.Left? then 0 else if s.sessions[c].pc.LeftEmpty? then 1 else 2)
  {
    LeaverAdvances(s, r, c);
  }

  /** With nobody in the room its leavers can all finish. */
  lemma LeaversFinish(s: Server, r: RoomId) returns (ls: seq<Label>)
    requires Deserted(s, r)
    ensures NobodyEnters(s, ls, r) && Settled(After(s, ls), r)
    decreases LeaversAt(s, r, 0), LeaversAt(s, r, 1), LeaversAt(s, r, 2)
  {
    if c :| c in s.sessions && Leaving(s.sessions[c], r) {
      var l := LeaverLabel(s.sessions[c].pc, c);
      LeaversShrink(s, r, c);
      var rest := LeaversFinish(Next(s, l), r);
      ls := [l] + rest;
      assert ls[1..] == rest;
    } else {
      ls := [];
    }
  }

  lemma StalePushed(s: Server, r: RoomId, b: ClientId)
    requires Deserted(s, r) && b in s.sessions
    requires HoldsStale(s.sessions[b], r, Strokes(s, r)) && s.sessions[b].pc.snap.room == r
    requires forall c :: c in s.sessions && c != b ==> !Leaving(s.sessions[c], r)
    ensures NobodyEnters(s, [Push(b)], r)
    ensures
      var s' := After(s, [Push(b)]);
      Settled(s', r) && r in s'.rooms && !Carries(s', r)
  {
    assert [Push(b)][1..] == [];
    var s' := Next(s, Push(b));
    assert After(s, [Push(b)]) == s' && NobodyEnters(s', [], r);
    LastPushAfter(s.pushed, s.sessions[b].pc.snap, r);
  }

  /** With nobody in the room, the other leavers can all finish first; then the stale snapshot is pushed. */
  lemma StalePushedLast(s: Server, r: RoomId, b: ClientId) returns (ls: seq<Label>)
    requires Deserted(s, r) && b in s.sessions
    requires HoldsStale(s.sessions[b], r, Strokes(s, r)) && s.sessions[b].pc.snap.room == r
    ensures NobodyEnters(s, ls, r) && Settled(After(s, ls), r)
    ensures r in After(s, ls).rooms && !Carries(After(s, ls), r)
    decreases LeaversAt(s, r, 0), LeaversAt(s, r, 1), LeaversAt(s, r, 2)
  {
    if c :| c in s.sessions && c != b && Leaving(s.sessions[c], r) {
      var l := LeaverLabel(s.sessions[c].pc, c);
      LeaversShrink(s, r, c);
      var rest := StalePushedLast(Next(s, l), r, b);
      ls := [l] + rest;
      assert ls[1..] == rest;
    } else {
      ls := [Push(b)];
      StalePushed(s, r, b);
    }
  }

  lemma FreshEndsFinal(s: Server, r: RoomId, ls: seq<Label>)
    requires AgreementInv(s) && SavingInv(s) && Deserted(s, r) && SomeoneLeaving(s.sessions, r) && Fresh(s, r)
    requires NobodyEnters(s, ls, r) && Settled(After(s, ls), r)
    ensures r in After(s, ls).rooms && Carries(After(s, ls), r)
  {
    RunKeepsQuiet(s, ls, r);
  }

  lemma StaleCanEndLast(s: Server, r: RoomId) returns (ls: seq<Label>)
    requires SavingInv(s) && Deserted(s, r) && !Fresh(s, r)
    ensures NobodyEnters(s, ls, r) && Settled(After(s, ls), r)
    ensures r in After(s, ls).rooms && !Carries(After(s, ls), r)
  {
    var b :| b in s.sessions && HoldsStale(s.sessions[b], r, Strokes(s, r));
    assert SavingOk(s.rooms, s.sessions[b].pc);
    ls := StalePushedLast(s, r, b);
  }

  ghost predicate EndsFinal(s: Server, r: RoomId, ls: seq<Label>) {
    r in After(s, ls).rooms && Carries(After(s, ls), r)
  }

  ghost predicate Settles(s: Server, r: RoomId, ls: seq<Label>) {
    NobodyEnters(s, ls, r) && Settled(After(s, ls), r)
  }

  /** A reachable server and a deserted room whose last member is still in its leave handler: however the handlers
      go on, as long as nobody enters, the last snapshot pushed once they are done carries the final board — exactly
      when no handler now holds an outdated one. And they can get done. */
  lemma LastSnapshotFinalIff(past: seq<Label>, r: RoomId)
    requires Deserted(After(START, past), r) && SomeoneLeaving(After(START, past).sessions, r)
    ensures
      var s := After(START, past);
      && ((forall ls :: Settles(s, r, ls) ==> EndsFinal(s, r, ls)) <==> Fresh(s, r))
      && exists ls :: Settles(s, r, ls)
  {
    var s := After(START, past);
    ReachableAgrees(past);
    RunKeepsSaving(START, past);
    var way := LeaversFinish(s, r);
    assert Settles(s, r, way);
    if Fresh(s, r) {
      forall ls | Settles(s, r, ls) ensures EndsFinal(s, r, ls) {
        FreshEndsFinal(s, r, ls);
      }
    } else {
      var ls := StaleCanEndLast(s, r);
      assert Settles(s, r, ls) && !EndsFinal(s, r, ls);
    }
  }

  // ----- Rooms nobody came back to -----

  /** Before a room has been emptied nobody finds it empty; once it has, and while nobody came back, it is quiet. */
  ghost predicate Remembered(s: Server, r: RoomId) {
    && (r !in s.emptied ==> forall c :: c in s.sessions && Leaving(s.sessions[c], r) ==>
          s.sessions[c].pc.Left? && !Deserted(s, r))
    && (r in s.emptied && r !in s.refilled ==> Quiet(s, r))
  }

  ghost predicate EmptiedInv(s: Server) {
    forall r :: r in s.rooms ==> Remembered(s, r)
  }

  predicate LeavesRoom(a: Action, r: RoomId) {
    a.Act? && a.cmd.Some? && a.cmd.value.0 == r && a.cmd.value.1.Leave?
  }

  /** A handler gets among the room's leavers only by leaving it, and past memberCount only if it is deserted. */
  ghost predicate LeaverStep(s: Server, a: Action, r: RoomId)
    requires a.Act?
  {
    && (a.cmd.Some? ==> a.cmd.value.1.client == a.c)
    && (LeavesRoom(a, r) ==> a.x.pc.Left? && a.x.pc.room == r)
    && (Leaving(a.x, r) && !LeavesRoom(a, r) ==>
          a.c in s.sessions && Leaving(s.sessions[a.c], r) && (s.sessions[a.c].pc.Left? ==> Deserted(s, r)))
  }

  lemma NextIsLeaverStep(s: Server, l: Label, r: RoomId)
    requires ActionOf(s, l).Act?
    ensures LeaverStep(s, ActionOf(s, l), r)
  {
  }

  lemma JustEmptied(s: Server, a: Action, r: RoomId)
    requires r in s.rooms && Remembered(s, r) && r !in s.emptied && r in Perform(s, a).emptied
    requires a.Act? ==> LeaverStep(s, a, r)
    ensures Quiet(Perform(s, a), r)
  {
    var s' := Perform(s, a);
    assert Leaving(s'.sessions[a.c], r);
    forall c | c in s'.sessions ensures !HoldsStale(s'.sessions[c], r, Strokes(s', r)) {
      assert c != a.c && Leaving(s.sessions[c], r) ==> s.sessions[c].pc.Left?;
    }
  }

  lemma NotYetEmptied(s: Server, a: Action, r: RoomId)
    requires r in s.rooms && s.nextRoomId !in s.rooms && s.nextClientId !in s.sessions
    requires Remembered(s, r) && r !in s.emptied && r !in Perform(s, a).emptied
    requires a.Act? ==> LeaverStep(s, a, r)
    ensures Remembered(Perform(s, a), r)
  {
    var s' := Perform(s, a);
    if a.Act? && a.cmd.Some? && a.cmd.value.0 == r {
      MembersAfter(s.rooms[r].room, a.cmd.value.1);
    }
    forall c | c in s'.sessions && Leaving(s'.sessions[c], r) ensures s'.sessions[c].pc.Left? && !Deserted(s', r) {
      assert c in s.sessions && Leaving(s.sessions[c], r) ==> s.sessions[c].pc.Left? && !Deserted(s, r);
    }
  }

  lemma ActionRemembers(s: Server, a: Action, r: RoomId)
    requires r in s.rooms && s.nextRoomId !in s.rooms && s.nextClientId !in s.sessions
    requires Remembered(s, r)
    requires a.Act? ==> LeaverStep(s, a, r)
    requires Quiet(s, r) && !JoinsRoom(a, r) ==> Quiet(Perform(s, a), r)
    ensures Remembered(Perform(s, a), r)
  {
    if r in s.emptied {
    } else if r in Perform(s, a).emptied {
      JustEmptied(s, a, r);
    } else {
      NotYetEmptied(s, a, r);
    }
  }

  lemma NextRemembers(s: Server, l: Label, r: RoomId)
    requires SessionsInv(s) && SavingInv(s) && r in s.rooms && Remembered(s, r)
    ensures Remembered(Next(s, l), r)
  {
    if ActionOf(s, l).Act? {
      NextIsLeaverStep(s, l, r);
    }
    if Quiet(s, r) && !JoinsRoom(ActionOf(s, l), r) {
      NextKeepsQuiet(s, l, r);
    }
    ActionRemembers(s, ActionOf(s, l), r);
  }

  lemma NewRoomRemembered(s: Server, l: Label)
    requires SessionsInv(s) && (forall r :: r in s.emptied ==> r in s.rooms)
    requires s.nextRoomId in Next(s, l).rooms
    ensures Remembered(Next(s, l), s.nextRoomId)
  {
    var a := ActionOf(s, l);
    assert a == NewRoom;
    forall c | c in s.sessions ensures !Leaving(s.sessions[c], s.nextRoomId) {
      assert SessionOk(s.rooms, s.sessions[c]);
    }
  }

  ghost predicate EmptiedRoomsExist(s: Server) {
    forall r :: r in s.emptied ==> r in s.rooms
  }

  lemma RoomRemembered(s: Server, l: Label, r: RoomId)
    requires SessionsInv(s) && SavingInv(s) && EmptiedRoomsExist(s) && r in Next(s, l).rooms
    requires r in s.rooms ==> Remembered(s, r)
    ensures Remembered(Next(s, l), r)
  {
    if r in s.rooms {
      NextRemembers(s, l, r);
    } else {
      RoomOrigin(s, ActionOf(s, l), r);
      NewRoomRemembered(s, l);
    }
  }

  lemma NextKeepsEmptied(s: Server, l: Label)
    requires SessionsInv(s) && SavingInv(s) && EmptiedRoomsExist(s) && EmptiedInv(s)
    ensures EmptiedRoomsExist(Next(s, l)) && EmptiedInv(Next(s, l))
  {
    NextGrows(s, ActionOf(s, l));
    EmptiedStayRooms(s, ActionOf(s, l));
    forall r | r in Next(s, l).rooms ensures Remembered(Next(s, l), r) {
      RoomRemembered(s, l, r);
    }
  }

  lemma EmptiedStayRooms(s: Server, a: Action)
    requires EmptiedRoomsExist(s)
    ensures EmptiedRoomsExist(Perform(s, a))
  {
  }

  ghost predicate ServerInv(s: Server) {
    AgreementInv(s) && SavingInv(s) && EmptiedRoomsExist(s) && EmptiedInv(s)
  }

  lemma {:induction false} RunKeepsServer(s: Server, ls: seq<Label>)
    requires ServerInv(s)
    ensures ServerInv(After(s, ls))
    decreases |ls|
  {
    if ls != [] {
      NextKeepsAgreement(s, ls[0]);
      NextKeepsSaving(s, ls[0]);
      NextKeepsEmptied(s, ls[0]);
      RunKeepsServer(Next(s, ls[0]), ls[1..]);
    }
  }

  lemma ReachableServer(ls: seq<Label>)
    ensures ServerInv(After(START, ls))
  {
    RunKeepsServer(START, ls);
  }

  /** Quiescent durability: however the handlers interleave, once a room has been emptied, if nobody came back and
      the leave handlers are done, the last snapshot of it given to the sink carries its final strokes. */
  lemma QuiescentDurability(ls: seq<Label>, r: RoomId)
    requires
      var s := After(START, ls);
      r in s.emptied && r !in s.refilled && Settled(s, r)
    ensures
      var s := After(START, ls);
      Deserted(s, r) && Carries(s, r)
  {
    ReachableServer(ls);
    assert Remembered(After(START, ls), r);
  }

  // ----- A room that is refilled -----

  lemma AfterTwo(s: Server, k: Label, l: Label)
    ensures After(s, [k, l]) == Next(Next(s, k), l)
  {
    assert [k, l][1..] == [l] && [l][1..] == [];
    assert After(Next(s, k), [l]) == Next(Next(s, k), l);
  }

  lemma AfterThree(s: Server, k: Label, l: Label, m: Label)
    ensures After(s, [k, l, m]) == Next(Next(Next(s, k), l), m)
  {
    assert [k, l, m][1..] == [l, m];
    AfterTwo(Next(s, k), l, m);
  }

  lemma JoinRuns(s: Server, c: ClientId, r: RoomId)
    requires s.IsIdle(c) && s.sessions[c].currentRoom.None? && r in s.rooms
    ensures
      var s' := After(s, [JoinRequest(c, r), FinishJoin(c)]);
      && s'.rooms == s.rooms[r := Step(s.rooms[r], Join(c))]
      && s'.sessions == s.sessions[c := s.sessions[c].(currentRoom := Some(r), pc := Idle)]
      && s'.base == s.base[c := JoinSnapshot(r, Step(s.rooms[r], Join(c)))] && s'.registered == s.registered
  {
    AfterTwo(s, JoinRequest(c, r), FinishJoin(c));
  }

  lemma LeaveRuns(s: Server, c: ClientId, r: RoomId)
    requires s.GateOpen(c, r) && r in s.rooms && c in s.rooms[r].room.members
    ensures
      var s' := After(s, [LeaveRequest(c, r)]);
      && s'.rooms == s.rooms[r := Step(s.rooms[r], Leave(c))]
      && c in s'.sessions && s'.sessions[c].pc.Left? && s'.sessions[c].pc.room == r
      && s'.sessions == s.sessions[c := s'.sessions[c]]
      && (Step(s.rooms[r], Leave(c)).room.members == {} ==> r in s'.emptied)
  {
    assert [LeaveRequest(c, r)][1..] == [];
    assert After(s, [LeaveRequest(c, r)]) == Next(s, LeaveRequest(c, r));
  }

  lemma EmptyLeaverTakesSnapshot(s: Server, c: ClientId, r: RoomId)
    requires Deserted(s, r) && c in s.sessions && s.sessions[c].pc.Left? && s.sessions[c].pc.room == r
    ensures
      var s' := After(s, [CheckEmpty(c), TakeSnapshot(c)]);
      && s'.rooms == s.rooms
      && c in s'.sessions && s'.sessions[c].pc.LeftSnap? && s'.sessions[c].pc.room == r
      && s'.sessions[c].pc.snap == Snap(r, s.rooms[r])
      && s'.sessions == s.sessions[c := s'.sessions[c]]
  {
    AfterTwo(s, CheckEmpty(c), TakeSnapshot(c));
    LeaverAdvances(s, r, c);
    LeaverAdvances(Next(s, CheckEmpty(c)), r, c);
  }

  lemma LoneMemberDraws(s: Server, c: ClientId, r: RoomId, p: Point)
    requires s.GateOpen(c, r) && r in s.rooms && s.rooms[r].room.members == {c} && c !in s.rooms[r].room.activeStroke
    ensures
      var begin := StrokeBegin(Black, Thin, p);
      var s' := After(s, [EventRequest(c, r, begin, 0)]);
      && s'.rooms == s.rooms[r := Step(s.rooms[r], Apply(c, begin, 0))]
      && c in s'.sessions && s'.sessions == s.sessions[c := s'.sessions[c]]
      && s'.sessions[c].pc.Sending? && |s'.sessions[c].pc.todo| == 1 && s'.sessions[c].pc.todo[0].recipients == {}
      && s'.sessions[c].(pc := Idle) == s.sessions[c]
  {
    var l := EventRequest(c, r, StrokeBegin(Black, Thin, p), 0);
    assert [l][1..] == [];
    assert After(s, [l]) == Next(s, l);
  }

  lemma LoneMemberFinishes(s: Server, c: ClientId)
    requires c in s.sessions && s.sessions[c].pc.Sending? && !s.sessions[c].stopping
    requires |s.sessions[c].pc.todo| == 1 && s.sessions[c].pc.todo[0].recipients == {}
    ensures
      var s' := After(s, [NextEntry(c), Finish(c)]);
      s'.rooms == s.rooms && s'.sessions == s.sessions[c := s.sessions[c].(pc := Idle)]
  {
    AfterTwo(s, NextEntry(c), Finish(c));
    var s1 := Next(s, NextEntry(c));
    assert s1.sessions[c].pc.todo == [];
  }

  /** Two clients connect and one creates a room. */
  lemma TwoClientsOneRoom()
    ensures
      var s := After(START, [Accept, Accept, Create(1)]);
      s.rooms == map[1 := NEW_ROOM] && s.sessions == map[1 := NEW_SESSION, 2 := NEW_SESSION]
  {
    AfterThree(START, Accept, Accept, Create(1));
  }

  const ORIGIN := Point(0, 0)

  /** What becomes of room 1 when client 1 comes and goes and then client 2 comes, draws and goes. */
  lemma RefilledRoom()
    ensures
      var h1 := Step(NEW_ROOM, Join(1));
      var h2 := Step(h1, Leave(1));
      var h3 := Step(h2, Join(2));
      var h4 := Step(h3, Apply(2, StrokeBegin(Black, Thin, ORIGIN), 0));
      var h5 := Step(h4, Leave(2));
      && h1.room.members == {1} && h2.room.members == {} && h2.room.board.strokes == []
      && h3.room.members == {2} && 2 !in h3.room.activeStroke
      && h4.room.members == {2} && |h5.room.board.strokes| == 1 && h5.room.members == {}
  {
    var h1 := Step(NEW_ROOM, Join(1));
    var h2 := Step(h1, Leave(1));
    var h3 := Step(h2, Join(2));
    MembersAfter(h1.room, Leave(1));
    MembersAfter(h2.room, Join(2));
    var begin := Apply(2, StrokeBegin(Black, Thin, ORIGIN), 0);
    MembersAfter(h3.room, begin);
    var h4 := Step(h3, begin);
    MembersAfter(h4.room, Leave(2));
    assert |h4.room.board.strokes| == 1;
  }

  /** A run after which a handler of a deserted room holds an outdated snapshot. */
  lemma StaleIsReachable() returns (ls: seq<Label>)
    ensures
      var s := After(START, ls);
      Deserted(s, 1) && 1 in s.emptied && SomeoneLeaving(s.sessions, 1) && !Fresh(s, 1)
  {
    RefilledRoom();
    var l0 := [Accept, Accept, Create(1)];
    var l1 := [JoinRequest(1, 1), FinishJoin(1)];
    var l2 := [LeaveRequest(1, 1)];
    var l3 := [CheckEmpty(1), TakeSnapshot(1)];
    var l4 := [JoinRequest(2, 1), FinishJoin(2)];
    var l5 := [EventRequest(2, 1, StrokeBegin(Black, Thin, ORIGIN), 0)];
    var l6 := [NextEntry(2), Finish(2)];
    var l7 := [LeaveRequest(2, 1)];
    TwoClientsOneRoom();
    var s0 := After(START, l0);
    JoinRuns(s0, 1, 1);
    var s1 := After(s0, l1);
    LeaveRuns(s1, 1, 1);
    var s2 := After(s1, l2);
    EmptyLeaverTakesSnapshot(s2, 1, 1);
    var s3 := After(s2, l3);
    JoinRuns(s3, 2, 1);
    var s4 := After(s3, l4);
    LoneMemberDraws(s4, 2, 1, ORIGIN);
    var s5 := After(s4, l5);
    LoneMemberFinishes(s5, 2);
    var s6 := After(s5, l6);
    LeaveRuns(s6, 2, 1);
    var s7 := After(s6, l7);
    assert HoldsStale(s7.sessions[1], 1, Strokes(s7, 1));
    assert Leaving(s7.sessions[2], 1);
    ls := l0 + (l1 + (l2 + (l3 + (l4 + (l5 + (l6 + l7))))));
    AfterConcat(START, l0, l1 + (l2 + (l3 + (l4 + (l5 + (l6 + l7))))));
    AfterConcat(s0, l1, l2 + (l3 + (l4 + (l5 + (l6 + l7)))));
    AfterConcat(s1, l2, l3 + (l4 + (l5 + (l6 + l7))));
    AfterConcat(s2, l3, l4 + (l5 + (l6 + l7)));
    AfterConcat(s3, l4, l5 + (l6 + l7));
    AfterConcat(s4, l5, l6 + l7);
    AfterConcat(s5, l6, l7);
  }

  /** So durability needs its condition: when someone comes back to an emptied room, an old snapshot can be the last. */
  lemma RefilledRoomCanLoseBoard()
    ensures exists ls ::
      var s := After(START, ls);
      1 in s.rooms && 1 in s.emptied && Settled(s, 1) && !Carries(s, 1)
  {
    var ls := StaleIsReachable();
    var s := After(START, ls);
    RunKeepsSaving(START, ls);
    var b :| b in s.sessions && HoldsStale(s.sessions[b], 1, Strokes(s, 1));
    assert SavingOk(s.rooms, s.sessions[b].pc);
    var more := StalePushedLast(s, 1, b);
    EmptiedStays(s, more, 1);
    AfterConcat(START, ls, more);
    assert After(START, ls + more) == After(s, more);
  }

  lemma {:induction false} EmptiedStays(s: Server, ls: seq<Label>, r: RoomId)
    requires r in s.emptied
    ensures r in After(s, ls).emptied
    decreases |ls|
  {
    if ls != [] {
      EmptiedStays(Next(s, ls[0]), ls[1..], r);
    }
  }
}
