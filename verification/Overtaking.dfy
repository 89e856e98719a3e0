/** Over whole runs: without races every member ends with its room's board, and a race can cost it. */
module Overtaking {
  import opened Types
  import opened RoomSpec
  import opened RoomInvariant
  import opened Convergence
  import opened Shell
  import opened Agreement
  import opened Saving
  import opened Durability
  import opened Delivery
  import opened Races
  import opened Finishing

  predicate JoinOrLeaveOf(a: Action, m: ClientId) {
    Runs(a) && (a.cmd.value.1 == Join(m) || a.cmd.value.1 == Leave(m))
  }

  lemma ServedFacts(s: Server, m: ClientId)
    requires ServerOk(s)
    ensures m in s.base ==> HasBase(s, m) && m in s.sessions && BaseOk(s, m) && HistoryInv(s.rooms[s.base[m].room])
  {
    assert MemberServed(s, m);
  }

  lemma CommandKeepsBase(s: Server, a: Action, m: ClientId)
    requires Member(s, m) && Runs(a) && a.cmd.value.0 in s.rooms && a.cmd.value.1.client == a.c && !a.unregister
    requires !JoinOrLeaveOf(a, m)
    ensures Member(Perform(s, a), m)
  {
  }

  lemma CommandFacts(s: Server, l: Label, m: ClientId)
    requires ServerOk(s) && Member(s, m) && Runs(ActionOf(s, l)) && !JoinOrLeaveOf(ActionOf(s, l), m)
    ensures Commands(s, ActionOf(s, l), m) && Member(Next(s, l), m)
  {
    var a := ActionOf(s, l);
    StepFacts(s, l);
    ServedFacts(s, m);
    CommandKeepsBase(s, a, m);
    if a.c == m {
      RunsInOwnRoom(s, a, m);
    }
  }

  lemma RunsInOwnRoom(s: Server, a: Action, m: ClientId)
    requires AgreementInv(s) && Runs(a) && a.c == m && m in s.sessions && LocalStep(s.rooms, s.sessions[m], a)
    requires Member(s, m) && BaseOk(s, m) && !JoinOrLeaveOf(a, m)
    ensures a.cmd.value.0 == s.base[m].room
  {
    OwnRoom(s, a, m);
  }

  /** A member in step stays in step through a step of the server exactly when the step does not race for it. */
  lemma StepInStepIff(s: Server, l: Label, m: ClientId)
    requires ServerOk(s) && Member(s, m) && InStep(s, m) && !JoinOrLeaveOf(ActionOf(s, l), m)
    ensures Member(Next(s, l), m) && (InStep(Next(s, l), m) <==> !RaceIn(s, News(s, ActionOf(s, l), m), m))
  {
    var a := ActionOf(s, l);
    if Runs(a) {
      CommandFacts(s, l, m);
      CommandInStepIff(s, a, m);
    } else {
      StepFacts(s, l);
      MoveKeepsInStep(s, a, m);
      MemberStays(s, l, m);
    }
  }

  /** No step of the run races for the member. */
  ghost predicate NoRace(s: Server, ls: seq<Label>, m: ClientId)
    decreases |ls|
  {
    ls == [] || (!(Member(s, m) && RaceIn(s, News(s, ActionOf(s, ls[0]), m), m)) && NoRace(Next(s, ls[0]), ls[1..], m))
  }

  lemma BecomesMember(s: Server, a: Action, m: ClientId)
    requires m in s.base ==> HasBase(s, m) && m in s.sessions
    requires s.nextClientId !in s.sessions && !Member(s, m) && Member(Perform(s, a), m)
    requires Runs(a) ==> a.cmd.value.1.client == a.c
    ensures Runs(a) && a.cmd.value.1 == Join(m)
  {
  }

  lemma {:induction false} JoinedInStep(s: Server, l: Label, m: ClientId)
    requires ServerOk(s) && JoinOrLeaveOf(ActionOf(s, l), m) && Member(Next(s, l), m)
    ensures InStep(Next(s, l), m)
  {
    StepFacts(s, l);
    var a := ActionOf(s, l);
    RunsJoin(s, a, m);
    JoinInStep(s, a, m);
  }

  lemma {:induction false} RunsJoin(s: Server, a: Action, m: ClientId)
    requires RoomsInv(s) && JoinOrLeaveOf(a, m) && Member(Perform(s, a), m)
    requires a.c in s.sessions && SendStep(s, s.sessions[a.c], a)
    ensures a.c == m && a.cmd.value.1 == Join(m) && HistoryInv(s.rooms[a.cmd.value.0])
  {
  }

  lemma NextInStep(s: Server, l: Label, m: ClientId)
    requires ServerOk(s) && (Member(s, m) ==> InStep(s, m) && !RaceIn(s, News(s, ActionOf(s, l), m), m))
    requires Member(Next(s, l), m)
    ensures InStep(Next(s, l), m)
  {
    var a := ActionOf(s, l);
    if JoinOrLeaveOf(a, m) {
      JoinedInStep(s, l, m);
    } else {
      StaysMemberOnly(s, l, m);
      StepInStepIff(s, l, m);
    }
  }

  lemma StaysMemberOnly(s: Server, l: Label, m: ClientId)
    requires ServerOk(s) && Member(Next(s, l), m) && !JoinOrLeaveOf(ActionOf(s, l), m)
    ensures Member(s, m)
  {
    StepFacts(s, l);
    ServedFacts(s, m);
    if !Member(s, m) {
      BecomesMember(s, ActionOf(s, l), m);
    }
  }

  lemma {:induction false} RunInStep(s: Server, ls: seq<Label>, m: ClientId)
    requires ServerOk(s) && (Member(s, m) ==> InStep(s, m)) && NoRace(s, ls, m)
    ensures ServerOk(After(s, ls)) && (Member(After(s, ls), m) ==> InStep(After(s, ls), m))
    decreases |ls|
  {
    if ls != [] {
      NextKeepsOk(s, ls[0]);
      if Member(Next(s, ls[0]), m) {
        NextInStep(s, ls[0], m);
      }
      RunInStep(Next(s, ls[0]), ls[1..], m);
    }
  }

  /** In every run without a race for the member, once nothing is left to be posted to it, its copy shows the board:
      clears included, whoever sends them and whenever else. */
  lemma WithoutRacesShown(ls: seq<Label>, m: ClientId)
    requires NoRace(START, ls, m) && Member(After(START, ls), m) && AllPosted(After(START, ls), m)
    ensures Shown(After(START, ls), m)
  {
    ReachableOk([]);
    RunInStep(START, ls, m);
    var s := After(START, ls);
    assert MemberServed(s, m);
    ShownIffInStep(s, m);
  }

  // ----- A race -----

  lemma AfterOne(s: Server, l: Label)
    ensures After(s, [l]) == Next(s, l)
  {
    assert [l][1..] == [];
  }

  lemma ThreeClientsOneRoom()
    ensures
      var s := After(START, [Accept, Accept, Accept] + [Create(1)]);
      && s.rooms == map[1 := NEW_ROOM] && s.registered == {1, 2, 3}
      && s.sessions == map[1 := NEW_SESSION, 2 := NEW_SESSION, 3 := NEW_SESSION]
  {
    AfterThree(START, Accept, Accept, Accept);
    AfterConcat(START, [Accept, Accept, Accept], [Create(1)]);
    AfterOne(After(START, [Accept, Accept, Accept]), Create(1));
  }

  /** What is so after clients 1, 2 and 3 have joined the empty room 1. */
  ghost predicate ThreeInside(s: Server) {
    && s.registered == {1, 2, 3}
    && s.rooms.Keys == {1} && s.rooms[1].room == EMPTY_ROOM.(members := {1, 2, 3})
    && 1 in s.base && s.base[1] == SnapshotMsg(1, 0, EMPTY_BOARD)
    && (forall c :: c in {1, 2, 3} ==> c in s.sessions && s.sessions[c].pc.Idle? && s.sessions[c].currentRoom == Some(1))
  }

  lemma ThreeJoin() returns (ls: seq<Label>)
    ensures ThreeInside(After(START, ls))
  {
    var l0 := [Accept, Accept, Accept] + [Create(1)];
    var l1, l2, l3 := [JoinRequest(1, 1), FinishJoin(1)], [JoinRequest(2, 1), FinishJoin(2)], [JoinRequest(3, 1), FinishJoin(3)];
    ThreeClientsOneRoom();
    var s0 := After(START, l0);
    JoinRuns(s0, 1, 1);
    var s1 := After(s0, l1);
    JoinRuns(s1, 2, 1);
    var s2 := After(s1, l2);
    JoinRuns(s2, 3, 1);
    ls := l0 + (l1 + (l2 + l3));
    AfterConcat(START, l0, l1 + (l2 + l3));
    AfterConcat(s0, l1, l2 + l3);
    AfterConcat(s1, l2, l3);
  }

  /** Client 2 begins a stroke. */
  lemma SecondBegins(s: Server)
    requires ThreeInside(s)
    ensures
      var s' := Next(s, EventRequest(2, 1, StrokeBegin(Black, Thin, ORIGIN), 0));
      && s'.registered == s.registered && s'.base == s.base && s'.rooms.Keys == {1}
      && s'.sessions == s.sessions[2 := s'.sessions[2]]
      && s'.rooms[1].room.members == {1, 2, 3} && s'.rooms[1].room.nextSeq == 2
      && 2 in s'.sessions
      && s'.sessions[2].pc == Sending(1, [Entry(1, StrokeBeginOut(2, 1, 1, Black, Thin, ORIGIN), {1, 3})])
  {
    assert {1, 2, 3} - {2} == {1, 3};
  }

  /** Client 3 clears the board before that has been posted. */
  lemma ThirdClears(s: Server)
    requires 1 in s.rooms && s.rooms[1].room.members == {1, 2, 3} && s.rooms[1].room.nextSeq == 2
    requires 3 in s.sessions && s.sessions[3].pc.Idle? && s.sessions[3].currentRoom == Some(1)
    ensures
      var s' := Next(s, EventRequest(3, 1, Clear, 0));
      && s'.registered == s.registered && s'.base == s.base && s'.rooms.Keys == s.rooms.Keys
      && s'.sessions == s.sessions[3 := s'.sessions[3]]
      && s'.rooms[1].room.board.strokes == []
  {
  }

  /** A stroke and a clear are on their way to member 1 together, and the room's board is empty. */
  lemma RaceIsReachable() returns (ls: seq<Label>)
    ensures
      var s := After(START, ls);
      && Member(s, 1) && BoardOf(s, 1).strokes == []
      && 2 in s.sessions && Coming(s, 2, 1) == [StrokeBeginOut(2, 1, 1, Black, Thin, ORIGIN)]
  {
    var joins := ThreeJoin();
    var s0 := After(START, joins);
    var k, l := EventRequest(2, 1, StrokeBegin(Black, Thin, ORIGIN), 0), EventRequest(3, 1, Clear, 0);
    SecondBegins(s0);
    var s1 := Next(s0, k);
    ThirdClears(s1);
    var s2 := Next(s1, l);
    ls := joins + [k, l];
    AfterConcat(START, joins, [k, l]);
    AfterTwo(s0, k, l);
    var e := Entry(1, StrokeBeginOut(2, 1, 1, Black, Thin, ORIGIN), {1, 3});
    assert [e][1..] == [];
    assert ToPost(1, [e], 1) == [EventMsg(1, 1, e.payload)];
    OneMessage(EventMsg(1, 1, e.payload), 1, 0);
  }

  lemma StrokeLeftOver(s: Server, m: ClientId, earlier: seq<Payload>, p: Payload)
    requires ServerOk(s) && Member(s, m) && AllPosted(s, m) && BoardOf(s, m).strokes == []
    requires p.StrokeBeginOut? && s.Seen(m) == earlier + [p]
    ensures Copy(s, m).strokes != map[] && !Shown(s, m)
  {
    LastSeen(s, m, earlier, p);
  }

  /** All is posted to member 1, the room's board is empty, and the member still shows a stroke. */
  ghost predicate Overtaken(s: Server) {
    && Member(s, 1) && AllPosted(s, 1)
    && BoardOf(s, 1).strokes == [] && Copy(s, 1).strokes != map[] && !Shown(s, 1)
  }

  /** So a race can cost a member the board. */
  lemma {:induction false} ClearCanBeOvertaken()
    ensures exists ls :: Overtaken(After(START, ls))
  {
    var ls := RaceIsReachable();
    var s := After(START, ls);
    ReachableOk(ls);
    var more := OvertakenLater(s, StrokeBeginOut(2, 1, 1, Black, Thin, ORIGIN));
    AfterConcat(START, ls, more);
    assert Overtaken(After(START, ls + more));
  }

  lemma {:induction false} OvertakenLater(s: Server, p: Payload) returns (more: seq<Label>)
    requires ServerOk(s) && Member(s, 1) && BoardOf(s, 1).strokes == []
    requires p.StrokeBeginOut? && 2 in s.sessions && Coming(s, 2, 1) == [p]
    ensures Overtaken(After(s, more))
  {
    var earlier;
    more, earlier := FinishLast(s, 2, 1);
    StrokeLeftOver(After(s, more), 1, earlier, p);
  }
}
