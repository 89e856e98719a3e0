/** What becomes of a member's copy when the handlers finish, and over whole runs. */
module Finishing {
  import opened Types
  import opened RoomSpec
  import opened RoomInvariant
  import opened Convergence
  import opened Reordering
  import opened Arrivals
  import opened Shell
  import opened Agreement
  import opened Saving
  import opened Delivery
  import opened Races

  ghost predicate ServerOk(s: Server) {
    AgreementInv(s) && DeliveryInv(s)
  }

  lemma NextKeepsOk(s: Server, l: Label)
    requires ServerOk(s)
    ensures ServerOk(Next(s, l))
  {
    NextKeepsAgreement(s, l);
    NextKeepsDelivery(s, l);
  }

  lemma StepFacts(s: Server, l: Label)
    requires ServerOk(s)
    ensures
      var a := ActionOf(s, l);
      && (a.Act? ==> a.c in s.sessions && LocalStep(s.rooms, s.sessions[a.c], a) && SendStep(s, s.sessions[a.c], a))
      && s.nextClientId !in s.sessions && s.nextRoomId !in s.rooms
  {
    if ActionOf(s, l).Act? {
      NextIsLocal(s, l);
      NextSends(s, l);
    }
  }

  /** No command is run: the handlers only finish what they have begun. */
  predicate NoCommand(s: Server, ls: seq<Label>)
    decreases |ls|
  {
    ls == [] || (!Runs(ActionOf(s, ls[0])) && NoCommand(Next(s, ls[0]), ls[1..]))
  }

  lemma {:induction false} NoCommandConcat(s: Server, a: seq<Label>, b: seq<Label>)
    requires NoCommand(s, a) && NoCommand(After(s, a), b)
    ensures NoCommand(s, a + b)
    decreases |a|
  {
    if a == [] {
      assert a + b == b;
    } else {
      assert (a + b)[1..] == a[1..] + b;
      NoCommandConcat(Next(s, a[0]), a[1..], b);
    }
  }

  ghost predicate Member(s: Server, m: ClientId) {
    HasBase(s, m) && m in s.registered
  }

  lemma ActionKeepsMember(s: Server, a: Action, m: ClientId)
    requires Member(s, m) && !Runs(a) && s.nextRoomId !in s.rooms
    requires a.Act? && a.unregister ==> a.c != m
    ensures Member(Perform(s, a), m) && Perform(s, a).base == s.base && BoardOf(Perform(s, a), m) == BoardOf(s, m)
  {
  }

  lemma MemberNotStopping(s: Server, m: ClientId)
    requires ServerOk(s) && Member(s, m)
    ensures m in s.sessions && !(s.sessions[m].stopping && s.sessions[m].pc.Sending?)
  {
    assert MemberServed(s, m) && BaseOk(s, m);
    assert Inside(s.sessions[m]) == Some(s.base[m].room);
  }

  lemma MemberStays(s: Server, l: Label, m: ClientId)
    requires ServerOk(s) && Member(s, m) && !Runs(ActionOf(s, l))
    ensures Member(Next(s, l), m) && Next(s, l).base == s.base && BoardOf(Next(s, l), m) == BoardOf(s, m)
  {
    StepFacts(s, l);
    MemberNotStopping(s, m);
    UnregisterStops(s, l);
    ActionKeepsMember(s, ActionOf(s, l), m);
  }

  lemma UnregisterStops(s: Server, l: Label)
    ensures ActionOf(s, l).Act? && ActionOf(s, l).unregister ==>
              ActionOf(s, l).c in s.sessions && s.sessions[ActionOf(s, l).c].stopping && s.sessions[ActionOf(s, l).c].pc.Sending?
  {
  }

  lemma {:induction false} RunKeepsInStep(s: Server, ls: seq<Label>, m: ClientId)
    requires ServerOk(s) && Member(s, m) && NoCommand(s, ls)
    ensures ServerOk(After(s, ls)) && Member(After(s, ls), m) && BoardOf(After(s, ls), m) == BoardOf(s, m)
    ensures InStep(s, m) ==> InStep(After(s, ls), m)
    ensures !ClearComing(s, m) ==> (InStep(s, m) <==> InStep(After(s, ls), m))
    decreases |ls|
  {
    if ls != [] {
      var l := ls[0];
      StepFacts(s, l);
      MoveKeepsInStep(s, ActionOf(s, l), m);
      MemberStays(s, l, m);
      NextKeepsOk(s, l);
      RunKeepsInStep(Next(s, l), ls[1..], m);
    }
  }

  // ----- Every handler can finish -----

  function Load(todo: seq<Entry>): nat {
    if todo == [] then 0 else |todo[0].recipients| + 1 + Load(todo[1..])
  }

  /** How many steps the handler still has to take, at most. */
  function Work(pc: Pc): nat {
    match pc
    case Idle => 0
    case Joined(_, _, _) => 1
    case Left(_, todo) => 5 + Load(todo)
    case LeftEmpty(_, todo) => 4 + Load(todo)
    case LeftSnap(_, todo, _) => 3 + Load(todo)
    case Ended(_, todo, _) => 3 + Load(todo)
    case EndedSnap(_, todo, _, _) => 2 + Load(todo)
    case Sending(_, todo) => 1 + Load(todo)
  }

  lemma PostLightens(todo: seq<Entry>, to: ClientId)
    requires todo != [] && to in todo[0].recipients
    ensures Load([todo[0].(recipients := todo[0].recipients - {to})] + todo[1..]) < Load(todo)
  {
    var rest := [todo[0].(recipients := todo[0].recipients - {to})] + todo[1..];
    assert rest[1..] == todo[1..];
  }

  ghost predicate Advances(s: Server, c: ClientId, a: Action) {
    c in s.sessions && a.Act? && a.c == c && a.cmd.None? && Work(a.x.pc) < Work(s.sessions[c].pc)
  }

  /** A step of a handler of `c` that has begun. */
  predicate IsTail(l: Label, c: ClientId) {
    (l.FinishJoin? || l.CheckEmpty? || l.TakeSnapshot? || l.Push? || l.Post? || l.NextEntry? || l.Finish?) && l.c == c
  }

  lemma SendingAdvances(s: Server, c: ClientId) returns (l: Label)
    requires c in s.sessions && s.sessions[c].pc.Sending?
    ensures IsTail(l, c) && Advances(s, c, ActionOf(s, l))
  {
    var todo := s.sessions[c].pc.todo;
    if todo == [] {
      l := Finish(c);
    } else if todo[0].recipients == {} {
      l := NextEntry(c);
    } else {
      var to :| to in todo[0].recipients;
      PostLightens(todo, to);
      l := Post(c, to);
    }
  }

  /** A handler that is not done has a step to take. */
  lemma HandlerAdvances(s: Server, c: ClientId) returns (l: Label)
    requires SessionsInv(s) && c in s.sessions && !s.sessions[c].pc.Idle?
    ensures IsTail(l, c) && Advances(s, c, ActionOf(s, l))
  {
    var pc := s.sessions[c].pc;
    assert SessionOk(s.rooms, s.sessions[c]);
    match pc
    case Joined(_, _, _) => l := FinishJoin(c);
    case Left(_, _) => l := CheckEmpty(c);
    case LeftEmpty(_, _) => l := TakeSnapshot(c);
    case LeftSnap(_, _, _) => l := Push(c);
    case Ended(_, _, _) => l := TakeSnapshot(c);
    case EndedSnap(_, _, _, _) => l := Push(c);
    case Sending(_, _) => l := SendingAdvances(s, c);
  }

  /** From `s` to `s'` the member has stayed one and its board is what it was. */
  ghost predicate Calm(s: Server, s': Server, m: ClientId) {
    Member(s, m) && Member(s', m) && s'.base == s.base && BoardOf(s', m) == BoardOf(s, m)
  }

  /** Only session `c` has moved, and what it had for the member has been posted as far as it is not still coming. */
  ghost predicate OnlyMoved(s: Server, s': Server, c: ClientId, m: ClientId)
    requires Calm(s, s', m)
  {
    && c in s.sessions && c in s'.sessions && s'.sessions == s.sessions[c := s'.sessions[c]]
    && s'.Seen(m) + Coming(s', c, m) == s.Seen(m) + Coming(s, c, m)
  }

  lemma HandlerStep(s: Server, c: ClientId, l: Label, m: ClientId)
    requires ServerOk(s) && Member(s, m) && Advances(s, c, ActionOf(s, l))
    ensures ServerOk(Next(s, l)) && Calm(s, Next(s, l), m) && OnlyMoved(s, Next(s, l), c, m)
    ensures Work(Next(s, l).sessions[c].pc) < Work(s.sessions[c].pc)
  {
    StepFacts(s, l);
    MemberStays(s, l, m);
    NextKeepsOk(s, l);
    HandlerPosts(s, ActionOf(s, l), m);
  }

  lemma HandlerPosts(s: Server, a: Action, m: ClientId)
    requires a.Act? && a.cmd.None? && a.c in s.sessions && SendStep(s, s.sessions[a.c], a)
    requires HasBase(s, m) && m in s.registered && s.nextClientId !in s.sessions
    ensures
      var s' := Perform(s, a);
      && s'.sessions == s.sessions[a.c := a.x] && s'.base == s.base
      && s'.Seen(m) + Coming(s', a.c, m) == s.Seen(m) + Coming(s, a.c, m)
  {
    MoveSees(s, a, m);
    Associative(s.Seen(m), Front(s, a, m), Coming(Perform(s, a), a.c, m));
  }

  lemma OnlyMovedTwice(s: Server, s1: Server, s2: Server, c: ClientId, m: ClientId)
    requires Calm(s, s1, m) && OnlyMoved(s, s1, c, m) && Calm(s1, s2, m) && OnlyMoved(s1, s2, c, m)
    ensures Calm(s, s2, m) && OnlyMoved(s, s2, c, m)
  {
  }

  lemma NoCommandFirst(s: Server, l: Label, rest: seq<Label>)
    requires !Runs(ActionOf(s, l)) && NoCommand(Next(s, l), rest)
    ensures NoCommand(s, [l] + rest) && After(s, [l] + rest) == After(Next(s, l), rest)
  {
    assert ([l] + rest)[1..] == rest;
  }

  /** One handler runs to its end; the member is posted all that the handler had for it, in order. */
  lemma FinishOne(s: Server, c: ClientId, m: ClientId) returns (ls: seq<Label>)
    requires ServerOk(s) && Member(s, m) && c in s.sessions
    ensures NoCommand(s, ls) && ServerOk(After(s, ls)) && Calm(s, After(s, ls), m) && OnlyMoved(s, After(s, ls), c, m)
    ensures After(s, ls).sessions[c].pc.Idle?
    decreases Work(s.sessions[c].pc)
  {
    if s.sessions[c].pc.Idle? {
      ls := [];
      assert s.sessions == s.sessions[c := s.sessions[c]];
    } else {
      var l := HandlerAdvances(s, c);
      HandlerStep(s, c, l, m);
      var rest := FinishOne(Next(s, l), c, m);
      ls := [l] + rest;
      NoCommandFirst(s, l, rest);
      OnlyMovedTwice(s, Next(s, l), After(s, ls), c, m);
    }
  }

  function Busy(s: Server, but: ClientId): set<ClientId> {
    set c | c in s.sessions && c != but && !s.sessions[c].pc.Idle?
  }

  ghost predicate Spared(s: Server, s': Server, but: ClientId) {
    s'.sessions.Keys == s.sessions.Keys && (but in s.sessions ==> s'.sessions[but] == s.sessions[but])
  }

  lemma CalmTwice(s: Server, s1: Server, s2: Server, but: ClientId, m: ClientId)
    requires Calm(s, s1, m) && Calm(s1, s2, m) && Spared(s, s1, but) && Spared(s1, s2, but)
    ensures Calm(s, s2, m) && Spared(s, s2, but)
  {
  }

  lemma OneLessBusy(s: Server, s1: Server, c: ClientId, but: ClientId, m: ClientId)
    requires Calm(s, s1, m) && OnlyMoved(s, s1, c, m) && s1.sessions[c].pc.Idle? && c in Busy(s, but)
    ensures Busy(s1, but) == Busy(s, but) - {c} && |Busy(s1, but)| < |Busy(s, but)| && Spared(s, s1, but)
  {
  }

  /** All handlers but one run to their end. */
  lemma FinishOthers(s: Server, but: ClientId, m: ClientId) returns (ls: seq<Label>)
    requires ServerOk(s) && Member(s, m)
    ensures NoCommand(s, ls) && ServerOk(After(s, ls)) && Calm(s, After(s, ls), m) && Spared(s, After(s, ls), but)
    ensures Busy(After(s, ls), but) == {}
    decreases |Busy(s, but)|
  {
    if c :| c in Busy(s, but) {
      var first := FinishOne(s, c, m);
      var s1 := After(s, first);
      OneLessBusy(s, s1, c, but, m);
      var rest := FinishOthers(s1, but, m);
      ls := first + rest;
      AfterConcat(s, first, rest);
      NoCommandConcat(s, first, rest);
      CalmTwice(s, s1, After(s, ls), but, m);
    } else {
      ls := [];
    }
  }

  lemma AllIdle(s: Server, but: ClientId, m: ClientId)
    requires m in s.sessions && Busy(s, but) == {} && (but in s.sessions ==> s.sessions[but].pc.Idle?)
    ensures AllPosted(s, m)
  {
    forall a ensures OutgoingOf(s, a, m) == [] {
      if a in s.sessions && a != but {
        assert a !in Busy(s, but);
      }
    }
    if m != but {
      assert m !in Busy(s, but);
    }
  }

  lemma StillIdle(s: Server, s': Server, c: ClientId)
    requires Busy(s, c) == {} && c in s'.sessions && s'.sessions == s.sessions[c := s'.sessions[c]]
    ensures Busy(s', c) == {}
  {
    forall d ensures d !in Busy(s', c) {
      assert d !in Busy(s, c);
    }
  }

  lemma LastPosts(s: Server, s1: Server, s2: Server, last: ClientId, m: ClientId)
    requires Calm(s, s1, m) && Spared(s, s1, last) && last in s.sessions
    requires Calm(s1, s2, m) && OnlyMoved(s1, s2, last, m) && s2.sessions[last].pc.Idle?
    ensures Calm(s, s2, m) && s2.Seen(m) == s1.Seen(m) + Coming(s, last, m)
  {
    assert Coming(s1, last, m) == Coming(s, last, m);
    assert Coming(s2, last, m) == [];
    assert s2.Seen(m) + [] == s2.Seen(m);
  }

  /** All handlers run to their end, `last` after the others: then the last the member sees is what `last` had for it. */
  lemma FinishLast(s: Server, last: ClientId, m: ClientId) returns (ls: seq<Label>, earlier: seq<Payload>)
    requires ServerOk(s) && Member(s, m) && last in s.sessions
    ensures NoCommand(s, ls) && ServerOk(After(s, ls)) && Calm(s, After(s, ls), m) && AllPosted(After(s, ls), m)
    ensures After(s, ls).Seen(m) == earlier + Coming(s, last, m)
  {
    var first := FinishOthers(s, last, m);
    var s1 := After(s, first);
    var rest := FinishOne(s1, last, m);
    ls, earlier := first + rest, s1.Seen(m);
    AfterConcat(s, first, rest);
    NoCommandConcat(s, first, rest);
    LastPosts(s, s1, After(s1, rest), last, m);
    StillIdle(s1, After(s1, rest), last);
    MemberNotStopping(After(s1, rest), m);
    AllIdle(After(s1, rest), last, m);
  }

  // ----- Exactly when finishing shows the board -----

  lemma {:induction false} ToPostShort(r: RoomId, todo: seq<Entry>, m: ClientId)
    ensures |ToPost(r, todo, m)| <= |todo|
    ensures forall i :: 0 <= i < |ToPost(r, todo, m)| ==>
              ToPost(r, todo, m)[i].EventMsg? && exists j :: 0 <= j < |todo| && todo[j].payload == ToPost(r, todo, m)[i].payload
  {
    if todo != [] {
      ToPostShort(r, todo[1..], m);
      var rest := ToPost(r, todo[1..], m);
      forall i | 0 <= i < |rest| ensures exists j :: 0 <= j < |todo| && todo[j].payload == rest[i].payload {
        var j :| 0 <= j < |todo[1..]| && todo[1..][j].payload == rest[i].payload;
        assert todo[j + 1].payload == rest[i].payload;
      }
    }
  }

  lemma {:induction false} EventsShort(msgs: seq<Message>, r: RoomId, lastSeq: Seq)
    ensures |Events(msgs, r, lastSeq)| <= |msgs|
    ensures forall p :: p in Events(msgs, r, lastSeq) ==> exists i :: 0 <= i < |msgs| && msgs[i].EventMsg? && msgs[i].payload == p
  {
    if msgs != [] {
      var n := |msgs| - 1;
      EventsShort(msgs[..n], r, lastSeq);
      forall p | p in Events(msgs, r, lastSeq) ensures exists i :: 0 <= i < |msgs| && msgs[i].EventMsg? && msgs[i].payload == p {
        if p in Events(msgs[..n], r, lastSeq) {
          var i :| 0 <= i < n && msgs[..n][i].EventMsg? && msgs[..n][i].payload == p;
          assert msgs[i].payload == p;
        } else {
          assert msgs[n].payload == p;
        }
      }
    }
  }

  /** A clear or a stroke's beginning that is coming is all that its author has for the member. */
  lemma ComesAlone(s: Server, a: ClientId, m: ClientId, p: Payload)
    requires TrafficInv(s) && HasBase(s, m) && p in Coming(s, a, m) && Opening(p)
    ensures a in s.sessions && Coming(s, a, m) == [p]
  {
    var b := s.base[m];
    EventsShort(OutgoingOf(s, a, m), b.room, b.lastSeq);
    var x := s.sessions[a];
    assert TodoOwn(s.rooms, a, x);
    ToPostShort(x.pc.room, x.pc.todo, m);
    var i :| 0 <= i < |OutgoingOf(s, a, m)| && OutgoingOf(s, a, m)[i].payload == p;
    var j :| 0 <= j < |x.pc.todo| && x.pc.todo[j].payload == p;
  }

  lemma LastSeen(s: Server, m: ClientId, earlier: seq<Payload>, p: Payload)
    requires HasBase(s, m) && s.Seen(m) == earlier + [p]
    ensures p.ClearOut? ==> Copy(s, m).strokes == map[]
    ensures p.StrokeBeginOut? ==> p.id in Copy(s, m).strokes
  {
    var k := KeyOf(s.base[m].state);
    KeyedFoldConcat(k, earlier, [p]);
    KeyedFoldOne(KeyedFold(k, earlier), p);
  }

  /** Out of step, some way of finishing leaves the member with another board. */
  lemma OutOfStepFails(s: Server, m: ClientId) returns (ls: seq<Label>)
    requires ServerOk(s) && Member(s, m) && !InStep(s, m)
    ensures NoCommand(s, ls) && AllPosted(After(s, ls), m) && Member(After(s, ls), m) && !Shown(After(s, ls), m)
  {
    var last, p := m, MemberLeftOut(m);
    assert MemberServed(s, m) && BaseOk(s, m);
    if ClearComing(s, m) {
      if BoardOf(s, m).strokes != [] {
        last, p :| p in Coming(s, last, m) && p.ClearOut?;
      } else {
        var x :| BeginComing(s, m, x);
        last, p :| p in Coming(s, last, m) && p.StrokeBeginOut? && p.id == x;
      }
      ComesAlone(s, last, m, p);
    }
    var earlier: seq<Payload>;
    ls, earlier := FinishLast(s, last, m);
    var s' := After(s, ls);
    ShownIffInStep(s', m);
    if ClearComing(s, m) {
      LastSeen(s', m, earlier, p);
      EmptyKeys(BoardOf(s, m).strokes);
      NothingComing(s', m);
    } else {
      RunKeepsInStep(s, ls, m);
    }
  }

  lemma InStepSucceeds(s: Server, ls: seq<Label>, m: ClientId)
    requires ServerOk(s) && Member(s, m) && InStep(s, m) && NoCommand(s, ls) && AllPosted(After(s, ls), m)
    ensures Shown(After(s, ls), m)
  {
    RunKeepsInStep(s, ls, m);
    ShownIffInStep(After(s, ls), m);
  }

  lemma ReachableOk(past: seq<Label>)
    ensures ServerOk(After(START, past))
  {
    RunKeepsDelivery(START, past);
  }

  /** From any reachable state: every way in which the handlers can finish leaves the member's copy showing the board
      exactly when the member is in step now; and they can finish. */
  lemma FinishingShowsIff(past: seq<Label>, m: ClientId)
    requires Member(After(START, past), m)
    ensures
      var s := After(START, past);
      && ((forall ls :: NoCommand(s, ls) && AllPosted(After(s, ls), m) ==> Shown(After(s, ls), m)) <==> InStep(s, m))
      && exists ls :: NoCommand(s, ls) && AllPosted(After(s, ls), m)
  {
    var s := After(START, past);
    ReachableOk(past);
    assert MemberServed(s, m) && BaseOk(s, m);
    var way, _ := FinishLast(s, m, m);
    if InStep(s, m) {
      forall ls | NoCommand(s, ls) && AllPosted(After(s, ls), m) ensures Shown(After(s, ls), m) {
        InStepSucceeds(s, ls, m);
      }
    } else {
      var ls := OutOfStepFails(s, m);
    }
  }
}
