/** Exactly when the order of the posts leaves a member with the room's board. A clear and a
    begun stroke that are being posted at the same time can overtake each other on the way to a
    third member's strand; nothing else can go wrong. */
module Races {
  import opened Types
  import opened RoomSpec
  import opened RoomInvariant
  import opened Replica
  import opened Convergence
  import opened Reordering
  import opened Arrivals
  import opened Shell
  import opened Agreement
  import opened Saving
  import opened Delivery

  /** What the member's copy holds: its snapshot and the events as they reached it. */
  function Copy(s: Server, m: ClientId): Keyed
    requires m in s.base && s.base[m].SnapshotMsg?
  {
    KeyedFold(KeyOf(s.base[m].state), s.Seen(m))
  }

  ghost predicate HasBase(s: Server, m: ClientId) {
    m in s.base && s.base[m].SnapshotMsg? && s.base[m].room in s.rooms
  }

  function BoardOf(s: Server, m: ClientId): Board
    requires HasBase(s, m)
  {
    s.rooms[s.base[m].room].room.board
  }

  ghost predicate Shown(s: Server, m: ClientId) {
    HasBase(s, m) && Shows(Copy(s, m), BoardOf(s, m))
  }

  /** A clear is still to be posted to the member. */
  ghost predicate ClearComing(s: Server, m: ClientId)
    requires HasBase(s, m)
  {
    exists a, p :: p in Coming(s, a, m) && p.ClearOut?
  }

  /** The beginning of stroke `x` is still to be posted to the member. */
  ghost predicate BeginComing(s: Server, m: ClientId, x: StrokeId)
    requires HasBase(s, m)
  {
    exists a, p :: p in Coming(s, a, m) && p.StrokeBeginOut? && p.id == x
  }

  /** While a clear is still to be posted to the member, the board is empty and no stroke's beginning is still to be
      posted; otherwise the strokes in the copy and those still to be begun there are the ones on the board. */
  ghost predicate InStep(s: Server, m: ClientId) {
    HasBase(s, m) &&
    if ClearComing(s, m) then
      BoardOf(s, m).strokes == [] && forall x :: !BeginComing(s, m, x)
    else
      forall x :: x in Copy(s, m).strokes || BeginComing(s, m, x) <==> x in KeyOf(BoardOf(s, m)).strokes
  }

  // ----- Once everything has been posted -----

  lemma EmptyKeys(strokes: seq<Stroke>)
    ensures strokes == [] <==> forall x :: x !in ById(strokes)
  {
    if strokes != [] {
      assert strokes[|strokes| - 1].id in ById(strokes);
    }
  }

  lemma SeenAll(s: Server, m: ClientId)
    requires RoomsInv(s) && m in s.base && m in s.registered && MemberServed(s, m)
    requires forall a :: OutgoingOf(s, a, m) == []
    ensures
      var b := s.base[m];
      var tail := Tail(s.rooms, b.room, b.lastSeq);
      && KeepsAuthorOrder(tail, s.Seen(m)) && IdsByAuthor(tail)
      && KeyedFold(KeyOf(b.state), tail) == KeyOf(BoardOf(s, m))
      && Increasing(BoardOf(s, m).strokes)
  {
    var b := s.base[m];
    var h := s.rooms[b.room];
    forall a ensures By(s.Seen(m), a) == By(Tail(s.rooms, b.room, b.lastSeq), a) {
      AllSeen(s, m, a);
    }
    TailFacts(h, b.lastSeq, b.state);
    KeyedFollowsReplay(b.state, Tail(s.rooms, b.room, b.lastSeq));
  }

  lemma ShowsIffNames(state: Board, tail: seq<Payload>, seen: seq<Payload>, board: Board)
    requires KeepsAuthorOrder(tail, seen) && IdsByAuthor(tail)
    requires KeyedFold(KeyOf(state), tail) == KeyOf(board) && Increasing(board.strokes)
    ensures Shows(KeyedFold(KeyOf(state), seen), board) <==>
            forall x :: x in KeyedFold(KeyOf(state), seen).strokes <==> x in KeyOf(board).strokes
  {
    var k := KeyOf(state);
    var copy := KeyedFold(k, seen);
    ByIdSelfKeyed(state.strokes);
    FoldSelfKeyed(k, seen);
    ShowsIffKeyed(copy, board);
    if forall x :: x in copy.strokes <==> x in KeyOf(board).strokes {
      assert copy.strokes.Keys == KeyOf(board).strokes.Keys;
      NamesDecide(k, tail, seen);
    }
  }

  lemma NothingComing(s: Server, m: ClientId)
    requires HasBase(s, m) && forall a :: OutgoingOf(s, a, m) == []
    ensures InStep(s, m) <==> forall x :: x in Copy(s, m).strokes <==> x in KeyOf(BoardOf(s, m)).strokes
  {
    assert forall a :: Coming(s, a, m) == [];
  }

  /** With nothing left to be posted, the copy shows the board exactly when the member is in step. */
  lemma ShownIffInStep(s: Server, m: ClientId)
    requires RoomsInv(s) && m in s.base && m in s.registered && MemberServed(s, m) && AllPosted(s, m)
    ensures Shown(s, m) <==> InStep(s, m)
  {
    SeenAll(s, m);
    var b := s.base[m];
    ShowsIffNames(b.state, Tail(s.rooms, b.room, b.lastSeq), s.Seen(m), BoardOf(s, m));
    NothingComing(s, m);
  }

  // ----- A step without a command -----

  lemma CopyMoves(s: Server, a: Action, m: ClientId)
    requires !Runs(a) && (a.Act? ==> a.c in s.sessions && SendStep(s, s.sessions[a.c], a))
    requires HasBase(s, m) && m in s.registered && s.nextClientId !in s.sessions && s.nextRoomId !in s.rooms
    ensures
      var s' := Perform(s, a);
      var front := Front(s, a, m);
      && HasBase(s', m) && s'.base[m] == s.base[m] && BoardOf(s', m) == BoardOf(s, m)
      && Copy(s', m) == (if front == [] then Copy(s, m) else KeyedOne(Copy(s, m), front[0]))
      && (forall d :: Coming(s, d, m) == (if a.Act? && d == a.c then front + Coming(s', d, m) else Coming(s', d, m)))
      && (front != [] ==> a.Act?)
  {
    MoveSees(s, a, m);
    var front := Front(s, a, m);
    KeyedFoldConcat(KeyOf(s.base[m].state), s.Seen(m), front);
    if front != [] {
      assert front == [front[0]];
      KeyedFoldOne(Copy(s, m), front[0]);
    }
  }

  lemma {:induction false} ComingMoves(s: Server, s': Server, front: seq<Payload>, c: ClientId, acts: bool, m: ClientId)
    requires HasBase(s, m) && HasBase(s', m) && |front| <= 1 && (front != [] ==> acts)
    requires forall d :: Coming(s, d, m) == if acts && d == c then front + Coming(s', d, m) else Coming(s', d, m)
    ensures ClearComing(s, m) <==> (front != [] && front[0].ClearOut?) || ClearComing(s', m)
    ensures forall x :: BeginComing(s, m, x) <==>
              (front != [] && front[0].StrokeBeginOut? && front[0].id == x) || BeginComing(s', m, x)
  {
    FrontOnly(s, s', front, c, acts, m);
    ClearsMove(s, s', front, m);
    BeginsMove(s, s', front, m);
  }

  /** Between the two states, only `front` has been taken off what is coming to the member. */
  ghost predicate OnlyFront(s: Server, s': Server, front: seq<Payload>, m: ClientId)
    requires HasBase(s, m) && HasBase(s', m)
  {
    && |front| <= 1 && (front != [] ==> exists d :: front[0] in Coming(s, d, m))
    && (forall d, p :: p in Coming(s', d, m) ==> p in Coming(s, d, m))
    && (forall d, p :: p in Coming(s, d, m) ==> (front != [] && p == front[0]) || p in Coming(s', d, m))
  }

  lemma {:induction false} FrontOnly(s: Server, s': Server, front: seq<Payload>, c: ClientId, acts: bool, m: ClientId)
    requires HasBase(s, m) && HasBase(s', m) && |front| <= 1 && (front != [] ==> acts)
    requires forall d :: Coming(s, d, m) == if acts && d == c then front + Coming(s', d, m) else Coming(s', d, m)
    ensures OnlyFront(s, s', front, m)
  {
    if front != [] {
      assert front[0] in Coming(s, c, m);
    }
    forall d
      ensures forall p :: p in Coming(s', d, m) ==> p in Coming(s, d, m)
      ensures forall p :: p in Coming(s, d, m) ==> (front != [] && p == front[0]) || p in Coming(s', d, m)
    {
      FrontAndRest(front, Coming(s', d, m), Coming(s, d, m));
    }
  }

  lemma FrontAndRest(front: seq<Payload>, rest: seq<Payload>, all: seq<Payload>)
    requires |front| <= 1 && (all == front + rest || all == rest)
    ensures forall p :: p in rest ==> p in all
    ensures forall p :: p in all ==> (front != [] && p == front[0]) || p in rest
  {
  }

  lemma {:induction false} ClearsMove(s: Server, s': Server, front: seq<Payload>, m: ClientId)
    requires HasBase(s, m) && HasBase(s', m) && OnlyFront(s, s', front, m)
    ensures ClearComing(s, m) <==> (front != [] && front[0].ClearOut?) || ClearComing(s', m)
  {
  }

  lemma {:induction false} BeginsMove(s: Server, s': Server, front: seq<Payload>, m: ClientId)
    requires HasBase(s, m) && HasBase(s', m) && OnlyFront(s, s', front, m)
    ensures forall x :: BeginComing(s, m, x) <==>
              (front != [] && front[0].StrokeBeginOut? && front[0].id == x) || BeginComing(s', m, x)
  {
  }

  /** A step that runs no command keeps a member in step; and as long as no clear is coming it cannot bring it back in
      step either. */
  lemma {:induction false} MoveKeepsInStep(s: Server, a: Action, m: ClientId)
    requires !Runs(a) && (a.Act? ==> a.c in s.sessions && SendStep(s, s.sessions[a.c], a))
    requires HasBase(s, m) && m in s.registered && s.nextClientId !in s.sessions && s.nextRoomId !in s.rooms
    ensures HasBase(Perform(s, a), m) && BoardOf(Perform(s, a), m) == BoardOf(s, m)
    ensures InStep(s, m) ==> InStep(Perform(s, a), m)
    ensures !ClearComing(s, m) ==> !ClearComing(Perform(s, a), m) && (InStep(s, m) <==> InStep(Perform(s, a), m))
  {
    var s' := Perform(s, a);
    var front := Front(s, a, m);
    CopyMoves(s, a, m);
    ComingMoves(s, s', front, if a.Act? then a.c else 0, a.Act?, m);
    FrontKeepsInStep(s, s', front, m);
  }

  lemma {:induction false} FrontKeepsInStep(s: Server, s': Server, front: seq<Payload>, m: ClientId)
    requires HasBase(s, m) && HasBase(s', m) && BoardOf(s', m) == BoardOf(s, m)
    requires Copy(s', m) == if front == [] then Copy(s, m) else KeyedOne(Copy(s, m), front[0])
    requires ClearComing(s, m) <==> (front != [] && front[0].ClearOut?) || ClearComing(s', m)
    requires forall x :: BeginComing(s, m, x) <==>
               (front != [] && front[0].StrokeBeginOut? && front[0].id == x) || BeginComing(s', m, x)
    ensures InStep(s, m) ==> InStep(s', m)
    ensures !ClearComing(s, m) ==> !ClearComing(s', m) && (InStep(s, m) <==> InStep(s', m))
  {
    EmptyKeys(BoardOf(s, m).strokes);
    if front != [] {
      NamesAfter(Copy(s, m), front[0]);
    }
  }

  lemma NamesAfter(k: Keyed, p: Payload)
    ensures forall x :: x in KeyedOne(k, p).strokes <==>
              !p.ClearOut? && (x in k.strokes || (p.StrokeBeginOut? && p.id == x))
  {
  }

  // ----- A step with a command -----

  /** What a command adds to the history of the member's room. */
  function News(s: Server, a: Action, m: ClientId): seq<Payload>
    requires HasBase(s, m)
  {
    if Runs(a) && a.cmd.value.0 == s.base[m].room
    then Payloads(Added(Execute(s.rooms[a.cmd.value.0].room, a.cmd.value.1))) else []
  }

  /** Among the news is a clear while a stroke's beginning is still to be posted to the member, or a stroke's beginning
      while a clear is. */
  ghost predicate RaceIn(s: Server, news: seq<Payload>, m: ClientId)
    requires HasBase(s, m)
  {
    exists p :: p in news && ((p.ClearOut? && exists x :: BeginComing(s, m, x)) || (p.StrokeBeginOut? && ClearComing(s, m)))
  }

  lemma {:induction false} NothingOpened(k: Keyed, ps: seq<Payload>)
    requires forall p :: p in ps ==> !Opening(p)
    ensures KeyedFold(k, ps).strokes.Keys == k.strokes.Keys
  {
    if ps != [] {
      var n := |ps| - 1;
      assert ps == ps[..n] + [ps[n]] && ps[n] in ps;
      NothingOpened(k, ps[..n]);
      NamesAfter(KeyedFold(k, ps[..n]), ps[n]);
    }
  }

  /** The facts of a command that leaves the member's base as it is. */
  ghost predicate Commands(s: Server, a: Action, m: ClientId) {
    && Runs(a) && a.c in s.sessions && SendStep(s, s.sessions[a.c], a)
    && HasBase(s, m) && BaseOk(s, m) && HistoryInv(s.rooms[a.cmd.value.0]) && HistoryInv(s.rooms[s.base[m].room])
    && a.cmd.value.1 != Join(m) && a.cmd.value.1 != Leave(m)
    && (a.c == m ==> a.cmd.value.0 == s.base[m].room)
  }

  /** From `s` to `s'` the board, the copy and what is coming take in a command's news. */
  ghost predicate TakesIn(s: Server, s': Server, m: ClientId, c: ClientId, news: seq<Payload>) {
    && HasBase(s, m) && HasBase(s', m) && s'.base[m] == s.base[m]
    && KeyOf(BoardOf(s', m)) == KeyedFold(KeyOf(BoardOf(s, m)), news)
    && Copy(s', m) == (if c == m then KeyedFold(Copy(s, m), news) else Copy(s, m))
    && (forall d :: Coming(s', d, m) == if d == c && c != m then news else Coming(s, d, m))
    && Coming(s, c, m) == []
  }

  lemma {:induction false} CommandTakesIn(s: Server, a: Action, m: ClientId)
    requires Commands(s, a, m)
    ensures TakesIn(s, Perform(s, a), m, a.c, News(s, a, m))
  {
    CommandSees(s, a, m);
    KeyedFoldConcat(KeyOf(s.base[m].state), s.Seen(m), News(s, a, m));
    assert s.Seen(m) + [] == s.Seen(m);
    BoardTakesIn(s, a, m);
  }

  lemma {:induction false} BoardTakesIn(s: Server, a: Action, m: ClientId)
    requires Commands(s, a, m)
    ensures HasBase(Perform(s, a), m) && KeyOf(BoardOf(Perform(s, a), m)) == KeyedFold(KeyOf(BoardOf(s, m)), News(s, a, m))
  {
    var (q, cmd) := a.cmd.value;
    if q == s.base[m].room {
      StepReplays(s.rooms[q].room, cmd);
      KeyedFollowsReplay(BoardOf(s, m), News(s, a, m));
    }
  }

  lemma ComingCommands(s: Server, s': Server, m: ClientId, c: ClientId, news: seq<Payload>)
    requires TakesIn(s, s', m, c, news)
    ensures ClearComing(s', m) <==> ClearComing(s, m) || (c != m && exists p :: p in news && p.ClearOut?)
    ensures forall x :: BeginComing(s', m, x) <==>
              BeginComing(s, m, x) || (c != m && exists p :: p in news && p.StrokeBeginOut? && p.id == x)
  {
    forall d, p | p in Coming(s, d, m) ensures p in Coming(s', d, m) {
    }
    if c != m {
      forall p | p in news ensures p in Coming(s', c, m) {
      }
    }
    forall d, p | p in Coming(s', d, m) ensures p in Coming(s, d, m) || (c != m && p in news) {
    }
  }

  /** A command that begins no stroke and clears nothing leaves things as they are. */
  lemma OtherKeepsInStep(s: Server, s': Server, m: ClientId, c: ClientId, news: seq<Payload>)
    requires TakesIn(s, s', m, c, news) && forall p :: p in news ==> !Opening(p)
    ensures InStep(s', m) <==> InStep(s, m)
  {
    ComingCommands(s, s', m, c, news);
    NothingOpened(Copy(s, m), news);
    NothingOpened(KeyOf(BoardOf(s, m)), news);
    assert KeyOf(BoardOf(s', m)).strokes.Keys == KeyOf(BoardOf(s, m)).strokes.Keys;
    assert Copy(s', m).strokes.Keys == Copy(s, m).strokes.Keys;
    EmptyKeys(BoardOf(s, m).strokes);
    EmptyKeys(BoardOf(s', m).strokes);
  }

  /** Whatever went before, a clear brings the member in step if no stroke's beginning is coming, and only then. */
  lemma ClearInStepIff(s: Server, s': Server, m: ClientId, c: ClientId, p: Payload)
    requires TakesIn(s, s', m, c, [p]) && p.ClearOut?
    ensures InStep(s', m) <==> forall x :: !BeginComing(s, m, x)
  {
    ComingCommands(s, s', m, c, [p]);
    KeyedFoldOne(Copy(s, m), p);
    KeyedFoldOne(KeyOf(BoardOf(s, m)), p);
    EmptyKeys(BoardOf(s', m).strokes);
    assert p in [p];
  }

  /** A stroke begun keeps a member in step if no clear is coming, and only then. */
  lemma BeginInStepIff(s: Server, s': Server, m: ClientId, c: ClientId, p: Payload)
    requires TakesIn(s, s', m, c, [p]) && p.StrokeBeginOut? && InStep(s, m)
    requires p.id !in KeyOf(BoardOf(s, m)).strokes
    ensures InStep(s', m) <==> !ClearComing(s, m)
  {
    ComingCommands(s, s', m, c, [p]);
    KeyedFoldOne(Copy(s, m), p);
    KeyedFoldOne(KeyOf(BoardOf(s, m)), p);
    NamesAfter(Copy(s, m), p);
    NamesAfter(KeyOf(BoardOf(s, m)), p);
    EmptyKeys(BoardOf(s', m).strokes);
    assert p in [p];
  }

  lemma {:induction false} NamesBelow(strokes: seq<Stroke>, n: StrokeId)
    requires forall i :: 0 <= i < |strokes| ==> strokes[i].id < n
    ensures forall x :: x in ById(strokes) ==> x < n
  {
    if strokes != [] {
      NamesBelow(strokes[..|strokes| - 1], n);
    }
  }

  lemma NewIsNew(s: Server, a: Action, m: ClientId, p: Payload)
    requires Commands(s, a, m) && News(s, a, m) == [p] && p.StrokeBeginOut?
    ensures p.id !in KeyOf(BoardOf(s, m)).strokes
  {
    var room := s.rooms[s.base[m].room].room;
    assert p == News(s, a, m)[0] == Added(Execute(room, a.cmd.value.1))[0].payload;
    AddedPayloads(room, a.cmd.value.1, p);
    NamesBelow(room.board.strokes, room.nextStrokeId);
  }

  lemma {:induction false} RaceOfOne(s: Server, news: seq<Payload>, m: ClientId, p: Payload)
    requires HasBase(s, m) && news == [p]
    ensures RaceIn(s, news, m) <==>
            (p.ClearOut? && exists x :: BeginComing(s, m, x)) || (p.StrokeBeginOut? && ClearComing(s, m))
  {
    assert p in news && forall q :: q in news ==> q == p;
  }

  lemma {:induction false} NewsInStepIff(s: Server, s': Server, m: ClientId, c: ClientId, news: seq<Payload>)
    requires TakesIn(s, s', m, c, news) && InStep(s, m)
    requires forall p :: p in news && Opening(p) ==> news == [p]
    requires forall p :: p in news && p.StrokeBeginOut? ==> p.id !in KeyOf(BoardOf(s, m)).strokes
    ensures InStep(s', m) <==> !RaceIn(s, news, m)
  {
    if p :| p in news && Opening(p) {
      RaceOfOne(s, news, m, p);
      if p.ClearOut? {
        ClearInStepIff(s, s', m, c, p);
      } else {
        BeginInStepIff(s, s', m, c, p);
      }
    } else {
      OtherKeepsInStep(s, s', m, c, news);
      assert !RaceIn(s, news, m);
    }
  }

  /** From a member in step, a command leaves it in step exactly when it does not race. */
  lemma CommandInStepIff(s: Server, a: Action, m: ClientId)
    requires Commands(s, a, m) && InStep(s, m)
    ensures HasBase(Perform(s, a), m) && (InStep(Perform(s, a), m) <==> !RaceIn(s, News(s, a, m), m))
  {
    CommandTakesIn(s, a, m);
    forall p | p in News(s, a, m) && Opening(p)
      ensures News(s, a, m) == [p] && (p.StrokeBeginOut? ==> p.id !in KeyOf(BoardOf(s, m)).strokes)
    {
      NewsAlone(s, a, m, p);
      if p.StrokeBeginOut? {
        NewIsNew(s, a, m, p);
      }
    }
    NewsInStepIff(s, Perform(s, a), m, a.c, News(s, a, m));
  }

  lemma NewsAlone(s: Server, a: Action, m: ClientId, p: Payload)
    requires HasBase(s, m) && p in News(s, a, m) && Opening(p)
    ensures News(s, a, m) == [p]
  {
    OpeningAlone(s.rooms[a.cmd.value.0].room, a.cmd.value.1);
  }

  /** Whatever has gone wrong before, an accepted clear mends a member's copy exactly when no stroke's beginning is still
      to be posted to it. */
  lemma ClearMends(s: Server, a: Action, m: ClientId)
    requires Commands(s, a, m) && (exists p :: p in News(s, a, m) && p.ClearOut?)
    ensures HasBase(Perform(s, a), m) && (InStep(Perform(s, a), m) <==> forall x :: !BeginComing(s, m, x))
  {
    var p :| p in News(s, a, m) && p.ClearOut?;
    NewsAlone(s, a, m, p);
    CommandTakesIn(s, a, m);
    ClearInStepIff(s, Perform(s, a), m, a.c, p);
  }

  /** A member that joins is in step. */
  lemma {:induction false} JoinInStep(s: Server, a: Action, m: ClientId)
    requires TrafficInv(s) && Runs(a) && a.c == m && m in s.sessions && SendStep(s, s.sessions[m], a)
    requires a.cmd.value.1 == Join(m) && HistoryInv(s.rooms[a.cmd.value.0])
    ensures InStep(Perform(s, a), m)
  {
    var s' := Perform(s, a);
    FreshBase(s.rooms[a.cmd.value.0], m);
    JoinSees(s, a, m, m);
    forall d ensures Coming(s', d, m) == [] {
      JoinSees(s, a, m, d);
    }
    FreshInStep(s', m);
  }

  lemma {:induction false} FreshInStep(s: Server, m: ClientId)
    requires HasBase(s, m) && BoardOf(s, m) == s.base[m].state
    requires s.Seen(m) == [] && forall d :: Coming(s, d, m) == []
    ensures InStep(s, m)
  {
    assert Copy(s, m) == KeyOf(BoardOf(s, m));
  }
}
