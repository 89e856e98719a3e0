/** Members that are told of the room's events in another order than they were numbered. */
module Arrivals {
  import opened Types
  import opened RoomSpec
  import opened RoomInvariant
  import opened Replica
  import opened Convergence
  import opened Reordering

  /** The strokes under their ids. */
  function ById(strokes: seq<Stroke>): map<StrokeId, Stroke> {
    if strokes == [] then map[]
    else ById(strokes[..|strokes| - 1])[strokes[|strokes| - 1].id := strokes[|strokes| - 1]]
  }

  function KeyOf(b: Board): Keyed {
    Keyed(ById(b.strokes), b.cursors)
  }

  /** `strokes` is what sorting the values of `m` by their `strokeOrder` gives. */
  ghost predicate SortedValues(strokes: seq<Stroke>, m: map<StrokeId, Stroke>) {
    && (forall i, j :: 0 <= i < j < |strokes| ==> strokes[i].strokeOrder < strokes[j].strokeOrder)
    && (forall i :: 0 <= i < |strokes| ==> Lookup(m, strokes[i].id) == Some(strokes[i]))
    && (forall id :: id in m ==> m[id] in strokes)
  }

  ghost predicate SelfKeyed(m: map<StrokeId, Stroke>) {
    forall id :: id in m ==> m[id].id == id
  }

  /** The replica, its strokes sorted by `strokeOrder`, shows the board. */
  ghost predicate Shows(k: Keyed, b: Board) {
    SortedValues(b.strokes, k.strokes) && b.cursors == k.cursors
  }

  /** There is at most one way to sort the values. */
  lemma {:induction false} SortIsUnique(a: seq<Stroke>, b: seq<Stroke>, m: map<StrokeId, Stroke>)
    requires SortedValues(a, m) && SortedValues(b, m) && SelfKeyed(m)
    ensures a == b
  {
    BothEmpty(a, b, m);
    BothEmpty(b, a, m);
    if a != [] && b != [] {
      var i, j := |a| - 1, |b| - 1;
      InBoth(a, b, m, i);
      InBoth(b, a, m, j);
      assert a[i] == b[j];
      SortedInit(a, m);
      SortedInit(b, m);
      SortIsUnique(a[..i], b[..j], m - {a[i].id});
    }
  }

  lemma InBoth(a: seq<Stroke>, b: seq<Stroke>, m: map<StrokeId, Stroke>, i: nat)
    requires SortedValues(a, m) && SortedValues(b, m) && i < |a|
    ensures a[i] in b
  {
    assert Lookup(m, a[i].id) == Some(a[i]);
  }

  lemma BothEmpty(a: seq<Stroke>, b: seq<Stroke>, m: map<StrokeId, Stroke>)
    requires SortedValues(a, m) && SortedValues(b, m)
    ensures a != [] ==> b != []
  {
    if a != [] {
      InBoth(a, b, m, 0);
    }
  }

  lemma SortedInit(a: seq<Stroke>, m: map<StrokeId, Stroke>)
    requires a != [] && SortedValues(a, m) && SelfKeyed(m)
    ensures SortedValues(a[..|a| - 1], m - {a[|a| - 1].id})
  {
    var n := |a| - 1;
    var m' := m - {a[n].id};
    assert Lookup(m, a[n].id) == Some(a[n]);
    forall i | 0 <= i < n ensures Lookup(m', a[i].id) == Some(a[i]) {
      assert Lookup(m, a[i].id) == Some(a[i]);
      assert a[i].strokeOrder < a[n].strokeOrder;
    }
    forall id | id in m' ensures m'[id] in a[..n] {
      var i :| 0 <= i < |a| && a[i] == m[id];
      assert a[..n][i] == m[id];
    }
  }

  // ----- The keyed replica follows the ordered one -----

  lemma {:induction false} ByIdAppend(strokes: seq<Stroke>, id: StrokeId, p: Point)
    ensures
      var m := ById(strokes);
      ById(AppendTo(strokes, id, p)) == if id in m then m[id := m[id].(points := m[id].points + [p])] else m
  {
    if strokes != [] {
      var n := |strokes| - 1;
      ByIdAppend(strokes[..n], id, p);
      assert AppendTo(strokes, id, p)[..n] == AppendTo(strokes[..n], id, p);
    }
  }

  lemma {:induction false} ByIdFinish(strokes: seq<Stroke>, id: StrokeId)
    ensures
      var m := ById(strokes);
      ById(FinishIn(strokes, id)) == if id in m then m[id := m[id].(finished := true)] else m
  {
    if strokes != [] {
      var n := |strokes| - 1;
      ByIdFinish(strokes[..n], id);
      assert FinishIn(strokes, id)[..n] == FinishIn(strokes[..n], id);
    }
  }

  lemma {:induction false} KeyedFollowsReplay(b: Board, ps: seq<Payload>)
    ensures KeyedFold(KeyOf(b), ps) == KeyOf(Replay(b, ps))
  {
    if ps != [] {
      var init, p := ps[..|ps| - 1], ps[|ps| - 1];
      KeyedFollowsReplay(b, init);
      var mid := Replay(b, init);
      assert ps == init + [p];
      ReplayConcat(b, init, [p]);
      assert [p][1..] == [];
      assert Replay(mid, [p]) == ReplayOne(mid, p);
      match p
      case StrokeBeginOut(_, _, _, _, _, _) => assert (mid.strokes + [BegunStroke(p)])[..|mid.strokes|] == mid.strokes;
      case StrokePointOut(_, id, point) => ByIdAppend(mid.strokes, id, point);
      case StrokeEndOut(_, id) => ByIdFinish(mid.strokes, id);
      case CursorMoveOut(_, _) =>
      case ClearOut(_) =>
      case MemberLeftOut(_) =>
    }
  }

  lemma {:induction false} BoardSortsItself(strokes: seq<Stroke>)
    requires Increasing(strokes)
    ensures SortedValues(strokes, ById(strokes))
  {
    if strokes != [] {
      var n := |strokes| - 1;
      BoardSortsItself(strokes[..n]);
      forall i | 0 <= i < |strokes| ensures Lookup(ById(strokes), strokes[i].id) == Some(strokes[i]) {
        if i < n {
          assert strokes[..n][i] == strokes[i] && strokes[i].id < strokes[n].id;
          assert Lookup(ById(strokes[..n]), strokes[i].id) == Some(strokes[i]);
        }
      }
    }
  }

  lemma {:induction false} FoldSelfKeyed(k: Keyed, ps: seq<Payload>)
    requires SelfKeyed(k.strokes)
    ensures SelfKeyed(KeyedFold(k, ps).strokes)
  {
    if ps != [] {
      FoldSelfKeyed(k, ps[..|ps| - 1]);
    }
  }

  lemma {:induction false} ByIdSelfKeyed(strokes: seq<Stroke>)
    ensures SelfKeyed(ById(strokes))
  {
    if strokes != [] {
      ByIdSelfKeyed(strokes[..|strokes| - 1]);
    }
  }

  /** A replica shows a board exactly when it holds the board's strokes under their ids. */
  lemma ShowsIffKeyed(k: Keyed, b: Board)
    requires Increasing(b.strokes) && SelfKeyed(k.strokes)
    ensures Shows(k, b) <==> k == KeyOf(b)
  {
    var m := ById(b.strokes);
    BoardSortsItself(b.strokes);
    ByIdSelfKeyed(b.strokes);
    if SortedValues(b.strokes, k.strokes) {
      forall id ensures Lookup(k.strokes, id) == Lookup(m, id) {
        SameValueUnder(b.strokes, k.strokes, m, id);
        SameValueUnder(b.strokes, m, k.strokes, id);
      }
      SameLookups(k.strokes, m);
    }
  }

  lemma SameValueUnder(strokes: seq<Stroke>, m: map<StrokeId, Stroke>, m': map<StrokeId, Stroke>, id: StrokeId)
    requires SortedValues(strokes, m) && SortedValues(strokes, m') && SelfKeyed(m)
    ensures id in m ==> Lookup(m', id) == Some(m[id])
  {
    if id in m {
      var i :| 0 <= i < |strokes| && strokes[i] == m[id];
      assert Lookup(m', strokes[i].id) == Some(strokes[i]);
    }
  }

  lemma OwnedIdsByAuthor(h: History, n: nat)
    requires Owned(h) && n <= |h.log|
    ensures IdsByAuthor(Payloads(h.log[n..]))
  {
    var ps := Payloads(h.log[n..]);
    forall i, j | 0 <= i < |ps| && 0 <= j < |ps| && ps[i].OnStroke() && ps[j].OnStroke() && ps[i].id == ps[j].id
      ensures ps[i].Author() == ps[j].Author()
    {
      assert SameOwner(h.log[n + i].payload, h.log[n + j].payload);
    }
  }

  /** From any reachable room on, whatever arrival order keeps each author's own order shows the room's board
      exactly when the clears among the events are harmless; in particular whenever there is no clear. */
  lemma TailArrivals(joined: History, cmds: seq<Command>)
    requires HistoryInv(joined)
    ensures joined.log <= Run(joined, cmds).log
    ensures
      var now := Run(joined, cmds);
      var sent := Payloads(now.log[|joined.log|..]);
      && IdsByAuthor(sent)
      && ((forall arrived :: KeepsAuthorOrder(sent, arrived) ==> Shows(KeyedFold(KeyOf(joined.room.board), arrived), now.room.board))
          <==> ClearsHarmless(sent))
  {
    var now := Run(joined, cmds);
    RunKeepsHistory(joined, cmds);
    LogGrows(joined, cmds);
    var n := |joined.log|;
    var sent := Payloads(now.log[n..]);
    OwnedIdsByAuthor(now, n);
    assert Payloads(now.log) == Payloads(joined.log) + sent;
    ReplayConcat(EMPTY_BOARD, Payloads(joined.log), sent);
    ShowsOnArrivals(joined.room.board, now.room.board, sent);
  }

  lemma {:induction false} LogGrows(h: History, cmds: seq<Command>)
    ensures h.log <= Run(h, cmds).log
    decreases |cmds|
  {
    if cmds != [] {
      LogGrows(Step(h, cmds[0]), cmds[1..]);
    }
  }

  lemma ShowsOnArrivals(before: Board, after: Board, sent: seq<Payload>)
    requires Increasing(after.strokes)
    requires Replay(before, sent) == after && IdsByAuthor(sent)
    ensures (forall arrived :: KeepsAuthorOrder(sent, arrived) ==> Shows(KeyedFold(KeyOf(before), arrived), after)) <==> ClearsHarmless(sent)
  {
    var k := KeyOf(before);
    KeyedFollowsReplay(before, sent);
    ByIdSelfKeyed(before.strokes);
    forall arrived
      ensures Shows(KeyedFold(k, arrived), after) <==> KeyedFold(k, arrived) == KeyedFold(k, sent)
    {
      FoldSelfKeyed(k, arrived);
      ShowsIffKeyed(KeyedFold(k, arrived), after);
    }
    OrderIrrelevantIff(k, sent);
  }

  /** Reordering convergence: a member that joined and never left, told of later events (its own included) in any
      order that keeps each author's own, sees the room's board after sorting by `strokeOrder` — for every such
      order exactly when each begun stroke is wiped by its own author or faces no other author's clear. */
  lemma {:induction false} ReorderingConvergence(before: seq<Command>, after: seq<Command>, m: ClientId)
    requires NeverLeaves(after, m)
    ensures
      var joined := Run(NEW_ROOM, before + [Join(m)]);
      var now := Run(NEW_ROOM, before + [Join(m)] + after);
      var sent := Heard(now.log, m, joined.room.LastSeq());
      && HistoryInv(joined)
      && ((forall arrived :: KeepsAuthorOrder(sent, arrived) ==> Shows(KeyedFold(KeyOf(joined.room.board), arrived), now.room.board))
          <==> ClearsHarmless(sent))
  {
    var joined := Run(NEW_ROOM, before + [Join(m)]);
    var now := Run(joined, after);
    RunLast(NEW_ROOM, before, Join(m));
    RunConcat(NEW_ROOM, before + [Join(m)], after);
    ReachableRoom(before + [Join(m)]);
    ReachableLog(before + [Join(m)] + after);
    MemberHearsAll(joined, after, m);
    HeardIsSuffix(now.log, m, |joined.log|);
    TailArrivals(joined, after);
  }

  /** Without clears there is nothing to harm. */
  lemma NoClearNoHarm(sent: seq<Payload>)
    requires forall p :: p in sent ==> !p.ClearOut?
    ensures ClearsHarmless(sent)
  {
    forall j | 0 <= j < |sent| ensures !sent[j].ClearOut? {
      assert sent[j] in sent;
    }
  }
}
