/** What holds of a room and its history after every run of commands. */
module RoomInvariant {
  import opened Types
  import opened RoomSpec
  import opened Replica

  /** The id index is exactly the inverse of the stroke list. */
  ghost predicate IndexExact(strokes: seq<Stroke>, index: map<StrokeId, nat>) {
    && (forall i :: 0 <= i < |strokes| ==> strokes[i].id in index && index[strokes[i].id] == i)
    && (forall id :: id in index ==> index[id] < |strokes| && strokes[index[id]].id == id)
  }

  ghost predicate Open(stroke: Stroke, active: map<ClientId, StrokeId>) {
    stroke.author in active && active[stroke.author] == stroke.id
  }

  /** A stroke is unfinished exactly when it is its author's active stroke. */
  ghost predicate OpenExact(strokes: seq<Stroke>, active: map<ClientId, StrokeId>) {
    forall i :: 0 <= i < |strokes| ==> (!strokes[i].finished <==> Open(strokes[i], active))
  }

  /** Every active stroke is on the board, under its author's name. */
  ghost predicate ActiveKnown(strokes: seq<Stroke>, index: map<StrokeId, nat>, active: map<ClientId, StrokeId>) {
    forall c :: c in active ==>
      active[c] in index && index[active[c]] < |strokes| && strokes[index[active[c]]].author == c
  }

  /** Only an author's last stroke can be unfinished. */
  ghost predicate OpenIsLast(strokes: seq<Stroke>) {
    forall i, j :: 0 <= i < j < |strokes| && strokes[i].author == strokes[j].author ==> strokes[i].finished
  }

  /** Ids and orders increase along the list. */
  ghost predicate Increasing(strokes: seq<Stroke>) {
    forall i, j :: 0 <= i < j < |strokes| ==>
      strokes[i].id < strokes[j].id && strokes[i].strokeOrder < strokes[j].strokeOrder
  }

  /** Ids and orders are below the counters, and every stroke has a point. */
  ghost predicate Bounded(strokes: seq<Stroke>, nextSeq: Seq, nextStrokeId: StrokeId) {
    forall i :: 0 <= i < |strokes| ==>
      && 1 <= strokes[i].id < nextStrokeId
      && 1 <= strokes[i].strokeOrder < nextSeq
      && strokes[i].points != []
  }

  ghost predicate CursorsOfMembers(s: RoomState) {
    s.board.cursors.Keys == s.lastCursorUpdate.Keys && s.board.cursors.Keys <= s.members
  }

  ghost predicate Inv(s: RoomState) {
    && 1 <= s.nextSeq && 1 <= s.nextStrokeId
    && CursorsOfMembers(s)
    && s.activeStroke.Keys <= s.members
    && StrokesInv(s.board.strokes, s.strokeIndex, s.activeStroke, s.nextSeq, s.nextStrokeId)
  }

  ghost predicate StrokesInv(strokes: seq<Stroke>, index: map<StrokeId, nat>, active: map<ClientId, StrokeId>,
                             nextSeq: Seq, nextStrokeId: StrokeId)
  {
    && IndexExact(strokes, index)
    && OpenExact(strokes, active)
    && ActiveKnown(strokes, index, active)
    && OpenIsLast(strokes)
    && Increasing(strokes)
    && Bounded(strokes, nextSeq, nextStrokeId)
  }

  ghost predicate SameIdentity(a: Stroke, b: Stroke) {
    a.id == b.id && a.author == b.author && a.strokeOrder == b.strokeOrder
  }

  lemma EditKeepsIndex(strokes: seq<Stroke>, index: map<StrokeId, nat>, nextSeq: Seq, nextStrokeId: StrokeId, k: nat, t: Stroke)
    requires IndexExact(strokes, index) && Increasing(strokes) && Bounded(strokes, nextSeq, nextStrokeId)
    requires k < |strokes| && SameIdentity(strokes[k], t) && t.points != []
    ensures IndexExact(strokes[k := t], index) && Increasing(strokes[k := t]) && Bounded(strokes[k := t], nextSeq + 1, nextStrokeId)
  {
  }

  lemma EditKeepsOpen(strokes: seq<Stroke>, active: map<ClientId, StrokeId>, c: ClientId, k: nat, t: Stroke)
    requires OpenExact(strokes, active) && OpenIsLast(strokes) && Increasing(strokes)
    requires k < |strokes| && strokes[k].author == c && c in active && active[c] == strokes[k].id && SameIdentity(strokes[k], t)
    ensures OpenExact(strokes[k := t], if t.finished then active - {c} else active) && OpenIsLast(strokes[k := t])
  {
    var strokes' := strokes[k := t];
    var active' := if t.finished then active - {c} else active;
    assert Open(strokes[k], active);
    forall i | 0 <= i < |strokes'| ensures !strokes'[i].finished <==> Open(strokes'[i], active') {
      if i != k && strokes[i].author == c {
        assert strokes[i].id != strokes[k].id;
        assert strokes[i].finished;
      }
    }
    forall i, j | 0 <= i < j < |strokes'| && strokes'[i].author == strokes'[j].author ensures strokes'[i].finished {
      assert strokes[i].author == strokes[j].author;
      assert strokes[i].finished;
    }
  }

  /** Editing the active stroke of `c` in place keeps everything, whether it stays open or is finished. */
  lemma EditKeepsInv(strokes: seq<Stroke>, index: map<StrokeId, nat>, active: map<ClientId, StrokeId>,
                     nextSeq: Seq, nextStrokeId: StrokeId, c: ClientId, t: Stroke)
    requires StrokesInv(strokes, index, active, nextSeq, nextStrokeId)
    requires c in active
    requires SameIdentity(strokes[index[active[c]]], t) && t.points != []
    ensures
      var active' := if t.finished then active - {c} else active;
      StrokesInv(strokes[index[active[c]] := t], index, active', nextSeq + 1, nextStrokeId)
  {
    var k := index[active[c]];
    EditKeepsIndex(strokes, index, nextSeq, nextStrokeId, k, t);
    EditKeepsOpen(strokes, active, c, k, t);
    assert ActiveKnown(strokes[k := t], index, if t.finished then active - {c} else active);
  }

  lemma BeginKeepsIndex(strokes: seq<Stroke>, index: map<StrokeId, nat>, nextSeq: Seq, nextStrokeId: StrokeId, t: Stroke)
    requires IndexExact(strokes, index) && Increasing(strokes) && Bounded(strokes, nextSeq, nextStrokeId)
    requires 1 <= t.id == nextStrokeId && 1 <= t.strokeOrder == nextSeq && t.points != []
    ensures t.id !in index
    ensures IndexExact(strokes + [t], index[t.id := |strokes|])
    ensures Increasing(strokes + [t]) && Bounded(strokes + [t], nextSeq + 1, nextStrokeId + 1)
  {
    assert t.id !in index;
  }

  lemma BeginKeepsActive(strokes: seq<Stroke>, index: map<StrokeId, nat>, active: map<ClientId, StrokeId>, t: Stroke)
    requires ActiveKnown(strokes, index, active) && t.id !in index
    ensures ActiveKnown(strokes + [t], index[t.id := |strokes|], active[t.author := t.id])
  {
    var active' := active[t.author := t.id];
    forall c | c in active' && c != t.author ensures active'[c] in index && active'[c] != t.id {
    }
  }

  lemma BeginKeepsOpen(strokes: seq<Stroke>, active: map<ClientId, StrokeId>, t: Stroke)
    requires OpenExact(strokes, active) && OpenIsLast(strokes)
    requires t.author !in active && !t.finished
    requires forall i :: 0 <= i < |strokes| ==> strokes[i].id != t.id
    ensures OpenExact(strokes + [t], active[t.author := t.id]) && OpenIsLast(strokes + [t])
  {
    var strokes', active' := strokes + [t], active[t.author := t.id];
    forall i | 0 <= i < |strokes'| ensures !strokes'[i].finished <==> Open(strokes'[i], active') {
      if i < |strokes| {
        assert strokes'[i] == strokes[i];
      }
    }
    forall i, j | 0 <= i < j < |strokes'| && strokes'[i].author == strokes'[j].author ensures strokes'[i].finished {
      if j == |strokes| {
        assert !Open(strokes[i], active);
      }
    }
  }

  lemma BeginKeepsInv(strokes: seq<Stroke>, index: map<StrokeId, nat>, active: map<ClientId, StrokeId>,
                      nextSeq: Seq, nextStrokeId: StrokeId, t: Stroke)
    requires StrokesInv(strokes, index, active, nextSeq, nextStrokeId)
    requires 1 <= t.id == nextStrokeId && 1 <= t.strokeOrder == nextSeq
    requires t.author !in active && !t.finished && t.points != []
    ensures StrokesInv(strokes + [t], index[t.id := |strokes|], active[t.author := t.id], nextSeq + 1, nextStrokeId + 1)
  {
    BeginKeepsIndex(strokes, index, nextSeq, nextStrokeId, t);
    BeginKeepsActive(strokes, index, active, t);
    BeginKeepsOpen(strokes, active, t);
  }

  lemma EndOpenStrokeKeepsInv(s: RoomState, c: ClientId)
    requires Inv(s) && c in s.members
    ensures Inv(EndOpenStroke(s, c).0)
    ensures c !in EndOpenStroke(s, c).0.activeStroke
  {
    if c in s.activeStroke {
      var k := s.strokeIndex[s.activeStroke[c]];
      EditKeepsInv(s.board.strokes, s.strokeIndex, s.activeStroke, s.nextSeq, s.nextStrokeId, c, Finish(s.board.strokes[k]));
    }
  }

  lemma LeaveKeepsInv(s: RoomState, c: ClientId)
    requires Inv(s)
    ensures Inv(LeaveRoom(s, c).room)
  {
    if c in s.members {
      EndOpenStrokeKeepsInv(s, c);
      var ended := EndOpenStroke(s, c).0;
      assert ended.activeStroke.Keys <= ended.members - {c};
    }
  }

  lemma StrokeBeginKeepsInv(s: RoomState, c: ClientId, color: Color, thickness: Thickness, start: Point)
    requires Inv(s) && c in s.members
    ensures Inv(ApplyStrokeBegin(s, c, color, thickness, start).room)
  {
    if c !in s.activeStroke {
      BeginKeepsInv(s.board.strokes, s.strokeIndex, s.activeStroke, s.nextSeq, s.nextStrokeId,
                    Stroke(s.nextStrokeId, c, color, thickness, s.nextSeq, [start], false));
    }
  }

  lemma StrokePointKeepsInv(s: RoomState, c: ClientId, p: Point)
    requires Inv(s) && c in s.members
    ensures Inv(ApplyStrokePoint(s, c, p).room)
  {
    if c in s.activeStroke {
      var k := s.strokeIndex[s.activeStroke[c]];
      assert Open(s.board.strokes[k], s.activeStroke);
      EditKeepsInv(s.board.strokes, s.strokeIndex, s.activeStroke, s.nextSeq, s.nextStrokeId, c, AddPoint(s.board.strokes[k], p));
    }
  }

  lemma CursorMoveKeepsInv(s: RoomState, c: ClientId, p: Point, now: TimePoint)
    requires Inv(s) && c in s.members
    ensures Inv(ApplyCursorMove(s, c, p, now).room)
  {
  }

  lemma ApplyKeepsInv(s: RoomState, c: ClientId, event: Event, now: TimePoint)
    requires Inv(s) && c in s.members
    ensures Inv(ApplyEvent(s, c, event, now).room)
  {
    match event
    case StrokeBegin(color, thickness, start) => StrokeBeginKeepsInv(s, c, color, thickness, start);
    case StrokePoint(p) => StrokePointKeepsInv(s, c, p);
    case StrokeEnd => EndOpenStrokeKeepsInv(s, c);
    case CursorMove(p) => CursorMoveKeepsInv(s, c, p, now);
    case Clear =>
  }

  lemma ExecuteKeepsInv(s: RoomState, cmd: Command)
    requires Inv(s)
    ensures Inv(Execute(s, cmd).room)
  {
    match cmd
    case Join(_) =>
    case Leave(c) => LeaveKeepsInv(s, c);
    case Apply(c, event, now) =>
      if c in s.members {
        ApplyKeepsInv(s, c, event, now);
      }
  }

  /** The branches that answer "unknown stroke id" are never taken. */
  lemma ActiveStrokeIsKnown(s: RoomState, c: ClientId)
    requires Inv(s) && c in s.activeStroke
    ensures s.activeStroke[c] in s.strokeIndex
    ensures forall p :: ApplyStrokePoint(s, c, p).reply.Ok?
    ensures ApplyStrokeEnd(s, c).reply.Ok?
  {
  }
}
