/** What a room's history tells by itself, without the room: its entries follow the grammar of drawing, strokes are
    counted and ordered by it, and comings and goings balance. */
module Ledger {
  import opened Types
  import opened RoomSpec
  import opened RoomInvariant
  import opened Convergence

  /** The stroke that `c` has begun and that has neither been ended nor wiped since. */
  function OpenStroke(log: seq<Entry>, c: ClientId): Option<StrokeId> {
    if log == [] then None
    else
      var n := |log| - 1;
      match log[n].payload
      case StrokeBeginOut(a, id, _, _, _, _) => if a == c then Some(id) else OpenStroke(log[..n], c)
      case StrokeEndOut(a, _) => if a == c then None else OpenStroke(log[..n], c)
      case ClearOut(_) => None
      case _ => OpenStroke(log[..n], c)
  }

  /** How many strokes have been begun. */
  function Begun(log: seq<Entry>): nat {
    if log == [] then 0
    else Begun(log[..|log| - 1]) + if log[|log| - 1].payload.StrokeBeginOut? then 1 else 0
  }

  /** Entry `i` has its place in the history: strokes get their ids by counting and their orders by their entry's number;
      only an open stroke gets points and an end; nobody begins a second stroke, or leaves, with one open. */
  ghost predicate InPlace(log: seq<Entry>, i: nat)
    requires i < |log|
  {
    && log[i].seqNo == i + 1
    && match log[i].payload
       case StrokeBeginOut(a, id, order, _, _, _) => OpenStroke(log[..i], a) == None && id == Begun(log[..i]) + 1 && order == i + 1
       case StrokePointOut(a, id, _) => OpenStroke(log[..i], a) == Some(id)
       case StrokeEndOut(a, id) => OpenStroke(log[..i], a) == Some(id)
       case MemberLeftOut(c) => OpenStroke(log[..i], c) == None
       case _ => true
  }

  function ActiveOf(active: map<ClientId, StrokeId>, c: ClientId): Option<StrokeId> {
    if c in active then Some(active[c]) else None
  }

  /** All entries are in place, and the room's counters and active strokes are what the history says. */
  ghost predicate Told(log: seq<Entry>, active: map<ClientId, StrokeId>, nextSeq: Seq, nextStrokeId: StrokeId) {
    && nextSeq == |log| + 1 && nextStrokeId == Begun(log) + 1
    && (forall i :: 0 <= i < |log| ==> InPlace(log, i))
    && (forall c :: ActiveOf(active, c) == OpenStroke(log, c))
  }

  ghost predicate RoomTold(h: History) {
    Told(h.log, h.room.activeStroke, h.room.nextSeq, h.room.nextStrokeId)
  }

  function ActiveAfter(active: map<ClientId, StrokeId>, p: Payload): map<ClientId, StrokeId> {
    match p
    case StrokeBeginOut(a, id, _, _, _, _) => active[a := id]
    case StrokeEndOut(a, _) => active - {a}
    case ClearOut(_) => map[]
    case _ => active
  }

  /** What the room must send next for the history to stay in order. */
  ghost predicate Fits(p: Payload, active: map<ClientId, StrokeId>, nextSeq: Seq, nextStrokeId: StrokeId) {
    match p
    case StrokeBeginOut(a, id, order, _, _, _) => a !in active && id == nextStrokeId && order == nextSeq
    case StrokePointOut(a, id, _) => ActiveOf(active, a) == Some(id)
    case StrokeEndOut(a, id) => ActiveOf(active, a) == Some(id)
    case MemberLeftOut(c) => c !in active
    case _ => true
  }

  lemma {:induction false} ToldMore(log: seq<Entry>, e: Entry, active: map<ClientId, StrokeId>, nextSeq: Seq, nextStrokeId: StrokeId)
    requires Told(log, active, nextSeq, nextStrokeId) && e.seqNo == nextSeq && Fits(e.payload, active, nextSeq, nextStrokeId)
    ensures Told(log + [e], ActiveAfter(active, e.payload), nextSeq + 1, nextStrokeId + if e.payload.StrokeBeginOut? then 1 else 0)
  {
    var longer, n := log + [e], |log|;
    assert longer[..n] == log;
    forall i | 0 <= i < |longer| ensures InPlace(longer, i) {
      if i < n {
        assert longer[..i] == log[..i] && InPlace(log, i);
      } else {
        NextInPlace(log, e, active, nextSeq, nextStrokeId);
      }
    }
    forall c ensures ActiveOf(ActiveAfter(active, e.payload), c) == OpenStroke(longer, c) {
      assert ActiveOf(active, c) == OpenStroke(log, c);
    }
  }

  lemma {:induction false} NextInPlace(log: seq<Entry>, e: Entry, active: map<ClientId, StrokeId>, nextSeq: Seq, nextStrokeId: StrokeId)
    requires Told(log, active, nextSeq, nextStrokeId) && e.seqNo == nextSeq && Fits(e.payload, active, nextSeq, nextStrokeId)
    ensures InPlace(log + [e], |log|)
  {
    assert (log + [e])[..|log|] == log;
    if !e.payload.CursorMoveOut? && !e.payload.ClearOut? {
      assert ActiveOf(active, e.payload.Author()) == OpenStroke(log, e.payload.Author());
    }
  }

  // ----- Every command keeps the history told -----

  lemma {:induction false} EventTold(h: History, c: ClientId, event: Event, now: TimePoint)
    requires Inv(h.room) && RoomTold(h)
    ensures RoomTold(Step(h, Apply(c, event, now)))
  {
    var o := Execute(h.room, Apply(c, event, now));
    EventFits(h.room, c, event, now);
    if Added(o) == [] {
      assert h.log + [] == h.log;
    } else {
      ToldMore(h.log, Added(o)[0], h.room.activeStroke, h.room.nextSeq, h.room.nextStrokeId);
      assert Added(o) == [Added(o)[0]];
    }
  }

  /** An event's one entry fits, and the room moves on with it. */
  ghost predicate EntryFits(s: RoomState, o: Outcome) {
    && |Added(o)| <= 1
    && (Added(o) == [] ==> o.room.activeStroke == s.activeStroke && o.room.nextSeq == s.nextSeq && o.room.nextStrokeId == s.nextStrokeId)
    && (Added(o) != [] ==>
          var e := Added(o)[0];
          && e.seqNo == s.nextSeq && Fits(e.payload, s.activeStroke, s.nextSeq, s.nextStrokeId)
          && o.room.activeStroke == ActiveAfter(s.activeStroke, e.payload) && o.room.nextSeq == s.nextSeq + 1
          && o.room.nextStrokeId == s.nextStrokeId + if e.payload.StrokeBeginOut? then 1 else 0)
  }

  lemma {:induction false} EventFits(s: RoomState, c: ClientId, event: Event, now: TimePoint)
    requires Inv(s)
    ensures EntryFits(s, Execute(s, Apply(c, event, now)))
  {
    if c in s.members {
      match event
      case StrokeBegin(color, thickness, start) => BeginFits(s, c, color, thickness, start);
      case StrokePoint(p) => PointFits(s, c, p);
      case StrokeEnd => EndFits(s, c);
      case CursorMove(p) => MoveFits(s, c, p, now);
      case Clear => ClearFits(s, c);
    }
  }

  lemma BeginFits(s: RoomState, c: ClientId, color: Color, thickness: Thickness, start: Point)
    ensures EntryFits(s, ApplyStrokeBegin(s, c, color, thickness, start))
  {
  }

  lemma PointFits(s: RoomState, c: ClientId, p: Point)
    ensures EntryFits(s, ApplyStrokePoint(s, c, p))
  {
  }

  lemma EndFits(s: RoomState, c: ClientId)
    ensures EntryFits(s, ApplyStrokeEnd(s, c))
  {
  }

  lemma MoveFits(s: RoomState, c: ClientId, p: Point, now: TimePoint)
    ensures EntryFits(s, ApplyCursorMove(s, c, p, now))
  {
  }

  lemma ClearFits(s: RoomState, c: ClientId)
    ensures EntryFits(s, ApplyClear(s, c))
  {
  }

  lemma {:induction false} OpenStrokeEndTold(h: History, c: ClientId)
    requires RoomTold(h)
    ensures
      var (ended, entries) := EndOpenStroke(h.room, c);
      Told(h.log + entries, ended.activeStroke, ended.nextSeq, ended.nextStrokeId) && c !in ended.activeStroke
  {
    var s := h.room;
    if c in s.activeStroke {
      ToldMore(h.log, s.Emit(c, StrokeEndOut(c, s.activeStroke[c])), s.activeStroke, s.nextSeq, s.nextStrokeId);
    } else {
      assert h.log + [] == h.log;
    }
  }

  lemma {:induction false} LeaveTold(h: History, c: ClientId)
    requires RoomTold(h) && c in h.room.members
    ensures RoomTold(Step(h, Leave(c)))
  {
    var (ended, entries) := EndOpenStroke(h.room, c);
    var log := h.log + entries;
    var left := Entry(ended.nextSeq, MemberLeftOut(c), ended.members - {c});
    OpenStrokeEndTold(h, c);
    ToldMore(log, left, ended.activeStroke, ended.nextSeq, ended.nextStrokeId);
    LeaveLogs(h, c, log, left);
  }

  lemma {:induction false} LeaveLogs(h: History, c: ClientId, log: seq<Entry>, left: Entry)
    requires c in h.room.members
    requires
      var (ended, entries) := EndOpenStroke(h.room, c);
      log == h.log + entries && left == Entry(ended.nextSeq, MemberLeftOut(c), ended.members - {c})
    ensures
      var (ended, entries) := EndOpenStroke(h.room, c);
      var h' := Step(h, Leave(c));
      && h'.log == log + [left] && h'.room.nextSeq == ended.nextSeq + 1
      && h'.room.activeStroke == ended.activeStroke && h'.room.nextStrokeId == ended.nextStrokeId
  {
    var (ended, entries) := EndOpenStroke(h.room, c);
    assert ended.members - {c} - {c} == ended.members - {c};
    assert Added(LeaveRoom(h.room, c)) == entries + [left];
    assert h.log + (entries + [left]) == h.log + entries + [left];
  }

  lemma {:induction false} StepTold(h: History, cmd: Command)
    requires Inv(h.room) && RoomTold(h)
    ensures RoomTold(Step(h, cmd))
  {
    match cmd
    case Apply(c, event, now) => EventTold(h, c, event, now);
    case Leave(c) =>
      if c in h.room.members {
        LeaveTold(h, c);
      } else {
        assert h.log + [] == h.log;
      }
    case Join(_) => assert h.log + [] == h.log;
  }

  lemma {:induction false} RunTold(h: History, cmds: seq<Command>)
    requires Inv(h.room) && RoomTold(h)
    ensures RoomTold(Run(h, cmds))
    decreases |cmds|
  {
    if cmds != [] {
      StepTold(h, cmds[0]);
      ExecuteKeepsInv(h.room, cmds[0]);
      RunTold(Step(h, cmds[0]), cmds[1..]);
    }
  }

  /** In every run, every entry of the history is in its place, and who is drawing what is what the history says. */
  lemma HistoryIsGrammatical(cmds: seq<Command>)
    ensures RoomTold(Run(NEW_ROOM, cmds))
  {
    RunTold(NEW_ROOM, cmds);
  }

  // ----- Strokes on the board -----

  /** The stroke was begun by the entry whose number is its order. */
  ghost predicate Recorded(log: seq<Entry>, s: Stroke) {
    && 1 <= s.strokeOrder <= |log| && s.points != []
    && log[s.strokeOrder - 1].payload == StrokeBeginOut(s.author, s.id, s.strokeOrder, s.color, s.thickness, s.points[0])
  }

  ghost predicate AllRecorded(h: History) {
    forall i :: 0 <= i < |h.room.board.strokes| ==> Recorded(h.log, h.room.board.strokes[i])
  }

  lemma RecordedStays(log: seq<Entry>, more: seq<Entry>, s: Stroke, t: Stroke)
    requires Recorded(log, s)
    requires t == s || t == Finish(s) || exists p :: t == AddPoint(s, p)
    ensures Recorded(log + more, t)
  {
  }

  /** Strokes of the next board are strokes of this one, perhaps edited, or the one just begun. */
  ghost predicate Descends(s: RoomState, o: Outcome) {
    forall j :: 0 <= j < |o.room.board.strokes| ==>
      || FromOld(s, o.room.board.strokes[j])
      || JustBegun(s, o, o.room.board.strokes[j])
  }

  ghost predicate FromOld(s: RoomState, t: Stroke) {
    exists i :: 0 <= i < |s.board.strokes| &&
      (t == s.board.strokes[i] || t == Finish(s.board.strokes[i]) || exists p :: t == AddPoint(s.board.strokes[i], p))
  }

  ghost predicate JustBegun(s: RoomState, o: Outcome, t: Stroke) {
    && t.strokeOrder == s.nextSeq && |Added(o)| == 1 && t.points != []
    && Added(o)[0].payload == StrokeBeginOut(t.author, t.id, t.strokeOrder, t.color, t.thickness, t.points[0])
  }

  lemma SameDescends(s: RoomState, o: Outcome)
    requires o.room.board.strokes == s.board.strokes || o.room.board.strokes == []
    ensures Descends(s, o)
  {
    forall j | 0 <= j < |o.room.board.strokes| ensures FromOld(s, o.room.board.strokes[j]) {
      assert o.room.board.strokes[j] == s.board.strokes[j];
    }
  }

  lemma EditDescends(s: RoomState, o: Outcome, k: nat, t: Stroke)
    requires k < |s.board.strokes| && o.room.board.strokes == s.board.strokes[k := t]
    requires t == Finish(s.board.strokes[k]) || exists p :: t == AddPoint(s.board.strokes[k], p)
    ensures Descends(s, o)
  {
    forall j | 0 <= j < |o.room.board.strokes| ensures FromOld(s, o.room.board.strokes[j]) {
      assert j != k ==> o.room.board.strokes[j] == s.board.strokes[j];
    }
  }

  lemma {:induction false} BeginDescends(s: RoomState, c: ClientId, color: Color, thickness: Thickness, start: Point)
    requires c !in s.activeStroke
    ensures Descends(s, ApplyStrokeBegin(s, c, color, thickness, start))
  {
    var o := ApplyStrokeBegin(s, c, color, thickness, start);
    forall j | 0 <= j < |o.room.board.strokes|
      ensures FromOld(s, o.room.board.strokes[j]) || JustBegun(s, o, o.room.board.strokes[j])
    {
      if j < |s.board.strokes| {
        assert o.room.board.strokes[j] == s.board.strokes[j];
      }
    }
  }

  lemma {:induction false} LeaveDescends(s: RoomState, c: ClientId)
    requires Inv(s)
    ensures Descends(s, LeaveRoom(s, c))
  {
    if c in s.members && c in s.activeStroke {
      var k := s.strokeIndex[s.activeStroke[c]];
      EditDescends(s, LeaveRoom(s, c), k, Finish(s.board.strokes[k]));
    } else {
      SameDescends(s, LeaveRoom(s, c));
    }
  }

  lemma {:induction false} PointDescends(s: RoomState, c: ClientId, p: Point)
    requires Inv(s)
    ensures Descends(s, ApplyStrokePoint(s, c, p))
  {
    if c in s.activeStroke {
      var k := s.strokeIndex[s.activeStroke[c]];
      EditDescends(s, ApplyStrokePoint(s, c, p), k, AddPoint(s.board.strokes[k], p));
    } else {
      SameDescends(s, ApplyStrokePoint(s, c, p));
    }
  }

  lemma {:induction false} EndDescends(s: RoomState, c: ClientId)
    requires Inv(s)
    ensures Descends(s, ApplyStrokeEnd(s, c))
  {
    if c in s.activeStroke {
      var k := s.strokeIndex[s.activeStroke[c]];
      EditDescends(s, ApplyStrokeEnd(s, c), k, Finish(s.board.strokes[k]));
    } else {
      SameDescends(s, ApplyStrokeEnd(s, c));
    }
  }

  lemma {:induction false} ExecuteDescends(s: RoomState, cmd: Command)
    requires Inv(s)
    ensures Descends(s, Execute(s, cmd))
  {
    match cmd
    case Join(_) => SameDescends(s, Execute(s, cmd));
    case Leave(c) => LeaveDescends(s, c);
    case Apply(c, event, now) =>
      if c !in s.members || event.CursorMove? || event.Clear? || (event.StrokeBegin? && c in s.activeStroke) {
        SameDescends(s, Execute(s, cmd));
      } else {
        match event
        case StrokeBegin(color, thickness, start) => BeginDescends(s, c, color, thickness, start);
        case StrokePoint(p) => PointDescends(s, c, p);
        case StrokeEnd => EndDescends(s, c);
      }
  }

  lemma {:induction false} StepRecorded(h: History, cmd: Command)
    requires Inv(h.room) && h.room.nextSeq == |h.log| + 1 && AllRecorded(h)
    ensures AllRecorded(Step(h, cmd))
  {
    var o := Execute(h.room, cmd);
    ExecuteDescends(h.room, cmd);
    forall j | 0 <= j < |o.room.board.strokes| ensures Recorded(h.log + Added(o), o.room.board.strokes[j]) {
      DescendantRecorded(h, o, o.room.board.strokes[j]);
    }
  }

  lemma {:induction false} DescendantRecorded(h: History, o: Outcome, t: Stroke)
    requires h.room.nextSeq == |h.log| + 1 && AllRecorded(h) && (FromOld(h.room, t) || JustBegun(h.room, o, t))
    ensures Recorded(h.log + Added(o), t)
  {
    var strokes := h.room.board.strokes;
    if FromOld(h.room, t) {
      var i :| 0 <= i < |strokes| && (t == strokes[i] || t == Finish(strokes[i]) || exists p :: t == AddPoint(strokes[i], p));
      RecordedStays(h.log, Added(o), strokes[i], t);
    }
  }

  lemma {:induction false} RunRecorded(h: History, cmds: seq<Command>)
    requires Inv(h.room) && RoomTold(h) && AllRecorded(h)
    ensures AllRecorded(Run(h, cmds))
    decreases |cmds|
  {
    if cmds != [] {
      StepTold(h, cmds[0]);
      StepRecorded(h, cmds[0]);
      ExecuteKeepsInv(h.room, cmds[0]);
      RunRecorded(Step(h, cmds[0]), cmds[1..]);
    }
  }

  /** In every run, every stroke on the board was begun by the entry whose number is its order: same author, id, style and
      first point. */
  lemma StrokesAreRecorded(cmds: seq<Command>)
    ensures AllRecorded(Run(NEW_ROOM, cmds))
  {
    RunRecorded(NEW_ROOM, cmds);
  }

  // ----- Comings and goings -----

  /** How often `c` comes into the room. */
  function Visits(s: RoomState, cmds: seq<Command>, c: ClientId): nat
    decreases |cmds|
  {
    if cmds == [] then 0
    else (if cmds[0] == Join(c) && c !in s.members then 1 else 0) + Visits(Execute(s, cmds[0]).room, cmds[1..], c)
  }

  /** How often the history says that `c` has left. */
  function Goodbyes(log: seq<Entry>, c: ClientId): nat {
    if log == [] then 0
    else Goodbyes(log[..|log| - 1], c) + if log[|log| - 1].payload == MemberLeftOut(c) then 1 else 0
  }

  lemma {:induction false} GoodbyesConcat(a: seq<Entry>, b: seq<Entry>, c: ClientId)
    ensures Goodbyes(a + b, c) == Goodbyes(a, c) + Goodbyes(b, c)
    decreases |b|
  {
    if b == [] {
      assert a + b == a;
    } else {
      assert (a + b)[..|a + b| - 1] == a + b[..|b| - 1];
      GoodbyesConcat(a, b[..|b| - 1], c);
    }
  }

  function Here(s: RoomState, c: ClientId): nat {
    if c in s.members then 1 else 0
  }

  lemma {:induction false} OneGoodbye(e: Entry, c: ClientId)
    ensures Goodbyes([e], c) == if e.payload == MemberLeftOut(c) then 1 else 0
  {
    assert [e][..0] == [];
  }

  lemma {:induction false} LeaveBalances(s: RoomState, d: ClientId, c: ClientId)
    requires d in s.members
    ensures Here(s, c) == Here(LeaveRoom(s, d).room, c) + Goodbyes(Added(LeaveRoom(s, d)), c)
  {
    var (ended, entries) := EndOpenStroke(s, d);
    var left := Added(LeaveRoom(s, d))[|entries|];
    assert Added(LeaveRoom(s, d)) == entries + [left];
    GoodbyesConcat(entries, [left], c);
    OneGoodbye(left, c);
    if entries != [] {
      assert entries == [entries[0]];
      OneGoodbye(entries[0], c);
    }
  }

  lemma {:induction false} EventBalances(s: RoomState, d: ClientId, event: Event, now: TimePoint, c: ClientId)
    ensures var o := Execute(s, Apply(d, event, now)); Here(o.room, c) == Here(s, c) && Goodbyes(Added(o), c) == 0
  {
    var o := Execute(s, Apply(d, event, now));
    if Added(o) != [] {
      assert Added(o) == [Added(o)[0]];
      OneGoodbye(Added(o)[0], c);
    }
  }

  lemma {:induction false} StepBalances(h: History, cmd: Command, c: ClientId)
    ensures
      var h' := Step(h, cmd);
      Here(h.room, c) + Goodbyes(h.log, c) + (if cmd == Join(c) && c !in h.room.members then 1 else 0)
      == Here(h'.room, c) + Goodbyes(h'.log, c)
  {
    GoodbyesConcat(h.log, Added(Execute(h.room, cmd)), c);
    match cmd
    case Join(_) =>
    case Leave(d) => if d in h.room.members { LeaveBalances(h.room, d, c); }
    case Apply(d, event, now) => EventBalances(h.room, d, event, now, c);
  }

  lemma {:induction false} RunBalances(h: History, cmds: seq<Command>, c: ClientId)
    ensures
      var h' := Run(h, cmds);
      Here(h.room, c) + Goodbyes(h.log, c) + Visits(h.room, cmds, c) == Here(h'.room, c) + Goodbyes(h'.log, c)
    decreases |cmds|
  {
    if cmds != [] {
      StepBalances(h, cmds[0], c);
      RunBalances(Step(h, cmds[0]), cmds[1..], c);
    }
  }

  /** In every run a client has left, by the history, exactly as often as it came, less once if it is still there. */
  lemma ComingsAndGoings(cmds: seq<Command>, c: ClientId)
    ensures
      var h := Run(NEW_ROOM, cmds);
      Visits(NEW_ROOM.room, cmds, c) == Goodbyes(h.log, c) + if c in h.room.members then 1 else 0
  {
    RunBalances(NEW_ROOM, cmds, c);
  }
}
