/** What happens to a stroke over a whole run, and how often a cursor can move. */
module Lifecycle {
  import opened Types
  import opened RoomSpec
  import opened RoomInvariant
  import opened Independence

  // ----- Strokes -----

  /** `y` is `x` later: the same stroke, with points only added, and untouched once it was finished. */
  ghost predicate Grew(x: Stroke, y: Stroke) {
    && y.id == x.id && y.author == x.author && y.color == x.color && y.thickness == x.thickness
    && y.strokeOrder == x.strokeOrder
    && x.points <= y.points
    && (x.finished ==> y == x)
  }

  /** Every stroke of `xs` is still there, at its place. */
  ghost predicate Retained(xs: seq<Stroke>, ys: seq<Stroke>) {
    |xs| <= |ys| && forall i :: 0 <= i < |xs| ==> Grew(xs[i], ys[i])
  }

  /** A stroke of `ys` whose id is not new is one of `xs`, grown. */
  ghost predicate ComesFrom(xs: seq<Stroke>, ys: seq<Stroke>, firstNewId: StrokeId) {
    forall j :: 0 <= j < |ys| && ys[j].id < firstNewId ==> WasThere(xs, ys[j])
  }

  ghost predicate WasThere(xs: seq<Stroke>, y: Stroke) {
    exists i :: 0 <= i < |xs| && Grew(xs[i], y)
  }

  /** One command wipes the board, or keeps every stroke in place and adds only strokes with new ids. */
  ghost predicate Evolves(s: RoomState, s': RoomState) {
    var xs, ys := s.board.strokes, s'.board.strokes;
    && s.nextStrokeId <= s'.nextStrokeId
    && (ys == [] || (Retained(xs, ys) && forall j :: |xs| <= j < |ys| ==> ys[j].id >= s.nextStrokeId))
  }

  lemma EditEvolves(s: RoomState, s': RoomState, d: ClientId, t: Stroke)
    requires Inv(s) && d in s.activeStroke
    requires
      var k := s.strokeIndex[s.activeStroke[d]];
      s'.board.strokes == s.board.strokes[k := t] && s'.nextStrokeId == s.nextStrokeId && (t == Finish(s.board.strokes[k]) || exists p :: t == AddPoint(s.board.strokes[k], p))
    ensures Evolves(s, s') && Retained(s.board.strokes, s'.board.strokes)
  {
    var k := s.strokeIndex[s.activeStroke[d]];
    assert Open(s.board.strokes[k], s.activeStroke);
  }

  lemma LeaveEvolves(s: RoomState, c: ClientId)
    requires Inv(s)
    ensures Evolves(s, LeaveRoom(s, c).room) && Retained(s.board.strokes, LeaveRoom(s, c).room.board.strokes)
  {
    if c in s.members && c in s.activeStroke {
      EditEvolves(s, LeaveRoom(s, c).room, c, Finish(s.board.strokes[s.strokeIndex[s.activeStroke[c]]]));
    }
  }

  lemma PointEvolves(s: RoomState, c: ClientId, p: Point)
    requires Inv(s)
    ensures Evolves(s, ApplyStrokePoint(s, c, p).room) && Retained(s.board.strokes, ApplyStrokePoint(s, c, p).room.board.strokes)
  {
    if c in s.activeStroke {
      EditEvolves(s, ApplyStrokePoint(s, c, p).room, c, AddPoint(s.board.strokes[s.strokeIndex[s.activeStroke[c]]], p));
    }
  }

  lemma EndEvolves(s: RoomState, c: ClientId)
    requires Inv(s)
    ensures Evolves(s, ApplyStrokeEnd(s, c).room) && Retained(s.board.strokes, ApplyStrokeEnd(s, c).room.board.strokes)
  {
    if c in s.activeStroke {
      EditEvolves(s, ApplyStrokeEnd(s, c).room, c, Finish(s.board.strokes[s.strokeIndex[s.activeStroke[c]]]));
    }
  }

  lemma BeginEvolves(s: RoomState, c: ClientId, color: Color, thickness: Thickness, start: Point)
    ensures
      var s' := ApplyStrokeBegin(s, c, color, thickness, start).room;
      Evolves(s, s') && Retained(s.board.strokes, s'.board.strokes)
  {
  }

  lemma UnchangedEvolves(s: RoomState, s': RoomState)
    requires s'.board.strokes == s.board.strokes && s'.nextStrokeId == s.nextStrokeId
    ensures Evolves(s, s') && Retained(s.board.strokes, s'.board.strokes)
  {
  }

  lemma ExecuteEvolves(s: RoomState, cmd: Command)
    requires Inv(s)
    ensures Evolves(s, Execute(s, cmd).room)
    ensures !(cmd.Apply? && cmd.event.Clear?) ==> Retained(s.board.strokes, Execute(s, cmd).room.board.strokes)
  {
    match cmd
    case Join(_) => UnchangedEvolves(s, Execute(s, cmd).room);
    case Leave(c) => LeaveEvolves(s, c);
    case Apply(c, event, _) =>
      if c !in s.members || event.CursorMove? {
        UnchangedEvolves(s, Execute(s, cmd).room);
      } else {
        match event
        case StrokeBegin(color, thickness, start) => BeginEvolves(s, c, color, thickness, start);
        case StrokePoint(p) => PointEvolves(s, c, p);
        case StrokeEnd => EndEvolves(s, c);
        case _ =>
      }
  }

  lemma GrewTwice(x: Stroke, y: Stroke, z: Stroke)
    requires Grew(x, y) && Grew(y, z)
    ensures Grew(x, z)
  {
  }

  lemma ComesFromThrough(s: RoomState, m: RoomState, zs: seq<Stroke>)
    requires Evolves(s, m) && ComesFrom(m.board.strokes, zs, m.nextStrokeId)
    ensures ComesFrom(s.board.strokes, zs, s.nextStrokeId)
  {
    var xs, ys := s.board.strokes, m.board.strokes;
    forall j | 0 <= j < |zs| && zs[j].id < s.nextStrokeId ensures WasThere(xs, zs[j]) {
      assert WasThere(ys, zs[j]);
      var i :| 0 <= i < |ys| && Grew(ys[i], zs[j]);
      assert i < |xs|;
      GrewTwice(xs[i], ys[i], zs[j]);
    }
  }

  lemma RetainedThrough(xs: seq<Stroke>, ys: seq<Stroke>, zs: seq<Stroke>)
    requires Retained(xs, ys) && Retained(ys, zs)
    ensures Retained(xs, zs)
  {
    forall i | 0 <= i < |xs| ensures Grew(xs[i], zs[i]) {
      GrewTwice(xs[i], ys[i], zs[i]);
    }
  }

  lemma RetainsItself(xs: seq<Stroke>, firstNewId: StrokeId)
    ensures Retained(xs, xs) && ComesFrom(xs, xs, firstNewId)
  {
    forall i | 0 <= i < |xs| ensures WasThere(xs, xs[i]) {
      assert Grew(xs[i], xs[i]);
    }
  }

  /** Over a whole run, a stroke whose id is older than the run is the stroke of that id from before it: same author,
      style and order, points only added, nothing changed once finished; so no id is used again, even across clears.
      Without a clear every stroke also stays, and at its place. */
  lemma {:induction false} StrokeLife(h: History, cmds: seq<Command>)
    requires Inv(h.room)
    ensures
      var h' := Run(h, cmds);
      && ComesFrom(h.room.board.strokes, h'.room.board.strokes, h.room.nextStrokeId)
      && (NoClear(cmds) ==> Retained(h.room.board.strokes, h'.room.board.strokes))
    decreases |cmds|
  {
    if cmds == [] {
      RetainsItself(h.room.board.strokes, h.room.nextStrokeId);
    } else {
      var m := Step(h, cmds[0]);
      ExecuteEvolves(h.room, cmds[0]);
      ExecuteKeepsInv(h.room, cmds[0]);
      StrokeLife(m, cmds[1..]);
      ComesFromThrough(h.room, m.room, Run(h, cmds).room.board.strokes);
      if NoClear(cmds) {
        assert !(cmds[0].Apply? && cmds[0].event.Clear?);
        RetainedThrough(h.room.board.strokes, m.room.board.strokes, Run(h, cmds).room.board.strokes);
      }
    }
  }

  // ----- Cursors -----

  /** A cursor move: when, and to which point. */
  datatype Motion = Motion(at: TimePoint, p: Point)

  /** The cursor moves that `c` asks for. */
  function MovesAsked(cmds: seq<Command>, c: ClientId): seq<Motion>
    decreases |cmds|
  {
    if cmds == [] then []
    else if cmds[0].Apply? && cmds[0].client == c && cmds[0].event.CursorMove? then
      [Motion(cmds[0].now, cmds[0].event.p)] + MovesAsked(cmds[1..], c)
    else MovesAsked(cmds[1..], c)
  }

  /** The points to which these entries say that `c` has moved. */
  function Whereabouts(entries: seq<Entry>, c: ClientId): seq<Point> {
    if entries == [] then []
    else
      (if entries[0].payload.CursorMoveOut? && entries[0].payload.author == c then [entries[0].payload.p] else [])
      + Whereabouts(entries[1..], c)
  }

  /** The moves of `c` that the room announces: the points it tells the others, and when. */
  function MovesMade(s: RoomState, cmds: seq<Command>, c: ClientId): seq<Motion>
    decreases |cmds|
  {
    if cmds == [] then []
    else
      var o := Execute(s, cmds[0]);
      var told := Whereabouts(Added(o), c);
      (if cmds[0].Apply? && told != [] then [Motion(cmds[0].now, told[0])] else []) + MovesMade(o.room, cmds[1..], c)
  }

  /** Of the moves asked for, those that come at least `gap` after the last one let through. */
  function Throttled(last: Option<TimePoint>, asked: seq<Motion>, gap: nat): seq<Motion>
    decreases |asked|
  {
    if asked == [] then []
    else if last.Some? && asked[0].at - last.value < gap then Throttled(last, asked[1..], gap)
    else [asked[0]] + Throttled(Some(asked[0].at), asked[1..], gap)
  }

  function LastMove(s: RoomState, c: ClientId): Option<TimePoint> {
    if c in s.lastCursorUpdate then Some(s.lastCursorUpdate[c]) else None
  }

  function CursorOf(s: RoomState, c: ClientId): Option<Point> {
    if c in s.board.cursors then Some(s.board.cursors[c]) else None
  }

  /** The client is a member and stays one. */
  ghost predicate Stays(s: RoomState, cmds: seq<Command>, c: ClientId) {
    c in s.members && forall i :: 0 <= i < |cmds| ==> cmds[i] != Leave(c)
  }

  /** A member's move within 40 ms of its last one is answered with success and dropped; any other becomes its cursor
      and is told to every other member. */
  lemma MoveAnswered(s: RoomState, c: ClientId, p: Point, now: TimePoint)
    requires c in s.members
    ensures
      var o := Execute(s, Apply(c, CursorMove(p), now));
      if LastMove(s, c).Some? && now - LastMove(s, c).value < 40_000_000 then
        o == Outcome(s, Ok([]))
      else
        && o.reply == Ok([Entry(s.nextSeq, CursorMoveOut(c, p), s.members - {c})])
        && CursorOf(o.room, c) == Some(p) && LastMove(o.room, c) == Some(now)
        && o.room.board.strokes == s.board.strokes
        && forall d :: d != c ==> CursorOf(o.room, d) == CursorOf(s, d)
  {
  }

  /** The command leaves the client's cursor alone and tells nobody that it moved. */
  ghost predicate CursorKept(s: RoomState, o: Outcome, c: ClientId) {
    && c in o.room.members && LastMove(o.room, c) == LastMove(s, c) && CursorOf(o.room, c) == CursorOf(s, c)
    && Whereabouts(Added(o), c) == []
  }

  lemma {:induction false} NoMoveTold(entries: seq<Entry>, c: ClientId)
    requires forall i :: 0 <= i < |entries| ==> !entries[i].payload.CursorMoveOut? || entries[i].payload.author != c
    ensures Whereabouts(entries, c) == []
  {
    if entries != [] {
      NoMoveTold(entries[1..], c);
    }
  }

  lemma LeaveKeepsCursor(s: RoomState, d: ClientId, c: ClientId)
    requires c in s.members && d != c
    ensures CursorKept(s, LeaveRoom(s, d), c)
  {
    NoMoveTold(Added(LeaveRoom(s, d)), c);
  }

  lemma EventKeepsCursor(s: RoomState, d: ClientId, event: Event, now: TimePoint, c: ClientId)
    requires c in s.members && !(d == c && event.CursorMove?)
    ensures CursorKept(s, ApplyEvent(s, d, event, now), c)
  {
    NoMoveTold(Added(ApplyEvent(s, d, event, now)), c);
  }

  /** Whatever else happens in the room keeps a staying client's cursor. */
  lemma OthersKeepCursor(s: RoomState, cmd: Command, c: ClientId)
    requires c in s.members && cmd != Leave(c) && !(cmd.Apply? && cmd.client == c && cmd.event.CursorMove?)
    ensures CursorKept(s, Execute(s, cmd), c)
  {
    match cmd
    case Join(_) =>
    case Leave(d) => LeaveKeepsCursor(s, d, c);
    case Apply(d, event, now) => EventKeepsCursor(s, d, event, now, c);
  }

  lemma OneToldMove(s: RoomState, c: ClientId, p: Point)
    ensures Whereabouts([Entry(s.nextSeq, CursorMoveOut(c, p), s.members - {c})], c) == [p]
  {
    var e := Entry(s.nextSeq, CursorMoveOut(c, p), s.members - {c});
    assert [e][1..] == [];
  }

  /** During a stay the moves that the room announces are exactly the client's own, point by point, that come at least
      40 ms after the last one announced, whatever else happens in the room. */
  lemma {:induction false} MovesAreThrottled(s: RoomState, cmds: seq<Command>, c: ClientId)
    requires Stays(s, cmds, c)
    ensures MovesMade(s, cmds, c) == Throttled(LastMove(s, c), MovesAsked(cmds, c), 40_000_000)
    decreases |cmds|
  {
    if cmds != [] {
      var cmd := cmds[0];
      if cmd.Apply? && cmd.client == c && cmd.event.CursorMove? {
        MoveAnswered(s, c, cmd.event.p, cmd.now);
        OneToldMove(s, c, cmd.event.p);
        assert ([Motion(cmd.now, cmd.event.p)] + MovesAsked(cmds[1..], c))[1..] == MovesAsked(cmds[1..], c);
      } else {
        OthersKeepCursor(s, cmd, c);
      }
      MovesAreThrottled(Execute(s, cmd).room, cmds[1..], c);
    }
  }

  function PointsOf(moves: seq<Motion>): (r: seq<Point>)
    ensures |r| == |moves| && forall i :: 0 <= i < |r| ==> r[i] == moves[i].p
  {
    seq(|moves|, i requires 0 <= i < |moves| => moves[i].p)
  }

  lemma {:induction false} WhereaboutsConcat(a: seq<Entry>, b: seq<Entry>, c: ClientId)
    ensures Whereabouts(a + b, c) == Whereabouts(a, c) + Whereabouts(b, c)
    decreases |a|
  {
    if a == [] {
      assert a + b == b;
    } else {
      assert (a + b)[1..] == a[1..] + b;
      WhereaboutsConcat(a[1..], b, c);
    }
  }

  /** What a run adds to a room's history. */
  function News(s: RoomState, cmds: seq<Command>): seq<Entry>
    decreases |cmds|
  {
    if cmds == [] then [] else Added(Execute(s, cmds[0])) + News(Execute(s, cmds[0]).room, cmds[1..])
  }

  lemma {:induction false} NewsIsLogged(h: History, cmds: seq<Command>)
    ensures Run(h, cmds).log == h.log + News(h.room, cmds)
    decreases |cmds|
  {
    if cmds == [] {
      assert h.log + [] == h.log;
    } else {
      var added := Added(Execute(h.room, cmds[0]));
      NewsIsLogged(Step(h, cmds[0]), cmds[1..]);
      assert h.log + added + News(Execute(h.room, cmds[0]).room, cmds[1..])
          == h.log + (added + News(Execute(h.room, cmds[0]).room, cmds[1..]));
    }
  }

  lemma PointsOfMore(m: Motion, moves: seq<Motion>)
    ensures PointsOf([m] + moves) == [m.p] + PointsOf(moves)
  {
  }

  /** So what the history says of the client's cursor are those points, in order. */
  lemma {:induction false} MovesAreTold(s: RoomState, cmds: seq<Command>, c: ClientId)
    requires Stays(s, cmds, c)
    ensures Whereabouts(News(s, cmds), c) == PointsOf(MovesMade(s, cmds, c))
    decreases |cmds|
  {
    if cmds != [] {
      var cmd := cmds[0];
      var next := Execute(s, cmd).room;
      WhereaboutsConcat(Added(Execute(s, cmd)), News(next, cmds[1..]), c);
      if cmd.Apply? && cmd.client == c && cmd.event.CursorMove? {
        MoveAnswered(s, c, cmd.event.p, cmd.now);
        OneToldMove(s, c, cmd.event.p);
        PointsOfMore(Motion(cmd.now, cmd.event.p), MovesMade(next, cmds[1..], c));
      } else {
        OthersKeepCursor(s, cmd, c);
      }
      MovesAreTold(next, cmds[1..], c);
    }
  }

  /** And the board shows the client's cursor at the last of them. */
  lemma {:induction false} CursorIsLastMove(s: RoomState, cmds: seq<Command>, c: ClientId, h: History)
    requires Stays(s, cmds, c) && h.room == s
    ensures
      var made := MovesMade(s, cmds, c);
      CursorOf(Run(h, cmds).room, c) == if made == [] then CursorOf(s, c) else Some(made[|made| - 1].p)
    decreases |cmds|
  {
    if cmds != [] {
      var cmd := cmds[0];
      if cmd.Apply? && cmd.client == c && cmd.event.CursorMove? {
        MoveAnswered(s, c, cmd.event.p, cmd.now);
        OneToldMove(s, c, cmd.event.p);
      } else {
        OthersKeepCursor(s, cmd, c);
      }
      CursorIsLastMove(Execute(s, cmd).room, cmds[1..], c, Step(h, cmd));
    }
  }

  /** Later moves are at least `gap` after earlier ones. */
  ghost predicate Spaced(moves: seq<Motion>, gap: nat) {
    forall i, j :: 0 <= i < j < |moves| ==> moves[j].at - moves[i].at >= gap
  }

  lemma {:induction false} ThrottledSpaced(last: Option<TimePoint>, asked: seq<Motion>, gap: nat)
    ensures Spaced(Throttled(last, asked, gap), gap)
    ensures last.Some? ==> forall i :: 0 <= i < |Throttled(last, asked, gap)| ==> Throttled(last, asked, gap)[i].at - last.value >= gap
    decreases |asked|
  {
    if asked == [] {
    } else if last.Some? && asked[0].at - last.value < gap {
      ThrottledSpaced(last, asked[1..], gap);
    } else {
      ThrottledSpaced(Some(asked[0].at), asked[1..], gap);
    }
  }

  /** The moves that fall into the closed window of length `length` starting at `from`. */
  function InWindow(moves: seq<Motion>, from: TimePoint, length: nat): (r: seq<Motion>)
    ensures forall m :: m in r <==> m in moves && from <= m.at <= from + length
  {
    if moves == [] then []
    else if from <= moves[0].at <= from + length then [moves[0]] + InWindow(moves[1..], from, length)
    else InWindow(moves[1..], from, length)
  }

  lemma {:induction false} WindowSpaced(moves: seq<Motion>, from: TimePoint, length: nat, gap: nat)
    requires Spaced(moves, gap)
    ensures Spaced(InWindow(moves, from, length), gap)
  {
    if moves != [] {
      var rest := InWindow(moves[1..], from, length);
      WindowSpaced(moves[1..], from, length, gap);
      forall k | 0 <= k < |rest| ensures rest[k].at - moves[0].at >= gap {
        assert rest[k] in moves[1..];
      }
    }
  }

  lemma {:induction false} SpacedSpan(moves: seq<Motion>, gap: nat)
    requires Spaced(moves, gap) && moves != []
    ensures moves[|moves| - 1].at - moves[0].at >= (|moves| - 1) * gap
  {
    var n := |moves| - 1;
    if n > 0 {
      SpacedSpan(moves[..n], gap);
      assert moves[n].at - moves[n - 1].at >= gap;
    }
  }

  /** During one stay, at most `length / 40 ms + 1` moves of a client are announced in any window of that length. */
  lemma CursorRate(s: RoomState, cmds: seq<Command>, c: ClientId, from: TimePoint, length: nat)
    requires Stays(s, cmds, c)
    ensures Spaced(MovesMade(s, cmds, c), 40_000_000)
    ensures |InWindow(MovesMade(s, cmds, c), from, length)| <= length / 40_000_000 + 1
  {
    MovesAreThrottled(s, cmds, c);
    ThrottledSpaced(LastMove(s, c), MovesAsked(cmds, c), 40_000_000);
    var w := InWindow(MovesMade(s, cmds, c), from, length);
    WindowSpaced(MovesMade(s, cmds, c), from, length, 40_000_000);
    if w != [] {
      SpacedSpan(w, 40_000_000);
      assert w[0] in w && w[|w| - 1] in w;
      assert length >= (|w| - 1) * 40_000_000;
    }
  }
}
