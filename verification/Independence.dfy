/** What a client's drawing depends on. Seen by one client the room is a pen: in the room or not,
    down or up, and the strokes it has drawn. A pen knows nothing of the other clients, except that
    somebody may wipe the board. */
module Independence {
  import opened Types
  import opened RoomSpec
  import opened RoomInvariant

  /** A client's own stroke, without what the room adds to it (id and order). */
  datatype Line = Line(color: Color, thickness: Thickness, points: seq<Point>, finished: bool)

  datatype Pen = Pen(inside: bool, down: bool, lines: seq<Line>)

  datatype PenEvent = Enter | Exit | Draw(event: Event) | Wipe

  const NEW_PEN := Pen(false, false, [])

  function WithLast(lines: seq<Line>, f: Line -> Line): seq<Line> {
    if lines == [] then [] else lines[|lines| - 1 := f(lines[|lines| - 1])]
  }

  function Ended(lines: seq<Line>): seq<Line> {
    WithLast(lines, (l: Line) => l.(finished := true))
  }

  function Extended(lines: seq<Line>, p: Point): seq<Line> {
    WithLast(lines, (l: Line) => l.(points := l.points + [p]))
  }

  predicate IsStrokeEvent(event: Event) {
    event.StrokeBegin? || event.StrokePoint? || event.StrokeEnd?
  }

  /** The answer to the pen's own commands; None stands for acceptance. */
  function PenAnswer(pen: Pen, e: PenEvent): Option<ErrorCode> {
    match e
    case Enter => None
    case Exit => if pen.inside then None else Some(NotInRoom)
    case Draw(event) =>
      if !pen.inside then Some(NotInRoom)
      else if (event.StrokeBegin? && pen.down) || ((event.StrokePoint? || event.StrokeEnd?) && !pen.down)
      then Some(ProtocolViolation)
      else None
    case Wipe => None
  }

  function PenStep(pen: Pen, e: PenEvent): Pen {
    if PenAnswer(pen, e).Some? then pen
    else
      match e
      case Enter => pen.(inside := true)
      case Exit => Pen(false, false, if pen.down then Ended(pen.lines) else pen.lines)
      case Draw(StrokeBegin(color, thickness, start)) =>
        pen.(down := true, lines := pen.lines + [Line(color, thickness, [start], false)])
      case Draw(StrokePoint(p)) => pen.(lines := Extended(pen.lines, p))
      case Draw(StrokeEnd) => pen.(down := false, lines := Ended(pen.lines))
      case Draw(_) => pen
      case Wipe => pen.(down := false, lines := [])
  }

  // ----- A room as a pen -----

  function LineOf(s: Stroke): Line {
    Line(s.color, s.thickness, s.points, s.finished)
  }

  /** The client's strokes in the order it began them. */
  function LinesOf(strokes: seq<Stroke>, c: ClientId): seq<Line> {
    if strokes == [] then []
    else
      var last := strokes[|strokes| - 1];
      LinesOf(strokes[..|strokes| - 1], c) + if last.author == c then [LineOf(last)] else []
  }

  function PenOf(s: RoomState, c: ClientId): Pen {
    Pen(c in s.members, c in s.activeStroke, LinesOf(s.board.strokes, c))
  }

  /** What a command is to the pen of `c`. Accepted clears wipe it, whoever sends them; otherwise only the
      client's own joins, leaves and stroke commands reach it. */
  function Seen(s: RoomState, cmd: Command, c: ClientId): Option<PenEvent> {
    match cmd
    case Join(d) => if d == c then Some(Enter) else None
    case Leave(d) => if d == c then Some(Exit) else None
    case Apply(d, event, _) =>
      if event.Clear? && d in s.members then Some(Wipe)
      else if d == c && IsStrokeEvent(event) then Some(Draw(event))
      else None
  }

  function Refusal<T>(reply: Expected<T>): Option<ErrorCode> {
    if reply.Err? then Some(reply.error) else None
  }

  lemma {:induction false} LinesUntouched(strokes: seq<Stroke>, k: nat, t: Stroke, c: ClientId)
    requires k < |strokes| && strokes[k].author != c && t.author != c
    ensures LinesOf(strokes[k := t], c) == LinesOf(strokes, c)
    decreases |strokes|
  {
    var n := |strokes| - 1;
    if k == n {
      assert strokes[k := t][..n] == strokes[..n];
    } else {
      assert strokes[k := t][..n] == strokes[..n][k := t];
      LinesUntouched(strokes[..n], k, t, c);
    }
  }

  lemma {:induction false} LastLineEdited(strokes: seq<Stroke>, k: nat, t: Stroke, c: ClientId)
    requires k < |strokes| && strokes[k].author == c && t.author == c
    requires forall j :: k < j < |strokes| ==> strokes[j].author != c
    ensures
      var lines := LinesOf(strokes, c);
      && lines != [] && lines[|lines| - 1] == LineOf(strokes[k])
      && LinesOf(strokes[k := t], c) == lines[|lines| - 1 := LineOf(t)]
    decreases |strokes|
  {
    var n := |strokes| - 1;
    if k == n {
      assert strokes[k := t][..n] == strokes[..n];
    } else {
      assert strokes[k := t][..n] == strokes[..n][k := t];
      LastLineEdited(strokes[..n], k, t, c);
    }
  }

  /** The active stroke of a client, if any, is on the board and is the client's last one. */
  ghost predicate ActiveIsLast(s: RoomState, d: ClientId) {
    d in s.activeStroke ==>
      && s.activeStroke[d] in s.strokeIndex
      && var k := s.strokeIndex[s.activeStroke[d]];
      && k < |s.board.strokes| && s.board.strokes[k].author == d
      && forall j :: k < j < |s.board.strokes| ==> s.board.strokes[j].author != d
  }

  lemma InvActiveIsLast(s: RoomState, d: ClientId)
    requires Inv(s)
    ensures ActiveIsLast(s, d)
  {
    if d in s.activeStroke {
      assert Open(s.board.strokes[s.strokeIndex[s.activeStroke[d]]], s.activeStroke);
    }
  }

  /** Editing the active stroke of `d` edits the last line of `d` and nobody else's. */
  lemma ActiveEdited(s: RoomState, d: ClientId, t: Stroke, c: ClientId)
    requires ActiveIsLast(s, d) && d in s.activeStroke && t.author == d
    ensures
      var k := s.strokeIndex[s.activeStroke[d]];
      var lines := LinesOf(s.board.strokes, c);
      if c == d then
        lines != [] && lines[|lines| - 1] == LineOf(s.board.strokes[k]) &&
        LinesOf(s.board.strokes[k := t], c) == lines[|lines| - 1 := LineOf(t)]
      else LinesOf(s.board.strokes[k := t], c) == lines
  {
    var k := s.strokeIndex[s.activeStroke[d]];
    if c == d {
      LastLineEdited(s.board.strokes, k, t, c);
    } else {
      LinesUntouched(s.board.strokes, k, t, c);
    }
  }

  lemma LinesAppend(strokes: seq<Stroke>, t: Stroke, c: ClientId)
    ensures LinesOf(strokes + [t], c) == if t.author == c then LinesOf(strokes, c) + [LineOf(t)] else LinesOf(strokes, c)
  {
    assert (strokes + [t])[..|strokes + [t]| - 1] == strokes;
    assert LinesOf(strokes, c) + [] == LinesOf(strokes, c);
  }

  lemma LeaveIsPenStep(s: RoomState, d: ClientId, c: ClientId)
    requires ActiveIsLast(s, d) && d in s.members
    ensures
      var after := PenOf(LeaveRoom(s, d).room, c);
      after == if d == c then PenStep(PenOf(s, c), Exit) else PenOf(s, c)
  {
    if d in s.activeStroke {
      ActiveEdited(s, d, Finish(s.board.strokes[s.strokeIndex[s.activeStroke[d]]]), c);
    }
  }

  lemma BeginIsPenStep(s: RoomState, d: ClientId, color: Color, thickness: Thickness, start: Point, c: ClientId)
    requires d in s.members
    ensures
      var o := ApplyStrokeBegin(s, d, color, thickness, start);
      && PenOf(o.room, c) == (if d == c then PenStep(PenOf(s, c), Draw(StrokeBegin(color, thickness, start))) else PenOf(s, c))
      && Refusal(o.reply) == PenAnswer(PenOf(s, d), Draw(StrokeBegin(color, thickness, start)))
  {
    if d !in s.activeStroke {
      var t := Stroke(s.nextStrokeId, d, color, thickness, s.nextSeq, [start], false);
      LinesAppend(s.board.strokes, t, c);
      assert ApplyStrokeBegin(s, d, color, thickness, start).room.board.strokes == s.board.strokes + [t];
    }
  }

  lemma PointIsPenStep(s: RoomState, d: ClientId, p: Point, c: ClientId)
    requires ActiveIsLast(s, d) && d in s.members
    ensures
      var o := ApplyStrokePoint(s, d, p);
      && PenOf(o.room, c) == (if d == c then PenStep(PenOf(s, c), Draw(StrokePoint(p))) else PenOf(s, c))
      && Refusal(o.reply) == PenAnswer(PenOf(s, d), Draw(StrokePoint(p)))
  {
    if d in s.activeStroke {
      ActiveEdited(s, d, AddPoint(s.board.strokes[s.strokeIndex[s.activeStroke[d]]], p), c);
    }
  }

  lemma EndIsPenStep(s: RoomState, d: ClientId, c: ClientId)
    requires ActiveIsLast(s, d) && d in s.members
    ensures
      var o := ApplyStrokeEnd(s, d);
      && PenOf(o.room, c) == (if d == c then PenStep(PenOf(s, c), Draw(StrokeEnd)) else PenOf(s, c))
      && Refusal(o.reply) == PenAnswer(PenOf(s, d), Draw(StrokeEnd))
  {
    if d in s.activeStroke {
      ActiveEdited(s, d, Finish(s.board.strokes[s.strokeIndex[s.activeStroke[d]]]), c);
    }
  }

  lemma StrokeIsPenStep(s: RoomState, d: ClientId, event: Event, now: TimePoint, c: ClientId)
    requires ActiveIsLast(s, d) && d in s.members && IsStrokeEvent(event)
    ensures
      var o := ApplyEvent(s, d, event, now);
      && PenOf(o.room, c) == (if d == c then PenStep(PenOf(s, c), Draw(event)) else PenOf(s, c))
      && Refusal(o.reply) == PenAnswer(PenOf(s, d), Draw(event))
  {
    match event
    case StrokeBegin(color, thickness, start) => BeginIsPenStep(s, d, color, thickness, start, c);
    case StrokePoint(p) => PointIsPenStep(s, d, p, c);
    case StrokeEnd => EndIsPenStep(s, d, c);
  }

  /** What a command does to the pen of `c` and what it is answered. */
  ghost predicate ActsAsPen(s: RoomState, cmd: Command, c: ClientId) {
    var pen := PenOf(s, c);
    match Seen(s, cmd, c)
    case None => PenOf(Execute(s, cmd).room, c) == pen
    case Some(e) => PenOf(Execute(s, cmd).room, c) == PenStep(pen, e) && Refusal(Execute(s, cmd).reply) == PenAnswer(pen, e)
  }

  lemma JoinActsAsPen(s: RoomState, d: ClientId, c: ClientId)
    ensures ActsAsPen(s, Join(d), c)
  {
  }

  lemma LeaveActsAsPen(s: RoomState, d: ClientId, c: ClientId)
    requires ActiveIsLast(s, d)
    ensures ActsAsPen(s, Leave(d), c)
  {
    if d in s.members {
      LeaveIsPenStep(s, d, c);
    }
  }

  lemma ApplyActsAsPen(s: RoomState, d: ClientId, event: Event, now: TimePoint, c: ClientId)
    requires ActiveIsLast(s, d)
    ensures ActsAsPen(s, Apply(d, event, now), c)
  {
    if d in s.members && IsStrokeEvent(event) {
      StrokeIsPenStep(s, d, event, now, c);
    }
  }

  /** Every command does to the pen of `c` what the pen itself would do, or nothing if it is not for it. */
  lemma CommandIsPenStep(s: RoomState, cmd: Command, c: ClientId)
    requires Inv(s)
    ensures ActsAsPen(s, cmd, c)
  {
    InvActiveIsLast(s, cmd.client);
    match cmd
    case Join(d) => JoinActsAsPen(s, d, c);
    case Leave(d) => LeaveActsAsPen(s, d, c);
    case Apply(d, event, now) => ApplyActsAsPen(s, d, event, now, c);
  }

  // ----- Runs -----

  /** What a run is to the pen of `c`. */
  function SeenAlong(s: RoomState, cmds: seq<Command>, c: ClientId): seq<PenEvent>
    decreases |cmds|
  {
    if cmds == [] then []
    else
      var rest := SeenAlong(Execute(s, cmds[0]).room, cmds[1..], c);
      match Seen(s, cmds[0], c)
      case None => rest
      case Some(e) => [e] + rest
  }

  /** The room's answers to those commands. */
  function AnswersAlong(s: RoomState, cmds: seq<Command>, c: ClientId): seq<Option<ErrorCode>>
    decreases |cmds|
  {
    if cmds == [] then []
    else
      var rest := AnswersAlong(Execute(s, cmds[0]).room, cmds[1..], c);
      if Seen(s, cmds[0], c).None? then rest else [Refusal(Execute(s, cmds[0]).reply)] + rest
  }

  function PenRun(pen: Pen, es: seq<PenEvent>): Pen
    decreases |es|
  {
    if es == [] then pen else PenRun(PenStep(pen, es[0]), es[1..])
  }

  function PenAnswers(pen: Pen, es: seq<PenEvent>): seq<Option<ErrorCode>>
    decreases |es|
  {
    if es == [] then [] else [PenAnswer(pen, es[0])] + PenAnswers(PenStep(pen, es[0]), es[1..])
  }

  lemma {:induction false} RunIsPenRun(h: History, cmds: seq<Command>, c: ClientId)
    requires Inv(h.room)
    ensures PenOf(Run(h, cmds).room, c) == PenRun(PenOf(h.room, c), SeenAlong(h.room, cmds, c))
    ensures AnswersAlong(h.room, cmds, c) == PenAnswers(PenOf(h.room, c), SeenAlong(h.room, cmds, c))
    decreases |cmds|
  {
    if cmds != [] {
      var cmd := cmds[0];
      CommandIsPenStep(h.room, cmd, c);
      ExecuteKeepsInv(h.room, cmd);
      RunIsPenRun(Step(h, cmd), cmds[1..], c);
      var rest := SeenAlong(Execute(h.room, cmd).room, cmds[1..], c);
      if Seen(h.room, cmd, c).Some? {
        assert ([Seen(h.room, cmd, c).value] + rest)[1..] == rest;
      }
    }
  }

  /** Two runs that are the same to a client's pen give it the same answers and leave it the same strokes,
      whatever else happens in them. */
  lemma Independence(a: seq<Command>, b: seq<Command>, c: ClientId)
    requires SeenAlong(EMPTY_ROOM, a, c) == SeenAlong(EMPTY_ROOM, b, c)
    ensures AnswersAlong(EMPTY_ROOM, a, c) == AnswersAlong(EMPTY_ROOM, b, c)
    ensures LinesOf(Run(NEW_ROOM, a).room.board.strokes, c) == LinesOf(Run(NEW_ROOM, b).room.board.strokes, c)
  {
    RunIsPenRun(NEW_ROOM, a, c);
    RunIsPenRun(NEW_ROOM, b, c);
  }

  // ----- Without clears -----

  ghost predicate NoClear(cmds: seq<Command>) {
    forall i :: 0 <= i < |cmds| ==> !(cmds[i].Apply? && cmds[i].event.Clear?)
  }

  /** The client's own joins, leaves and stroke commands: a matter of the commands alone. */
  function Own(cmds: seq<Command>, c: ClientId): seq<PenEvent>
    decreases |cmds|
  {
    if cmds == [] then []
    else
      var rest := Own(cmds[1..], c);
      match cmds[0]
      case Join(d) => if d == c then [Enter] + rest else rest
      case Leave(d) => if d == c then [Exit] + rest else rest
      case Apply(d, event, _) => if d == c && IsStrokeEvent(event) then [Draw(event)] + rest else rest
  }

  lemma {:induction false} OwnIsSeen(s: RoomState, cmds: seq<Command>, c: ClientId)
    requires NoClear(cmds)
    ensures SeenAlong(s, cmds, c) == Own(cmds, c)
    decreases |cmds|
  {
    if cmds != [] {
      assert !(cmds[0].Apply? && cmds[0].event.Clear?);
      OwnIsSeen(Execute(s, cmds[0]).room, cmds[1..], c);
    }
  }

  /** In runs without a clear, the answers to a client's commands and the contents of its strokes depend only on that
      client's own joins, leaves and stroke commands, in their order. */
  lemma OwnCommandsDecide(a: seq<Command>, b: seq<Command>, c: ClientId)
    requires NoClear(a) && NoClear(b) && Own(a, c) == Own(b, c)
    ensures AnswersAlong(EMPTY_ROOM, a, c) == AnswersAlong(EMPTY_ROOM, b, c)
    ensures LinesOf(Run(NEW_ROOM, a).room.board.strokes, c) == LinesOf(Run(NEW_ROOM, b).room.board.strokes, c)
  {
    OwnIsSeen(EMPTY_ROOM, a, c);
    OwnIsSeen(EMPTY_ROOM, b, c);
    Independence(a, b, c);
  }
}
