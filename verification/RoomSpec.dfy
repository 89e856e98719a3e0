/** A room as a value: what each command does to it and which entries it adds to the
    history. The class in Room.dfy is proved against these functions. */
module RoomSpec {
  import opened Types

  const CURSOR_MIN_INTERVAL: int := 40_000_000  // 40 ms in nanoseconds

  datatype RoomState = RoomState(
    members: set<ClientId>,
    board: Board,
    nextSeq: Seq,
    nextStrokeId: StrokeId,
    lastCursorUpdate: map<ClientId, TimePoint>,
    activeStroke: map<ClientId, StrokeId>,
    strokeIndex: map<StrokeId, nat>)
  {
    function LastSeq(): Seq {
      if nextSeq == 0 then 0 else nextSeq - 1
    }

    /** The entry the room would send now on behalf of `from`. */
    function Emit(from: ClientId, payload: Payload): Entry {
      Entry(nextSeq, payload, members - {from})
    }

    function WithStrokes(strokes: seq<Stroke>): RoomState {
      this.(board := board.(strokes := strokes))
    }
  }

  const EMPTY_ROOM := RoomState({}, EMPTY_BOARD, 1, 1, map[], map[], map[])

  datatype Outcome = Outcome(room: RoomState, reply: Expected<seq<Entry>>)

  datatype Command =
    | Join(client: ClientId)
    | Leave(client: ClientId)
    | Apply(client: ClientId, event: Event, now: TimePoint)

  function AddPoint(s: Stroke, p: Point): Stroke {
    s.(points := s.points + [p])
  }

  function Finish(s: Stroke): Stroke {
    s.(finished := true)
  }

  function FinishAt(strokes: seq<Stroke>, i: nat): seq<Stroke> {
    if i < |strokes| then strokes[i := Finish(strokes[i])] else strokes
  }

  function JoinRoom(s: RoomState, client: ClientId): Outcome {
    Outcome(s.(members := s.members + {client}), Ok([]))
  }

  /** Ends the client's open stroke, if any; the first half of `leave`. */
  function EndOpenStroke(s: RoomState, client: ClientId): (RoomState, seq<Entry>) {
    if client !in s.activeStroke then
      (s, [])
    else
      var sid := s.activeStroke[client];
      var strokes := if sid in s.strokeIndex then FinishAt(s.board.strokes, s.strokeIndex[sid]) else s.board.strokes;
      (s.WithStrokes(strokes).(activeStroke := s.activeStroke - {client}, nextSeq := s.nextSeq + 1),
       [s.Emit(client, StrokeEndOut(client, sid))])
  }

  function LeaveRoom(s: RoomState, client: ClientId): Outcome {
    if client !in s.members then
      Outcome(s, Err(NotInRoom))
    else
      var (ended, entries) := EndOpenStroke(s, client);
      var gone := ended.(board := ended.board.(cursors := ended.board.cursors - {client}),
                         lastCursorUpdate := ended.lastCursorUpdate - {client},
                         members := ended.members - {client});
      Outcome(gone.(nextSeq := gone.nextSeq + 1), Ok(entries + [gone.Emit(client, MemberLeftOut(client))]))
  }

  function ApplyStrokeBegin(s: RoomState, client: ClientId, color: Color, thickness: Thickness, start: Point): Outcome {
    if client in s.activeStroke then
      Outcome(s, Err(ProtocolViolation))
    else
      var sid := s.nextStrokeId;
      var stroke := Stroke(sid, client, color, thickness, s.nextSeq, [start], false);
      Outcome(s.WithStrokes(s.board.strokes + [stroke]).(
                nextSeq := s.nextSeq + 1,
                nextStrokeId := sid + 1,
                strokeIndex := s.strokeIndex[sid := |s.board.strokes|],
                activeStroke := s.activeStroke[client := sid]),
              Ok([s.Emit(client, StrokeBeginOut(client, sid, s.nextSeq, color, thickness, start))]))
  }

  function ApplyStrokePoint(s: RoomState, client: ClientId, p: Point): Outcome {
    if client !in s.activeStroke then
      Outcome(s, Err(ProtocolViolation))
    else
      var sid := s.activeStroke[client];
      if sid !in s.strokeIndex then
        Outcome(s, Err(ProtocolViolation))
      else
        var i := s.strokeIndex[sid];
        var strokes := if i < |s.board.strokes| then s.board.strokes[i := AddPoint(s.board.strokes[i], p)] else s.board.strokes;
        Outcome(s.WithStrokes(strokes).(nextSeq := s.nextSeq + 1),
                Ok([s.Emit(client, StrokePointOut(client, sid, p))]))
  }

  function ApplyStrokeEnd(s: RoomState, client: ClientId): Outcome {
    if client !in s.activeStroke then
      Outcome(s, Err(ProtocolViolation))
    else
      var sid := s.activeStroke[client];
      if sid !in s.strokeIndex then
        Outcome(s, Err(ProtocolViolation))
      else
        Outcome(s.WithStrokes(FinishAt(s.board.strokes, s.strokeIndex[sid])).(
                  activeStroke := s.activeStroke - {client},
                  nextSeq := s.nextSeq + 1),
                Ok([s.Emit(client, StrokeEndOut(client, sid))]))
  }

  /** The move comes too soon after the client's last accepted one. */
  predicate TooSoon(s: RoomState, client: ClientId, now: TimePoint) {
    client in s.lastCursorUpdate && now - s.lastCursorUpdate[client] < CURSOR_MIN_INTERVAL
  }

  function ApplyCursorMove(s: RoomState, client: ClientId, p: Point, now: TimePoint): Outcome {
    if TooSoon(s, client, now) then
      Outcome(s, Ok([]))
    else
      Outcome(s.(lastCursorUpdate := s.lastCursorUpdate[client := now],
                 board := s.board.(cursors := s.board.cursors[client := p]),
                 nextSeq := s.nextSeq + 1),
              Ok([s.Emit(client, CursorMoveOut(client, p))]))
  }

  function ApplyClear(s: RoomState, client: ClientId): Outcome {
    Outcome(s.WithStrokes([]).(activeStroke := map[], strokeIndex := map[], nextSeq := s.nextSeq + 1),
            Ok([s.Emit(client, ClearOut(client))]))
  }

  function ApplyEvent(s: RoomState, client: ClientId, event: Event, now: TimePoint): Outcome {
    if client !in s.members then
      Outcome(s, Err(NotInRoom))
    else
      match event
      case StrokeBegin(color, thickness, start) => ApplyStrokeBegin(s, client, color, thickness, start)
      case StrokePoint(p) => ApplyStrokePoint(s, client, p)
      case StrokeEnd => ApplyStrokeEnd(s, client)
      case CursorMove(p) => ApplyCursorMove(s, client, p, now)
      case Clear => ApplyClear(s, client)
  }

  function Execute(s: RoomState, cmd: Command): Outcome {
    match cmd
    case Join(c) => JoinRoom(s, c)
    case Leave(c) => LeaveRoom(s, c)
    case Apply(c, event, now) => ApplyEvent(s, c, event, now)
  }

  /** The entries a command added; a rejected command adds none. */
  function Added(o: Outcome): seq<Entry> {
    if o.reply.Ok? then o.reply.value else []
  }

  /** A room together with everything it has ever sent. */
  datatype History = History(room: RoomState, log: seq<Entry>)

  const NEW_ROOM := History(EMPTY_ROOM, [])

  function Step(h: History, cmd: Command): History {
    var o := Execute(h.room, cmd);
    History(o.room, h.log + Added(o))
  }

  function Run(h: History, cmds: seq<Command>): History
    decreases |cmds|
  {
    if cmds == [] then h else Run(Step(h, cmds[0]), cmds[1..])
  }

  lemma {:induction false} RunConcat(h: History, a: seq<Command>, b: seq<Command>)
    ensures Run(h, a + b) == Run(Run(h, a), b)
    decreases |a|
  {
    if a == [] {
      assert a + b == b;
    } else {
      assert (a + b)[1..] == a[1..] + b;
      RunConcat(Step(h, a[0]), a[1..], b);
    }
  }
}
