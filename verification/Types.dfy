/** The values the whiteboard server works on: strokes, boards, client events and
    the events the server sends out. */
module Types {

  type ClientId = nat
  type RoomId = nat
  type StrokeId = nat
  type Seq = nat
  type TimePoint = int  // nanoseconds of a steady clock

  newtype Byte = x: int | 0 <= x < 0x100

  /** The bit pattern of a 32-bit float; no arithmetic is done on coordinates. */
  newtype Bits32 = x: int | 0 <= x < 0x1_0000_0000

  datatype Option<+T> = None | Some(value: T)

  datatype ErrorCode = RoomNotFound | NotInRoom | ProtocolViolation | InvalidParams

  datatype Expected<+T> = Ok(value: T) | Err(error: ErrorCode)

  datatype Point = Point(x: Bits32, y: Bits32)

  datatype Color = Black | Red | Green | Blue

  datatype Thickness = Thin | Medium | Thick

  datatype Stroke = Stroke(
    id: StrokeId,
    author: ClientId,
    color: Color,
    thickness: Thickness,
    strokeOrder: Seq,
    points: seq<Point>,
    finished: bool)

  datatype Board = Board(strokes: seq<Stroke>, cursors: map<ClientId, Point>)

  const EMPTY_BOARD := Board([], map[])

  /** What a client asks for. */
  datatype Event =
    | StrokeBegin(color: Color, thickness: Thickness, start: Point)
    | StrokePoint(p: Point)
    | StrokeEnd
    | CursorMove(p: Point)
    | Clear

  /** What the other members are told. */
  datatype Payload =
    | StrokeBeginOut(author: ClientId, id: StrokeId, strokeOrder: Seq, color: Color, thickness: Thickness, start: Point)
    | StrokePointOut(author: ClientId, id: StrokeId, p: Point)
    | StrokeEndOut(author: ClientId, id: StrokeId)
    | CursorMoveOut(author: ClientId, p: Point)
    | ClearOut(author: ClientId)
    | MemberLeftOut(client: ClientId)
  {
    function Author(): ClientId {
      if MemberLeftOut? then client else author
    }

    /** The payload concerns one stroke, named by `id`. */
    predicate OnStroke() {
      StrokeBeginOut? || StrokePointOut? || StrokeEndOut?
    }

    predicate Touches(x: StrokeId) {
      OnStroke() && id == x
    }
  }

  /** One accepted event in the room's history: its room-wide number, what it says and whom it is sent to. */
  datatype Entry = Entry(seqNo: Seq, payload: Payload, recipients: set<ClientId>)

  /** An entry as addressed to one member. */
  datatype OutgoingEvent = OutgoingEvent(room: RoomId, to: ClientId, seqNo: Seq, payload: Payload)

  datatype RoomSnapshot = RoomSnapshot(room: RoomId, lastSeq: Seq, state: Board, members: seq<ClientId>)

  datatype PersistedSnapshot = PersistedSnapshot(room: RoomId, lastSeq: Seq, strokes: seq<Stroke>)

  function Payloads(entries: seq<Entry>): (ps: seq<Payload>)
    ensures |ps| == |entries|
    ensures forall i :: 0 <= i < |ps| ==> ps[i] == entries[i].payload
  {
    seq(|entries|, i requires 0 <= i < |entries| => entries[i].payload)
  }
}
