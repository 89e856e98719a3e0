/** What a client does with the events it receives: a board kept as an ordered list of
    strokes, updated event by event. It knows nothing of the room's bookkeeping. */
module Replica {
  import opened Types

  /** The strokes with `p` added to those named `id`. */
  function AppendTo(strokes: seq<Stroke>, id: StrokeId, p: Point): seq<Stroke> {
    seq(|strokes|, i requires 0 <= i < |strokes| =>
      if strokes[i].id == id then strokes[i].(points := strokes[i].points + [p]) else strokes[i])
  }

  function FinishIn(strokes: seq<Stroke>, id: StrokeId): seq<Stroke> {
    seq(|strokes|, i requires 0 <= i < |strokes| =>
      if strokes[i].id == id then strokes[i].(finished := true) else strokes[i])
  }

  function BegunStroke(p: Payload): Stroke
    requires p.StrokeBeginOut?
  {
    Stroke(p.id, p.author, p.color, p.thickness, p.strokeOrder, [p.start], false)
  }

  function ReplayOne(b: Board, p: Payload): Board {
    match p
    case StrokeBeginOut(_, _, _, _, _, _) => b.(strokes := b.strokes + [BegunStroke(p)])
    case StrokePointOut(_, id, point) => b.(strokes := AppendTo(b.strokes, id, point))
    case StrokeEndOut(_, id) => b.(strokes := FinishIn(b.strokes, id))
    case CursorMoveOut(author, point) => b.(cursors := b.cursors[author := point])
    case ClearOut(_) => b.(strokes := [])
    case MemberLeftOut(client) => b.(cursors := b.cursors - {client})
  }

  function Replay(b: Board, ps: seq<Payload>): Board
    decreases |ps|
  {
    if ps == [] then b else Replay(ReplayOne(b, ps[0]), ps[1..])
  }

  lemma {:induction false} ReplayConcat(b: Board, ps: seq<Payload>, qs: seq<Payload>)
    ensures Replay(b, ps + qs) == Replay(Replay(b, ps), qs)
    decreases |ps|
  {
    if ps == [] {
      assert ps + qs == qs;
    } else {
      assert (ps + qs)[1..] == ps[1..] + qs;
      ReplayConcat(ReplayOne(b, ps[0]), ps[1..], qs);
    }
  }
}
