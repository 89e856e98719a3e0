/** The room object: its fields, and its methods proved against the functions of RoomSpec. */
module Rooms {
  import opened Types
  import opened RoomSpec
  import opened RoomInvariant
  import opened Convergence

  /** `out` addresses entry `e` once to each of its recipients, in some order. */
  ghost predicate FanOut(out: seq<OutgoingEvent>, room: RoomId, e: Entry) {
    && (forall i :: 0 <= i < |out| ==>
          && out[i] == OutgoingEvent(room, out[i].to, e.seqNo, e.payload)
          && out[i].to in e.recipients)
    && (forall i, j :: 0 <= i < j < |out| ==> out[i].to != out[j].to)
    && (forall m :: m in e.recipients ==> exists i :: 0 <= i < |out| && out[i].to == m)
  }

  /** `out` is the fan-out of the entries, one entry after another. */
  ghost predicate FanOuts(out: seq<OutgoingEvent>, room: RoomId, entries: seq<Entry>) {
    if entries == [] then out == []
    else exists k :: 0 <= k <= |out| && FanOut(out[..k], room, entries[0]) && FanOuts(out[k..], room, entries[1..])
  }

  ghost predicate Answers(out: Expected<seq<OutgoingEvent>>, room: RoomId, reply: Expected<seq<Entry>>) {
    match reply
    case Err(e) => out == Err(e)
    case Ok(entries) => out.Ok? && FanOuts(out.value, room, entries)
  }

  lemma FanOutsOne(out: seq<OutgoingEvent>, room: RoomId, e: Entry)
    requires FanOut(out, room, e)
    ensures FanOuts(out, room, [e])
  {
    assert out[..|out|] == out && out[|out|..] == [];
    assert [e][1..] == [];
    assert FanOuts(out[|out|..], room, [e][1..]);
  }

  lemma FanOutsTwo(first: seq<OutgoingEvent>, second: seq<OutgoingEvent>, room: RoomId, e: Entry, f: Entry)
    requires FanOut(first, room, e) && FanOut(second, room, f)
    ensures FanOuts(first + second, room, [e, f])
  {
    FanOutsOne(second, room, f);
    assert (first + second)[..|first|] == first && (first + second)[|first|..] == second;
    assert [e, f][1..] == [f];
  }

  lemma BothFanOuts(ended: seq<OutgoingEvent>, left: seq<OutgoingEvent>, room: RoomId, entries: seq<Entry>, e: Entry)
    requires FanOut(left, room, e)
    requires entries == [] ==> ended == []
    requires entries != [] ==> |entries| == 1 && FanOut(ended, room, entries[0])
    ensures FanOuts(ended + left, room, entries + [e])
  {
    if entries == [] {
      FanOutsOne(left, room, e);
      assert ended + left == left && entries + [e] == [e];
    } else {
      FanOutsTwo(ended, left, room, entries[0], e);
      assert entries + [e] == [entries[0], e];
    }
  }

  lemma FanOutExtends(out: seq<OutgoingEvent>, room: RoomId, e: Entry, m: ClientId)
    requires FanOut(out, room, e) && m !in e.recipients
    ensures FanOut(out + [OutgoingEvent(room, m, e.seqNo, e.payload)], room, e.(recipients := e.recipients + {m}))
  {
    var out' := out + [OutgoingEvent(room, m, e.seqNo, e.payload)];
    assert out'[|out|].to == m;
    forall x | x in e.recipients ensures exists i :: 0 <= i < |out'| && out'[i].to == x {
      var i :| 0 <= i < |out| && out[i].to == x;
      assert out'[i].to == x;
    }
  }

  /** The elements of a set, each once, in some order. */
  ghost predicate Lists<T(!new)>(xs: seq<T>, s: set<T>) {
    && (forall x :: x in xs <==> x in s)
    && forall i, j :: 0 <= i < j < |xs| ==> xs[i] != xs[j]
  }

  class Room {
    const id: RoomId
    var members: set<ClientId>
    var strokes: seq<Stroke>
    var cursors: map<ClientId, Point>
    var nextSeq: Seq
    var nextStrokeId: StrokeId
    var lastCursorUpdate: map<ClientId, TimePoint>
    var activeStrokeByClient: map<ClientId, StrokeId>
    var strokeIndexById: map<StrokeId, nat>
    ghost var log: seq<Entry>

    ghost function State(): RoomState
      reads this
    {
      RoomState(members, Board(strokes, cursors), nextSeq, nextStrokeId, lastCursorUpdate, activeStrokeByClient, strokeIndexById)
    }

    ghost function Past(): History
      reads this
    {
      History(State(), log)
    }

    ghost predicate Valid()
      reads this
    {
      HistoryInv(Past())
    }

    /** What indexing the stroke list needs; all the private methods rely on. */
    ghost predicate IndexInRange()
      reads this
    {
      forall sid :: sid in strokeIndexById ==> strokeIndexById[sid] < |strokes|
    }

    constructor (id: RoomId)
      ensures this.id == id && Valid() && Past() == NEW_ROOM
    {
      this.id := id;
      members, strokes, cursors := {}, [], map[];
      nextSeq, nextStrokeId := 1, 1;
      lastCursorUpdate, activeStrokeByClient, strokeIndexById := map[], map[], map[];
      log := [];
      new;
      ReachableRoom([]);
    }

    method MemberCount() returns (n: nat)
      ensures n == |members| && (n == 0 <==> members == {})
    {
      n := |members|;
    }

    function CurrentSeq(): Seq
      reads this
    {
      if nextSeq == 0 then 0 else nextSeq - 1
    }

    method LastSeq() returns (seqNo: Seq)
      requires Valid()
      ensures seqNo == |log|
    {
      seqNo := CurrentSeq();
    }

    method MakePersistedSnapshot() returns (s: PersistedSnapshot)
      requires Valid()
      ensures s == PersistedSnapshot(id, |log|, strokes)
    {
      s := PersistedSnapshot(id, CurrentSeq(), strokes);
    }

    method Broadcast(from: ClientId, seqNo: Seq, payload: Payload) returns (out: seq<OutgoingEvent>)
      ensures FanOut(out, id, Entry(seqNo, payload, members - {from}))
    {
      out := [];
      var rest := members;
      while rest != {}
        invariant rest <= members
        invariant FanOut(out, id, Entry(seqNo, payload, members - rest - {from}))
      {
        var m :| m in rest;
        ghost var told := members - rest - {from};
        rest := rest - {m};
        if m != from {
          FanOutExtends(out, id, Entry(seqNo, payload, told), m);
          out := out + [OutgoingEvent(id, m, seqNo, payload)];
          assert members - rest - {from} == told + {m};
        } else {
          assert members - rest - {from} == told;
        }
      }
      assert members - {} - {from} == members - {from};
    }

    method ListMembers() returns (listed: seq<ClientId>)
      ensures Lists(listed, members)
    {
      listed := [];
      var rest := members;
      while rest != {}
        invariant rest <= members && Lists(listed, members - rest)
      {
        var m :| m in rest;
        rest := rest - {m};
        listed := listed + [m];
      }
    }

    method Join(client: ClientId) returns (snap: RoomSnapshot)
      requires Valid()
      modifies this`members
      ensures Valid() && Past() == Step(old(Past()), RoomSpec.Join(client))
      ensures snap.room == id && snap.lastSeq == |log| && snap.state == State().board
      ensures Lists(snap.members, members)
    {
      StepKeepsHistory(Past(), RoomSpec.Join(client));
      members := members + {client};
      assert log + [] == log;

      var listed := ListMembers();
      snap := RoomSnapshot(id, CurrentSeq(), Board(strokes, cursors), listed);
    }

    method Leave(client: ClientId) returns (out: Expected<seq<OutgoingEvent>>)
      requires Valid()
      modifies this
      ensures Valid() && Past() == Step(old(Past()), RoomSpec.Leave(client))
      ensures Answers(out, id, Execute(old(State()), RoomSpec.Leave(client)).reply)
    {
      StepKeepsHistory(Past(), RoomSpec.Leave(client));
      assert IndexInRange();
      if client !in members {
        assert log + [] == log;
        return Err(NotInRoom);
      }
      out := RemoveMember(client);
    }

    /** Ends the client's open stroke, if any. */
    method EndStroke(client: ClientId) returns (ended: seq<OutgoingEvent>)
      requires IndexInRange()
      modifies this`strokes, this`activeStrokeByClient, this`nextSeq, this`log
      ensures var (after, entries) := EndOpenStroke(old(State()), client);
              && State() == after && log == old(log) + entries
              && (entries == [] ==> ended == [])
              && (entries != [] ==> |entries| == 1 && FanOut(ended, id, entries[0]))
    {
      ended := [];
      assert log + [] == log;
      if client in activeStrokeByClient {
        var sid := activeStrokeByClient[client];
        if sid in strokeIndexById {
          var i := strokeIndexById[sid];
          strokes := strokes[i := strokes[i].(finished := true)];
        }
        activeStrokeByClient := activeStrokeByClient - {client};
        var seqEnd := nextSeq;
        nextSeq := nextSeq + 1;
        ended := Broadcast(client, seqEnd, StrokeEndOut(client, sid));
        log := log + [Entry(seqEnd, StrokeEndOut(client, sid), members - {client})];
      }
    }

    method RemoveMember(client: ClientId) returns (out: Expected<seq<OutgoingEvent>>)
      requires IndexInRange() && client in members
      modifies this
      ensures var o := LeaveRoom(old(State()), client);
              State() == o.room && log == old(log) + Added(o) && Answers(out, id, o.reply)
    {
      ghost var (endedState, entries) := EndOpenStroke(State(), client);
      ghost var earlier := log;
      var ended := EndStroke(client);

      cursors := cursors - {client};
      lastCursorUpdate := lastCursorUpdate - {client};
      members := members - {client};

      var seqLeft := nextSeq;
      nextSeq := nextSeq + 1;
      var left := Broadcast(client, seqLeft, MemberLeftOut(client));
      ghost var leftEntry := Entry(seqLeft, MemberLeftOut(client), members - {client});
      log := log + [leftEntry];
      BothFanOuts(ended, left, id, entries, leftEntry);
      assert log == earlier + (entries + [leftEntry]);
      out := Ok(ended + left);
    }

    method Apply(client: ClientId, event: Event, now: TimePoint) returns (out: Expected<seq<OutgoingEvent>>)
      requires Valid()
      modifies this
      ensures Valid() && Past() == Step(old(Past()), RoomSpec.Apply(client, event, now))
      ensures Answers(out, id, Execute(old(State()), RoomSpec.Apply(client, event, now)).reply)
    {
      StepKeepsHistory(Past(), RoomSpec.Apply(client, event, now));
      assert IndexInRange();
      if client !in members {
        assert log + [] == log;
        return Err(NotInRoom);
      }
      out := Dispatch(client, event, now);
    }

    method Dispatch(client: ClientId, event: Event, now: TimePoint) returns (out: Expected<seq<OutgoingEvent>>)
      requires client in members && IndexInRange()
      modifies this
      ensures var o := Execute(old(State()), RoomSpec.Apply(client, event, now));
              State() == o.room && log == old(log) + Added(o) && Answers(out, id, o.reply)
    {
      match event
      case StrokeBegin(color, thickness, start) => out := ApplyStrokeBegin(client, color, thickness, start);
      case StrokePoint(p) => out := ApplyStrokePoint(client, p);
      case StrokeEnd => out := ApplyStrokeEnd(client);
      case CursorMove(p) => out := ApplyCursorMove(client, p, now);
      case Clear => out := ApplyClear(client);
    }

    method ApplyStrokeBegin(client: ClientId, color: Color, thickness: Thickness, start: Point)
      returns (out: Expected<seq<OutgoingEvent>>)
      modifies this
      ensures var o := RoomSpec.ApplyStrokeBegin(old(State()), client, color, thickness, start);
              State() == o.room && log == old(log) + Added(o) && Answers(out, id, o.reply)
    {
      if client in activeStrokeByClient {
        assert log + [] == log;
        return Err(ProtocolViolation);
      }
      var seqNo, sid := nextSeq, nextStrokeId;
      nextSeq, nextStrokeId := nextSeq + 1, nextStrokeId + 1;
      var idx := |strokes|;
      strokes := strokes + [Stroke(sid, client, color, thickness, seqNo, [start], false)];
      strokeIndexById := strokeIndexById[sid := idx];
      activeStrokeByClient := activeStrokeByClient[client := sid];
      out := Send(client, seqNo, StrokeBeginOut(client, sid, seqNo, color, thickness, start));
    }

    method ApplyStrokePoint(client: ClientId, p: Point) returns (out: Expected<seq<OutgoingEvent>>)
      requires IndexInRange()
      modifies this
      ensures var o := RoomSpec.ApplyStrokePoint(old(State()), client, p);
              State() == o.room && log == old(log) + Added(o) && Answers(out, id, o.reply)
    {
      assert log + [] == log;
      if client !in activeStrokeByClient {
        return Err(ProtocolViolation);
      }
      var sid := activeStrokeByClient[client];
      if sid !in strokeIndexById {
        return Err(ProtocolViolation);
      }
      var i := strokeIndexById[sid];
      strokes := strokes[i := strokes[i].(points := strokes[i].points + [p])];
      var seqNo := nextSeq;
      nextSeq := nextSeq + 1;
      out := Send(client, seqNo, StrokePointOut(client, sid, p));
    }

    method ApplyStrokeEnd(client: ClientId) returns (out: Expected<seq<OutgoingEvent>>)
      requires IndexInRange()
      modifies this
      ensures var o := RoomSpec.ApplyStrokeEnd(old(State()), client);
              State() == o.room && log == old(log) + Added(o) && Answers(out, id, o.reply)
    {
      assert log + [] == log;
      if client !in activeStrokeByClient {
        return Err(ProtocolViolation);
      }
      var sid := activeStrokeByClient[client];
      if sid !in strokeIndexById {
        return Err(ProtocolViolation);
      }
      var i := strokeIndexById[sid];
      strokes := strokes[i := strokes[i].(finished := true)];
      activeStrokeByClient := activeStrokeByClient - {client};
      var seqNo := nextSeq;
      nextSeq := nextSeq + 1;
      out := Send(client, seqNo, StrokeEndOut(client, sid));
    }

    method ApplyCursorMove(client: ClientId, p: Point, now: TimePoint) returns (out: Expected<seq<OutgoingEvent>>)
      modifies this
      ensures var o := RoomSpec.ApplyCursorMove(old(State()), client, p, now);
              State() == o.room && log == old(log) + Added(o) && Answers(out, id, o.reply)
    {
      if client in lastCursorUpdate {
        if now - lastCursorUpdate[client] < CURSOR_MIN_INTERVAL {
          assert log + [] == log;
          return Ok([]);
        }
      }
      lastCursorUpdate := lastCursorUpdate[client := now];
      cursors := cursors[client := p];
      var seqNo := nextSeq;
      nextSeq := nextSeq + 1;
      out := Send(client, seqNo, CursorMoveOut(client, p));
    }

    method ApplyClear(client: ClientId) returns (out: Expected<seq<OutgoingEvent>>)
      modifies this
      ensures var o := RoomSpec.ApplyClear(old(State()), client);
              State() == o.room && log == old(log) + Added(o) && Answers(out, id, o.reply)
    {
      strokes := [];
      activeStrokeByClient := map[];
      strokeIndexById := map[];
      var seqNo := nextSeq;
      nextSeq := nextSeq + 1;
      out := Send(client, seqNo, ClearOut(client));
    }

    /** Broadcasts one entry and records it in the history. */
    method Send(from: ClientId, seqNo: Seq, payload: Payload) returns (out: Expected<seq<OutgoingEvent>>)
      modifies this`log
      ensures log == old(log) + [Entry(seqNo, payload, members - {from})]
      ensures Answers(out, id, Ok([Entry(seqNo, payload, members - {from})]))
    {
      var sent := Broadcast(from, seqNo, payload);
      ghost var e := Entry(seqNo, payload, members - {from});
      FanOutsOne(sent, id, e);
      out := Ok(sent);
      log := log + [e];
    }
  }
}
