/** Runs of a room: its history is numbered without gaps, is enough to rebuild the board,
    and reaches every member, so that a snapshot plus what follows it is the whole board. */
module Convergence {
  import opened Types
  import opened RoomSpec
  import opened RoomInvariant
  import opened Replica

  /** The numbers handed out are exactly 1, 2, ..., lastSeq. */
  ghost predicate Numbered(h: History) {
    && |h.log| == h.room.LastSeq()
    && forall i :: 0 <= i < |h.log| ==> h.log[i].seqNo == i + 1
  }

  ghost predicate SameOwner(p: Payload, q: Payload) {
    p.OnStroke() && q.OnStroke() && p.id == q.id ==> p.Author() == q.Author()
  }

  /** A stroke id in the history is below the counter, and is on the board only under the author who named it. */
  ghost predicate OwnedBy(p: Payload, s: RoomState) {
    p.OnStroke() ==>
      && p.id < s.nextStrokeId
      && (p.id in s.strokeIndex && s.strokeIndex[p.id] < |s.board.strokes| ==>
            s.board.strokes[s.strokeIndex[p.id]].author == p.Author())
  }

  /** No stroke id is ever used by two authors. */
  ghost predicate Owned(h: History) {
    && (forall i :: 0 <= i < |h.log| ==> OwnedBy(h.log[i].payload, h.room))
    && (forall i, j :: 0 <= i < |h.log| && 0 <= j < |h.log| ==> SameOwner(h.log[i].payload, h.log[j].payload))
  }

  ghost predicate HistoryInv(h: History) {
    && Inv(h.room)
    && Numbered(h)
    && Owned(h)
    && h.room.board == Replay(EMPTY_BOARD, Payloads(h.log))
  }

  // ----- One command -----

  lemma ReplaySingle(b: Board, ps: seq<Payload>)
    requires |ps| == 1
    ensures Replay(b, ps) == ReplayOne(b, ps[0])
  {
    assert ps[1..] == [];
  }

  lemma {:induction false} LeaveReplays(s: RoomState, c: ClientId)
    requires Inv(s) && c in s.members
    ensures LeaveRoom(s, c).room.board == Replay(s.board, Payloads(LeaveRoom(s, c).reply.value))
  {
    EndReplays(s, c);
    var (ended, entries) := EndOpenStroke(s, c);
    var left := [MemberLeftOut(c)];
    assert Payloads(LeaveRoom(s, c).reply.value) == Payloads(entries) + left;
    ReplayConcat(s.board, Payloads(entries), left);
    ReplaySingle(ended.board, left);
  }

  /** An event's one entry, if it has one, turns the old board into the new. */
  ghost predicate OneReplayed(s: RoomState, o: Outcome) {
    |Added(o)| <= 1 && o.room.board == if Added(o) == [] then s.board else ReplayOne(s.board, Added(o)[0].payload)
  }

  lemma {:induction false} BeginReplays(s: RoomState, c: ClientId, color: Color, thickness: Thickness, start: Point)
    ensures OneReplayed(s, ApplyStrokeBegin(s, c, color, thickness, start))
  {
  }

  lemma {:induction false} PointReplays(s: RoomState, c: ClientId, p: Point)
    requires Inv(s)
    ensures OneReplayed(s, ApplyStrokePoint(s, c, p))
  {
    if c in s.activeStroke {
      ActiveIsOnlyOneNamed(s, c);
    }
  }

  lemma {:induction false} StrokeEndReplays(s: RoomState, c: ClientId)
    requires Inv(s)
    ensures OneReplayed(s, ApplyStrokeEnd(s, c))
  {
    if c in s.activeStroke {
      ActiveIsOnlyOneNamed(s, c);
    }
  }

  lemma {:induction false} MoveReplays(s: RoomState, c: ClientId, p: Point, now: TimePoint)
    ensures OneReplayed(s, ApplyCursorMove(s, c, p, now))
  {
  }

  lemma {:induction false} ClearReplays(s: RoomState, c: ClientId)
    ensures OneReplayed(s, ApplyClear(s, c))
  {
  }

  lemma {:induction false} EventReplays(s: RoomState, c: ClientId, event: Event, now: TimePoint)
    requires Inv(s)
    ensures OneReplayed(s, Execute(s, Apply(c, event, now)))
  {
    if c in s.members {
      match event
      case StrokeBegin(color, thickness, start) => BeginReplays(s, c, color, thickness, start);
      case StrokePoint(p) => PointReplays(s, c, p);
      case StrokeEnd => StrokeEndReplays(s, c);
      case CursorMove(p) => MoveReplays(s, c, p, now);
      case Clear => ClearReplays(s, c);
    }
  }

  /** A replica holding the room's board and told the entries of one command holds the room's next board. */
  lemma {:induction false} StepReplays(s: RoomState, cmd: Command)
    requires Inv(s)
    ensures Execute(s, cmd).room.board == Replay(s.board, Payloads(Added(Execute(s, cmd))))
  {
    match cmd
    case Join(_) =>
    case Leave(c) => if c in s.members { LeaveReplays(s, c); }
    case Apply(c, event, now) =>
      EventReplays(s, c, event, now);
      if Added(Execute(s, cmd)) != [] {
        ReplaySingle(s.board, Payloads(Added(Execute(s, cmd))));
      }
  }

  lemma ActiveIsOnlyOneNamed(s: RoomState, c: ClientId)
    requires Inv(s) && c in s.activeStroke
    ensures
      var sid := s.activeStroke[c];
      var k := s.strokeIndex[sid];
      && FinishAt(s.board.strokes, k) == FinishIn(s.board.strokes, sid)
      && forall p :: s.board.strokes[k := AddPoint(s.board.strokes[k], p)] == AppendTo(s.board.strokes, sid, p)
  {
    var sid := s.activeStroke[c];
    var k := s.strokeIndex[sid];
    forall i | 0 <= i < |s.board.strokes| ensures s.board.strokes[i].id == sid <==> i == k {
    }
  }

  lemma EndReplays(s: RoomState, c: ClientId)
    requires Inv(s)
    ensures EndOpenStroke(s, c).0.board == Replay(s.board, Payloads(EndOpenStroke(s, c).1))
  {
    if c in s.activeStroke {
      ActiveIsOnlyOneNamed(s, c);
      var ps := Payloads(EndOpenStroke(s, c).1);
      assert ps == [StrokeEndOut(c, s.activeStroke[c])];
      assert ps[1..] == [];
    }
  }

  /** A command's entries carry consecutive numbers and its client's name, and go to every other member. */
  lemma StepFansOut(s: RoomState, cmd: Command)
    ensures
      var o := Execute(s, cmd);
      && o.room.nextSeq == s.nextSeq + |Added(o)|
      && forall i :: 0 <= i < |Added(o)| ==>
           && Added(o)[i].seqNo == s.nextSeq + i
           && Added(o)[i].payload.Author() == cmd.client
           && Added(o)[i].recipients == s.members - {cmd.client}
  {
    assert s.members - {cmd.client} - {cmd.client} == s.members - {cmd.client};
  }

  /** The stroke named by `p` is on the board under the author of `p`. */
  ghost predicate NamesOwn(p: Payload, s: RoomState) {
    && p.OnStroke()
    && p.id in s.strokeIndex && s.strokeIndex[p.id] < |s.board.strokes|
    && s.board.strokes[s.strokeIndex[p.id]].author == p.Author()
  }

  /** Strokes keep their authors, and ids that come onto the board are new. */
  lemma StepKeepsOwner(s: RoomState, cmd: Command, p: Payload)
    requires IndexExact(s.board.strokes, s.strokeIndex) && OwnedBy(p, s)
    ensures OwnedBy(p, Execute(s, cmd).room)
  {
  }

  lemma ActiveStrokeIsOwn(s: RoomState, c: ClientId, p: Payload)
    requires Inv(s) && c in s.activeStroke
    requires p.OnStroke() && p.id == s.activeStroke[c] && p.Author() == c
    ensures NamesOwn(p, s) && OwnedBy(p, s)
  {
  }

  /** What one entry of a command in state `s` can be about. */
  ghost predicate AboutOwn(s: RoomState, c: ClientId, after: RoomState, p: Payload) {
    && (p.StrokePointOut? || p.StrokeEndOut? ==> c in s.activeStroke && p.id == s.activeStroke[c] && p.Author() == c)
    && (p.StrokeBeginOut? ==> p.id == s.nextStrokeId && OwnedBy(p, after))
  }

  lemma {:induction false} LeaveIsAboutOwn(s: RoomState, c: ClientId, i: nat)
    requires c in s.members && i < |LeaveRoom(s, c).reply.value|
    ensures AboutOwn(s, c, LeaveRoom(s, c).room, LeaveRoom(s, c).reply.value[i].payload)
  {
  }

  lemma {:induction false} EventIsAboutOwn(s: RoomState, c: ClientId, event: Event, now: TimePoint, i: nat)
    requires Inv(s) && i < |Added(Execute(s, Apply(c, event, now)))|
    ensures AboutOwn(s, c, Execute(s, Apply(c, event, now)).room, Added(Execute(s, Apply(c, event, now)))[i].payload)
  {
  }

  lemma {:induction false} AddedPayloads(s: RoomState, cmd: Command, p: Payload)
    requires Inv(s)
    requires exists i :: 0 <= i < |Added(Execute(s, cmd))| && p == Added(Execute(s, cmd))[i].payload
    ensures AboutOwn(s, cmd.client, Execute(s, cmd).room, p)
  {
    var i :| 0 <= i < |Added(Execute(s, cmd))| && p == Added(Execute(s, cmd))[i].payload;
    match cmd
    case Join(_) =>
    case Leave(c) => LeaveIsAboutOwn(s, c, i);
    case Apply(c, event, now) => EventIsAboutOwn(s, c, event, now, i);
  }

  /** A command's stroke entry names a new id, or the author's own stroke on the board. */
  lemma NewEntryOwned(s: RoomState, cmd: Command, p: Payload)
    requires Inv(s)
    requires exists i :: 0 <= i < |Added(Execute(s, cmd))| && p == Added(Execute(s, cmd))[i].payload
    ensures OwnedBy(p, Execute(s, cmd).room)
    ensures p.OnStroke() ==> p.id == s.nextStrokeId || NamesOwn(p, s)
  {
    AddedPayloads(s, cmd, p);
    if p.StrokePointOut? || p.StrokeEndOut? {
      ActiveStrokeIsOwn(s, cmd.client, p);
      StepKeepsOwner(s, cmd, p);
    }
  }

  lemma StepOwned(h: History, cmd: Command)
    requires Inv(h.room) && Owned(h)
    ensures Owned(Step(h, cmd))
  {
    var o := Execute(h.room, cmd);
    var log' := h.log + Added(o);
    forall i | 0 <= i < |log'|
      ensures OwnedBy(log'[i].payload, o.room)
      ensures |h.log| <= i && log'[i].payload.OnStroke() ==>
                log'[i].payload.id == h.room.nextStrokeId || NamesOwn(log'[i].payload, h.room)
    {
      if i < |h.log| {
        StepKeepsOwner(h.room, cmd, h.log[i].payload);
      } else {
        assert log'[i] == Added(o)[i - |h.log|];
        NewEntryOwned(h.room, cmd, log'[i].payload);
      }
    }
    StepFansOut(h.room, cmd);
    forall i, j | 0 <= i < |log'| && 0 <= j < |log'| ensures SameOwner(log'[i].payload, log'[j].payload) {
      NewMatchesOld(h, cmd, log', i, j);
    }
  }

  lemma NewMatchesOld(h: History, cmd: Command, log': seq<Entry>, i: nat, j: nat)
    requires Owned(h) && i < |log'| && j < |log'| && log' == Step(h, cmd).log
    requires forall k :: |h.log| <= k < |log'| && log'[k].payload.OnStroke() ==>
               log'[k].payload.id == h.room.nextStrokeId || NamesOwn(log'[k].payload, h.room)
    ensures SameOwner(log'[i].payload, log'[j].payload)
  {
    var n := |h.log|;
    if i < n {
      assert log'[i] == h.log[i] && OwnedBy(log'[i].payload, h.room);
    }
    if j < n {
      assert log'[j] == h.log[j] && OwnedBy(log'[j].payload, h.room);
    }
    if i < n && j < n {
      assert SameOwner(h.log[i].payload, h.log[j].payload);
    }
    if n <= i && n <= j {
      StepFansOut(h.room, cmd);
      assert log'[i] == Added(Execute(h.room, cmd))[i - n] && log'[j] == Added(Execute(h.room, cmd))[j - n];
    }
  }

  lemma StepKeepsNumbers(h: History, cmd: Command)
    requires Numbered(h) && 1 <= h.room.nextSeq
    ensures Numbered(Step(h, cmd))
  {
    StepFansOut(h.room, cmd);
  }

  lemma StepKeepsReplay(h: History, cmd: Command)
    requires Inv(h.room) && h.room.board == Replay(EMPTY_BOARD, Payloads(h.log))
    ensures Step(h, cmd).room.board == Replay(EMPTY_BOARD, Payloads(Step(h, cmd).log))
  {
    StepReplays(h.room, cmd);
    ReplayGrows(h.log, Added(Execute(h.room, cmd)));
  }

  lemma ReplayGrows(log: seq<Entry>, added: seq<Entry>)
    ensures Replay(EMPTY_BOARD, Payloads(log + added)) == Replay(Replay(EMPTY_BOARD, Payloads(log)), Payloads(added))
  {
    assert Payloads(log + added) == Payloads(log) + Payloads(added);
    ReplayConcat(EMPTY_BOARD, Payloads(log), Payloads(added));
  }

  lemma StepKeepsHistory(h: History, cmd: Command)
    requires HistoryInv(h)
    ensures HistoryInv(Step(h, cmd))
  {
    ExecuteKeepsInv(h.room, cmd);
    StepKeepsNumbers(h, cmd);
    StepOwned(h, cmd);
    StepKeepsReplay(h, cmd);
  }

  // ----- Whole runs -----

  lemma {:induction false} RunKeepsHistory(h: History, cmds: seq<Command>)
    requires HistoryInv(h)
    ensures HistoryInv(Run(h, cmds))
    decreases |cmds|
  {
    if cmds != [] {
      StepKeepsHistory(h, cmds[0]);
      RunKeepsHistory(Step(h, cmds[0]), cmds[1..]);
    }
  }

  /** Every reachable room: the representation is consistent, the numbers handed out are exactly
      1..lastSeq, and replaying the whole history from an empty board gives the room's board. */
  lemma ReachableRoom(cmds: seq<Command>)
    ensures HistoryInv(Run(NEW_ROOM, cmds))
  {
    RunKeepsHistory(NEW_ROOM, cmds);
  }

  /** The entry is sent to `m`, or is `m`'s own. */
  predicate Reaches(e: Entry, m: ClientId) {
    m in e.recipients || e.payload.Author() == m
  }

  predicate NeverLeaves(cmds: seq<Command>, m: ClientId) {
    forall i :: 0 <= i < |cmds| ==> cmds[i] != Leave(m)
  }

  /** While `m` stays, the history only grows, and by entries that reach `m`: those not sent to `m` are `m`'s own. */
  lemma {:induction false} MemberHearsAll(h: History, cmds: seq<Command>, m: ClientId)
    requires m in h.room.members && NeverLeaves(cmds, m)
    ensures m in Run(h, cmds).room.members
    ensures h.log <= Run(h, cmds).log
    ensures forall i :: |h.log| <= i < |Run(h, cmds).log| ==>
              (m !in Run(h, cmds).log[i].recipients <==> Run(h, cmds).log[i].payload.Author() == m)
    decreases |cmds|
  {
    if cmds != [] {
      var h' := Step(h, cmds[0]);
      var added := Added(Execute(h.room, cmds[0]));
      StepFansOut(h.room, cmds[0]);
      forall i | 0 <= i < |added| ensures m !in added[i].recipients <==> added[i].payload.Author() == m {
        assert added[i].recipients == h.room.members - {cmds[0].client};
      }
      assert cmds[0] != Leave(m);
      StaysMember(h.room, cmds[0], m);
      MemberHearsAll(h', cmds[1..], m);
      var last := Run(h', cmds[1..]).log;
      forall i | |h.log| <= i < |last| ensures m !in last[i].recipients <==> last[i].payload.Author() == m {
        if i < |h'.log| {
          assert last[i] == h'.log[i] == added[i - |h.log|];
        }
      }
    }
  }

  lemma StaysMember(s: RoomState, cmd: Command, m: ClientId)
    requires m in s.members && cmd != Leave(m)
    ensures m in Execute(s, cmd).room.members
  {
  }

  /** What `m` can replay after a snapshot numbered `lastSeq`: the later entries that reach it, by number. */
  function Heard(log: seq<Entry>, m: ClientId, lastSeq: Seq): seq<Payload> {
    if log == [] then []
    else
      var e := log[|log| - 1];
      Heard(log[..|log| - 1], m, lastSeq) + (if lastSeq < e.seqNo && Reaches(e, m) then [e.payload] else [])
  }

  lemma {:induction false} HeardIsSuffix(log: seq<Entry>, m: ClientId, lastSeq: Seq)
    requires lastSeq <= |log|
    requires forall i :: 0 <= i < |log| ==> log[i].seqNo == i + 1
    requires forall i :: lastSeq <= i < |log| ==> Reaches(log[i], m)
    ensures Heard(log, m, lastSeq) == Payloads(log[lastSeq..])
  {
    if lastSeq == |log| {
      HeardNothing(log, m, lastSeq);
    } else {
      var init := log[..|log| - 1];
      HeardIsSuffix(init, m, lastSeq);
      assert log[lastSeq..] == init[lastSeq..] + [log[|log| - 1]];
    }
  }

  lemma {:induction false} HeardNothing(log: seq<Entry>, m: ClientId, lastSeq: Seq)
    requires forall i :: 0 <= i < |log| ==> log[i].seqNo <= lastSeq
    ensures Heard(log, m, lastSeq) == []
  {
    if log != [] {
      HeardNothing(log[..|log| - 1], m, lastSeq);
    }
  }

  lemma ReachableLog(cmds: seq<Command>)
    ensures Numbered(Run(NEW_ROOM, cmds))
    ensures Run(NEW_ROOM, cmds).room.board == Replay(EMPTY_BOARD, Payloads(Run(NEW_ROOM, cmds).log))
  {
    ReachableRoom(cmds);
  }

  lemma RunLast(h: History, cmds: seq<Command>, cmd: Command)
    ensures Run(h, cmds + [cmd]) == Step(Run(h, cmds), cmd)
  {
    RunConcat(h, cmds, [cmd]);
    assert [cmd][1..] == [];
  }

  /** In-order convergence, clears included: after any run, a member that joined and never left, replaying from
      its join snapshot the events sent to it and its own accepted ones in number order, has the room's board. */
  lemma InOrderConvergence(before: seq<Command>, after: seq<Command>, m: ClientId)
    requires NeverLeaves(after, m)
    ensures
      var joined := Run(NEW_ROOM, before + [Join(m)]);
      var now := Run(NEW_ROOM, before + [Join(m)] + after);
      Replay(joined.room.board, Heard(now.log, m, joined.room.LastSeq())) == now.room.board
  {
    var joined := Run(NEW_ROOM, before + [Join(m)]);
    RunLast(NEW_ROOM, before, Join(m));
    RunConcat(NEW_ROOM, before + [Join(m)], after);
    ReachableLog(before + [Join(m)]);
    ReachableLog(before + [Join(m)] + after);
    MemberHearsAll(joined, after, m);
    LogTailReplays(joined.log, Run(joined, after).log, m);
  }

  lemma LogTailReplays(earlier: seq<Entry>, log: seq<Entry>, m: ClientId)
    requires earlier <= log
    requires forall i :: 0 <= i < |log| ==> log[i].seqNo == i + 1
    requires forall i :: |earlier| <= i < |log| ==> (m !in log[i].recipients <==> log[i].payload.Author() == m)
    ensures Replay(EMPTY_BOARD, Payloads(log)) == Replay(Replay(EMPTY_BOARD, Payloads(earlier)), Heard(log, m, |earlier|))
  {
    var n := |earlier|;
    HeardIsSuffix(log, m, n);
    assert Payloads(log) == Payloads(earlier) + Payloads(log[n..]);
    ReplayConcat(EMPTY_BOARD, Payloads(earlier), Payloads(log[n..]));
  }

  /** Fan-out accounting over a run: its i-th command adds the numbers that follow those before it; each entry
      is the client's and goes to every other member of that moment; a refused or dropped command adds none. */
  lemma FanOutAccounting(cmds: seq<Command>, i: nat)
    requires i < |cmds|
    ensures
      var before := Run(NEW_ROOM, cmds[..i]);
      var after := Run(NEW_ROOM, cmds[..i + 1]);
      && before.log <= after.log
      && |after.log| == after.room.LastSeq()
      && (forall k :: |before.log| <= k < |after.log| ==>
            && after.log[k].seqNo == k + 1
            && after.log[k].payload.Author() == cmds[i].client
            && after.log[k].recipients == before.room.members - {cmds[i].client})
      && (Refused(before.room, cmds[i]) ==> after == before)
  {
    var before := Run(NEW_ROOM, cmds[..i]);
    assert cmds[..i + 1] == cmds[..i] + [cmds[i]];
    RunLast(NEW_ROOM, cmds[..i], cmds[i]);
    ReachableLog(cmds[..i]);
    ReachableLog(cmds[..i + 1]);
    StepFansOut(before.room, cmds[i]);
    if Refused(before.room, cmds[i]) {
      RefusedChangesNothing(before, cmds[i]);
    }
    var after := Step(before, cmds[i]);
    var added := Added(Execute(before.room, cmds[i]));
    forall k | |before.log| <= k < |after.log|
      ensures after.log[k].payload.Author() == cmds[i].client
      ensures after.log[k].recipients == before.room.members - {cmds[i].client}
    {
      assert after.log[k] == added[k - |before.log|];
    }
  }

  lemma RefusedChangesNothing(h: History, cmd: Command)
    requires Refused(h.room, cmd)
    ensures Step(h, cmd) == h
  {
    assert h.log + [] == h.log;
  }

  /** The room refuses the command, or drops a cursor move that comes too soon: said of the room, not of the outcome. */
  predicate Refused(s: RoomState, cmd: Command) {
    match cmd
    case Join(_) => false
    case Leave(c) => c !in s.members
    case Apply(c, event, now) =>
      || c !in s.members
      || (event.StrokeBegin? && c in s.activeStroke)
      || ((event.StrokePoint? || event.StrokeEnd?) && c !in s.activeStroke)
      || (event.CursorMove? && TooSoon(s, c, now))
  }

  /** Every command that is not refused adds at least one entry, unless it is a join. */
  lemma AcceptedIsLogged(s: RoomState, cmd: Command)
    requires Inv(s) && !cmd.Join?
    ensures Refused(s, cmd) <==> Added(Execute(s, cmd)) == []
  {
    if cmd.Apply? && cmd.client in s.activeStroke {
      ActiveStrokeIsKnown(s, cmd.client);
    }
  }
}
