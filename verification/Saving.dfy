/** What is handed to the snapshot sink, in every interleaving: only states the room really
    went through, and for every accepted stroke end or clear one that is at least as new. */
module Saving {
  import opened Types
  import opened RoomSpec
  import opened RoomInvariant
  import opened Replica
  import opened Convergence
  import opened Shell
  import opened Agreement

  /** The strokes are those of the history replayed up to the snapshot's number. */
  ghost predicate IsPrefix(rooms: map<RoomId, History>, snap: PersistedSnapshot) {
    && snap.room in rooms
    && snap.lastSeq <= |rooms[snap.room].log|
    && snap.strokes == Replay(EMPTY_BOARD, Payloads(rooms[snap.room].log[..snap.lastSeq])).strokes
  }

  ghost predicate Grown(rooms: map<RoomId, History>, rooms': map<RoomId, History>) {
    forall r :: r in rooms ==> r in rooms' && rooms[r].log <= rooms'[r].log
  }

  lemma PrefixStays(rooms: map<RoomId, History>, rooms': map<RoomId, History>, snap: PersistedSnapshot)
    requires Grown(rooms, rooms') && IsPrefix(rooms, snap)
    ensures IsPrefix(rooms', snap)
  {
    assert rooms'[snap.room].log[..snap.lastSeq] == rooms[snap.room].log[..snap.lastSeq];
  }

  lemma NextGrows(s: Server, a: Action)
    requires forall r :: r in s.rooms ==> r < s.nextRoomId
    ensures Grown(s.rooms, Perform(s, a).rooms)
  {
  }

  lemma SnapIsPrefix(rooms: map<RoomId, History>, r: RoomId)
    requires r in rooms && HistoryInv(rooms[r])
    ensures IsPrefix(rooms, Snap(r, rooms[r])) && Snap(r, rooms[r]).lastSeq == |rooms[r].log|
  {
    assert rooms[r].log[..|rooms[r].log|] == rooms[r].log;
  }

  /** What a handler that is saving knows. */
  ghost predicate SavingOk(rooms: map<RoomId, History>, pc: Pc) {
    match pc
    case LeftSnap(r, _, snap) => snap.room == r && IsPrefix(rooms, snap)
    case Ended(r, _, k) => r in rooms && k <= |rooms[r].log|
    case EndedSnap(r, _, k, snap) => snap.room == r && IsPrefix(rooms, snap) && k <= snap.lastSeq
    case _ => true
  }

  predicate AboutToSave(pc: Pc, r: RoomId, k: Seq) {
    (pc.Ended? || pc.EndedSnap?) && pc.room == r && pc.k == k
  }

  /** Some handler that accepted number `k` of room `r` has yet to push its snapshot. */
  ghost predicate Pending(sessions: map<ClientId, Session>, r: RoomId, k: Seq) {
    exists c :: c in sessions && AboutToSave(sessions[c].pc, r, k)
  }

  ghost predicate Saved(pushed: seq<PersistedSnapshot>, r: RoomId, k: Seq) {
    exists i :: 0 <= i < |pushed| && pushed[i].room == r && k <= pushed[i].lastSeq
  }

  ghost predicate Kept(s: Server, o: (RoomId, Seq)) {
    Pending(s.sessions, o.0, o.1) || Saved(s.pushed, o.0, o.1)
  }

  ghost predicate SavingInv(s: Server) {
    && (forall i :: 0 <= i < |s.pushed| ==> IsPrefix(s.rooms, s.pushed[i]))
    && (forall c :: c in s.sessions ==> SavingOk(s.rooms, s.sessions[c].pc))
    && (forall o :: o in s.owed ==> Kept(s, o))
  }

  /** What a step does to its session's saving: it ends an obligation only by pushing, and pushes only prefixes. */
  ghost predicate SavingStep(s: Server, x: Session, a: Action)
    requires a.Act?
  {
    var rooms' := RunCommand(s.rooms, a.cmd);
    && SavingOk(rooms', a.x.pc)
    && (a.push.Some? ==> IsPrefix(s.rooms, a.push.value))
    && (forall r: RoomId, k: Seq :: AboutToSave(x.pc, r, k) ==>
          || AboutToSave(a.x.pc, r, k)
          || (a.push.Some? && a.push.value.room == r && k <= a.push.value.lastSeq))
    && (forall o :: o in OwedAfter(s, a.cmd) && o !in s.owed ==> AboutToSave(a.x.pc, o.0, o.1))
  }

  /** An accepted StrokeEnd or Clear is in the history under the number the room was about to give. */
  lemma AcceptedSaveIsNumbered(h: History, c: ClientId, event: Event, now: TimePoint)
    requires HistoryInv(h) && Saves(event) && Execute(h.room, Apply(c, event, now)).reply.Ok?
    ensures h.room.nextSeq == |Step(h, Apply(c, event, now)).log|
  {
    assert |h.log| == h.room.LastSeq();
    assert |Added(Execute(h.room, Apply(c, event, now)))| == 1;
  }

  lemma EventSavingStep(s: Server, c: ClientId, r: RoomId, event: Event, now: TimePoint)
    requires EventAction(s, c, r, event, now).Act?
    requires Saves(event) ==> s.rooms[r].room.nextSeq == |Step(s.rooms[r], Apply(c, event, now)).log|
    ensures SavingStep(s, s.sessions[c], EventAction(s, c, r, event, now))
  {
  }

  lemma TakeSavingStep(s: Server, c: ClientId)
    requires RoomsInv(s) && TakeSnapshotAction(s, c).Act?
    requires SavingOk(s.rooms, s.sessions[c].pc)
    ensures SavingStep(s, s.sessions[c], TakeSnapshotAction(s, c))
  {
    SnapIsPrefix(s.rooms, s.sessions[c].pc.room);
  }

  lemma OtherSavingStep(s: Server, l: Label)
    requires !l.EventRequest? && !l.TakeSnapshot? && ActionOf(s, l).Act?
    requires SavingOk(s.rooms, s.sessions[ActionOf(s, l).c].pc)
    ensures SavingStep(s, s.sessions[ActionOf(s, l).c], ActionOf(s, l))
  {
  }

  lemma NextSavingStep(s: Server, l: Label)
    requires RoomsInv(s) && SavingInv(s) && ActionOf(s, l).Act?
    requires ActionOf(s, l).c in s.sessions
    ensures SavingStep(s, s.sessions[ActionOf(s, l).c], ActionOf(s, l))
  {
    match l
    case EventRequest(c, r, event, now) =>
      if Saves(event) {
        AcceptedSaveIsNumbered(s.rooms[r], c, event, now);
      }
      EventSavingStep(s, c, r, event, now);
    case TakeSnapshot(c) => TakeSavingStep(s, c);
    case _ => OtherSavingStep(s, l);
  }

  lemma StepKeepsKept(s: Server, a: Action, o: (RoomId, Seq))
    requires a.Act? && a.c in s.sessions && SavingStep(s, s.sessions[a.c], a)
    requires o in Perform(s, a).owed && (o in s.owed ==> Kept(s, o))
    ensures Kept(Perform(s, a), o)
  {
    var s' := Perform(s, a);
    if o !in s.owed {
      assert AboutToSave(s'.sessions[a.c].pc, o.0, o.1);
    } else if Saved(s.pushed, o.0, o.1) {
      var i :| 0 <= i < |s.pushed| && s.pushed[i].room == o.0 && o.1 <= s.pushed[i].lastSeq;
      assert s'.pushed[i] == s.pushed[i];
    } else {
      var c :| c in s.sessions && AboutToSave(s.sessions[c].pc, o.0, o.1);
      if c == a.c && !AboutToSave(a.x.pc, o.0, o.1) {
        assert s'.pushed[|s.pushed|] == a.push.value;
      } else {
        assert AboutToSave(s'.sessions[c].pc, o.0, o.1);
      }
    }
  }

  lemma SavingOkStays(rooms: map<RoomId, History>, rooms': map<RoomId, History>, pc: Pc)
    requires Grown(rooms, rooms') && SavingOk(rooms, pc)
    ensures SavingOk(rooms', pc)
  {
    match pc
    case LeftSnap(_, _, snap) => PrefixStays(rooms, rooms', snap);
    case EndedSnap(_, _, _, snap) => PrefixStays(rooms, rooms', snap);
    case _ =>
  }

  lemma NextKeepsSaving(s: Server, l: Label)
    requires AgreementInv(s) && SavingInv(s)
    ensures SavingInv(Next(s, l))
  {
    var a := ActionOf(s, l);
    if a.Act? {
      NextIsLocal(s, l);
      NextSavingStep(s, l);
    }
    ActionKeepsSaving(s, a);
  }

  lemma ActionKeepsSaving(s: Server, a: Action)
    requires (forall r :: r in s.rooms ==> r < s.nextRoomId) && s.nextClientId !in s.sessions
    requires SavingInv(s)
    requires a.Act? ==> a.c in s.sessions && SavingStep(s, s.sessions[a.c], a)
    ensures SavingInv(Perform(s, a))
  {
    var s' := Perform(s, a);
    NextGrows(s, a);
    forall i | 0 <= i < |s'.pushed| ensures IsPrefix(s'.rooms, s'.pushed[i]) {
      PrefixStays(s.rooms, s'.rooms, s'.pushed[i]);
    }
    forall c | c in s'.sessions ensures SavingOk(s'.rooms, s'.sessions[c].pc) {
      if c in s.sessions && s'.sessions[c] == s.sessions[c] {
        SavingOkStays(s.rooms, s'.rooms, s.sessions[c].pc);
      }
    }
    forall o | o in s'.owed ensures Kept(s', o) {
      if a.Act? {
        StepKeepsKept(s, a, o);
      } else {
        OtherKeepsKept(s, a, o);
      }
    }
  }

  lemma OtherKeepsKept(s: Server, a: Action, o: (RoomId, Seq))
    requires !a.Act? && Kept(s, o) && s.nextClientId !in s.sessions
    ensures Kept(Perform(s, a), o)
  {
    if Pending(s.sessions, o.0, o.1) {
      var c :| c in s.sessions && AboutToSave(s.sessions[c].pc, o.0, o.1);
      assert AboutToSave(Perform(s, a).sessions[c].pc, o.0, o.1);
    }
  }

  lemma {:induction false} RunKeepsSaving(s: Server, ls: seq<Label>)
    requires AgreementInv(s) && SavingInv(s)
    ensures SavingInv(After(s, ls))
    decreases |ls|
  {
    if ls != [] {
      NextKeepsSaving(s, ls[0]);
      NextKeepsAgreement(s, ls[0]);
      RunKeepsSaving(Next(s, ls[0]), ls[1..]);
    }
  }

  /** In every interleaving, each snapshot handed to the sink is the room's history replayed up to the snapshot's
      number, and two of one room with the same number hold the same strokes. */
  lemma SnapshotsAreLogPrefixes(ls: seq<Label>, i: nat, j: nat)
    requires i < |After(START, ls).pushed| && j < |After(START, ls).pushed|
    ensures
      var s := After(START, ls);
      && IsPrefix(s.rooms, s.pushed[i])
      && (s.pushed[i].room == s.pushed[j].room && s.pushed[i].lastSeq == s.pushed[j].lastSeq ==>
            s.pushed[i].strokes == s.pushed[j].strokes)
  {
    RunKeepsSaving(START, ls);
  }

  /** Every accepted StrokeEnd or Clear has been followed by a snapshot at least as new, unless its handler is still saving. */
  lemma AcceptedEndsAreSaved(ls: seq<Label>, r: RoomId, k: Seq)
    requires (r, k) in After(START, ls).owed
    requires forall c :: c in After(START, ls).sessions ==> !AboutToSave(After(START, ls).sessions[c].pc, r, k)
    ensures Saved(After(START, ls).pushed, r, k)
  {
    RunKeepsSaving(START, ls);
    assert Kept(After(START, ls), (r, k));
  }

  // ----- Which ends and clears are owed a snapshot -----

  /** A clear, or a stroke end that was asked for: one that a leave makes is followed at once by its author's leaving. */
  predicate AskedToSave(log: seq<Entry>, i: nat)
    requires i < |log|
  {
    || log[i].payload.ClearOut?
    || (log[i].payload.StrokeEndOut? && !(i + 1 < |log| && log[i + 1].payload == MemberLeftOut(log[i].payload.author)))
  }

  ghost predicate OwedFor(owed: set<(RoomId, Seq)>, r: RoomId, log: seq<Entry>) {
    forall i :: 0 <= i < |log| && AskedToSave(log, i) ==> (r, log[i].seqNo) in owed
  }

  ghost predicate OwedInv(s: Server) {
    forall r :: r in s.rooms ==> OwedFor(s.owed, r, s.rooms[r].log)
  }

  lemma LaterNotAsked(log: seq<Entry>, added: seq<Entry>, i: nat)
    requires i < |log| && AskedToSave(log + added, i)
    ensures AskedToSave(log, i)
  {
  }

  lemma CommandOwes(s: Server, r: RoomId, cmd: Command)
    requires r in s.rooms && OwedFor(s.owed, r, s.rooms[r].log)
    ensures OwedFor(OwedAfter(s, Some((r, cmd))), r, Step(s.rooms[r], cmd).log)
  {
    var log, added := s.rooms[r].log, Added(Execute(s.rooms[r].room, cmd));
    var all := log + added;
    forall i | 0 <= i < |all| && AskedToSave(all, i) ensures (r, all[i].seqNo) in OwedAfter(s, Some((r, cmd))) {
      if i < |log| {
        LaterNotAsked(log, added, i);
      } else {
        AddedOwes(s.rooms[r].room, cmd, added, all, |log|, i);
      }
    }
  }

  lemma AddedOwes(room: RoomState, cmd: Command, added: seq<Entry>, all: seq<Entry>, n: nat, i: nat)
    requires added == Added(Execute(room, cmd)) && n <= i < |all| && all[n..] == added && AskedToSave(all, i)
    ensures cmd.Apply? && Saves(cmd.event) && all[i].seqNo == room.nextSeq
  {
    assert forall j :: 0 <= j < |added| ==> all[n + j] == added[j];
    assert all[i] == added[i - n];
  }

  lemma {:induction false} RunOwes(s: Server, ls: seq<Label>)
    requires OwedInv(s)
    ensures OwedInv(After(s, ls))
    decreases |ls|
  {
    if ls != [] {
      ActionOwes(s, ActionOf(s, ls[0]));
      RunOwes(Next(s, ls[0]), ls[1..]);
    }
  }

  lemma ActionOwes(s: Server, a: Action)
    requires OwedInv(s)
    ensures OwedInv(Perform(s, a))
  {
    var s' := Perform(s, a);
    forall r | r in s'.rooms ensures OwedFor(s'.owed, r, s'.rooms[r].log) {
      if a.Act? && a.cmd.Some? && a.cmd.value.0 == r && r in s.rooms {
        CommandOwes(s, r, a.cmd.value.1);
      }
    }
  }

  /** In every interleaving each clear and each requested stroke end in a room's history is owed a snapshot. */
  lemma EndsAndClearsAreOwed(ls: seq<Label>, r: RoomId, i: nat)
    requires r in After(START, ls).rooms && i < |After(START, ls).rooms[r].log|
    requires AskedToSave(After(START, ls).rooms[r].log, i)
    ensures (r, After(START, ls).rooms[r].log[i].seqNo) in After(START, ls).owed
  {
    RunOwes(START, ls);
    assert OwedFor(After(START, ls).owed, r, After(START, ls).rooms[r].log);
  }

  // ----- Who pushes it -----

  /** The `i`-th step of the run is the push by `c` of a snapshot of `r` numbered `k` or higher, on account of `k`. */
  ghost predicate PushesAt(s: Server, ls: seq<Label>, i: nat, c: ClientId, r: RoomId, k: Seq) {
    && i < |ls| && ls[i] == Push(c)
    && var before := After(s, ls[..i]);
    && c in before.sessions && before.sessions[c].pc.EndedSnap? && AboutToSave(before.sessions[c].pc, r, k)
    && before.sessions[c].pc.snap.room == r && k <= before.sessions[c].pc.snap.lastSeq
    && After(s, ls[..i + 1]).pushed == before.pushed + [before.sessions[c].pc.snap]
  }

  /** A handler that owes a snapshot goes on owing it or pushes it. */
  lemma OwingStep(s: Server, l: Label, c: ClientId, r: RoomId, k: Seq)
    requires c in s.sessions && AboutToSave(s.sessions[c].pc, r, k) && s.nextClientId !in s.sessions
    ensures c in Next(s, l).sessions
    ensures AboutToSave(Next(s, l).sessions[c].pc, r, k) ||
            (l == Push(c) && s.sessions[c].pc.EndedSnap? && Next(s, l).pushed == s.pushed + [s.sessions[c].pc.snap])
  {
  }

  lemma AfterLast(s: Server, ls: seq<Label>)
    requires ls != []
    ensures After(s, ls) == Next(After(s, ls[..|ls| - 1]), ls[|ls| - 1])
  {
    var n := |ls| - 1;
    assert ls == ls[..n] + [ls[n]];
    AfterConcat(s, ls[..n], [ls[n]]);
    assert [ls[n]][1..] == [];
  }

  ghost predicate OwesOrPushed(s: Server, ls: seq<Label>, c: ClientId, r: RoomId, k: Seq) {
    && c in After(s, ls).sessions
    && (AboutToSave(After(s, ls).sessions[c].pc, r, k) || exists i :: PushesAt(s, ls, i, c, r, k))
  }

  lemma PushedStays(s: Server, ls: seq<Label>, i: nat, c: ClientId, r: RoomId, k: Seq)
    requires ls != [] && PushesAt(s, ls[..|ls| - 1], i, c, r, k)
    ensures PushesAt(s, ls, i, c, r, k)
  {
    var init := ls[..|ls| - 1];
    assert ls[..i] == init[..i] && ls[..i + 1] == init[..i + 1];
  }

  lemma PushesLast(s: Server, ls: seq<Label>, c: ClientId, r: RoomId, k: Seq)
    requires ls != []
    requires
      var before := After(s, ls[..|ls| - 1]);
      && c in before.sessions && AboutToSave(before.sessions[c].pc, r, k) && before.nextClientId !in before.sessions
      && SavingOk(before.rooms, before.sessions[c].pc)
    ensures OwesOrPushed(s, ls, c, r, k)
  {
    var n := |ls| - 1;
    AfterLast(s, ls);
    OwingStep(After(s, ls[..n]), ls[n], c, r, k);
    if !AboutToSave(After(s, ls).sessions[c].pc, r, k) {
      assert ls[..n + 1] == ls;
      assert PushesAt(s, ls, n, c, r, k);
    }
  }

  lemma {:induction false} OwingRun(s: Server, ls: seq<Label>, c: ClientId, r: RoomId, k: Seq)
    requires AgreementInv(s) && SavingInv(s)
    requires c in s.sessions && AboutToSave(s.sessions[c].pc, r, k)
    ensures OwesOrPushed(s, ls, c, r, k)
    decreases |ls|
  {
    if ls != [] {
      var n := |ls| - 1;
      OwingRun(s, ls[..n], c, r, k);
      if i :| PushesAt(s, ls[..n], i, c, r, k) {
        PushedStays(s, ls, i, c, r, k);
        AfterLast(s, ls);
        SessionsStay(After(s, ls[..n]), ls[n], c);
      } else {
        RunKeepsSaving(s, ls[..n]);
        AgreementStays(s, ls[..n]);
        PushesLast(s, ls, c, r, k);
      }
    }
  }

  lemma SessionsStay(s: Server, l: Label, c: ClientId)
    requires c in s.sessions
    ensures c in Next(s, l).sessions
  {
  }

  lemma AgreementStays(s: Server, ls: seq<Label>)
    requires AgreementInv(s)
    ensures AgreementInv(After(s, ls))
  {
    RunKeepsAgreement(s, ls);
  }

  lemma {:induction false} AcceptedEnds(s: Server, c: ClientId, r: RoomId, event: Event, now: TimePoint)
    requires Saves(event) && EventAction(s, c, r, event, now).Act?
    ensures
      var cmd := Apply(c, event, now);
      && c in s.sessions && r in s.rooms && Execute(s.rooms[r].room, cmd).reply.Ok?
      && EventAction(s, c, r, event, now) ==
         Act(c, s.sessions[c].(pc := Ended(r, Added(Execute(s.rooms[r].room, cmd)), s.rooms[r].room.nextSeq)), Some((r, cmd)), None, None, false)
  {
  }

  lemma {:induction false} CommandPerformed(s: Server, c: ClientId, x: Session, r: RoomId, cmd: Command)
    requires c in s.sessions && r in s.rooms
    ensures
      var s' := Perform(s, Act(c, x, Some((r, cmd)), None, None, false));
      s'.rooms == s.rooms[r := Step(s.rooms[r], cmd)] && s'.sessions == s.sessions[c := x]
  {
  }

  lemma {:induction false} OneAdded(h: History, c: ClientId, event: Event, now: TimePoint)
    requires Saves(event) && Execute(h.room, Apply(c, event, now)).reply.Ok?
    ensures |Step(h, Apply(c, event, now)).log| == |h.log| + 1
  {
    assert |Added(Execute(h.room, Apply(c, event, now)))| == 1;
  }

  /** Room `r` has one entry more, and the handler of `c` owes the snapshot for it. */
  ghost predicate OwesAnew(s: Server, s': Server, c: ClientId, r: RoomId) {
    && r in s.rooms && r in s'.rooms && |s'.rooms[r].log| == |s.rooms[r].log| + 1
    && c in s'.sessions && AboutToSave(s'.sessions[c].pc, r, |s'.rooms[r].log|)
  }

  lemma {:induction false} AcceptedPerformed(s: Server, c: ClientId, r: RoomId, event: Event, now: TimePoint)
    requires RoomsInv(s) && Saves(event) && EventAction(s, c, r, event, now).Act?
    ensures OwesAnew(s, Perform(s, EventAction(s, c, r, event, now)), c, r)
  {
    var cmd := Apply(c, event, now);
    AcceptedEnds(s, c, r, event, now);
    AcceptedSaveIsNumbered(s.rooms[r], c, event, now);
    OneAdded(s.rooms[r], c, event, now);
    CommandPerformed(s, c, s.sessions[c].(pc := Ended(r, Added(Execute(s.rooms[r].room, cmd)), s.rooms[r].room.nextSeq)), r, cmd);
  }

  lemma EventRequested(s: Server, c: ClientId, r: RoomId, event: Event, now: TimePoint)
    ensures Next(s, EventRequest(c, r, event, now)) == Perform(s, EventAction(s, c, r, event, now))
  {
  }

  /** An accepted stroke end or clear is the history's last entry, and its handler now owes its snapshot. */
  lemma {:induction false} AcceptedOwes(s: Server, c: ClientId, r: RoomId, event: Event, now: TimePoint)
    requires RoomsInv(s) && Saves(event) && EventAction(s, c, r, event, now).Act?
    ensures OwesAnew(s, Next(s, EventRequest(c, r, event, now)), c, r)
  {
    AcceptedPerformed(s, c, r, event, now);
    EventRequested(s, c, r, event, now);
  }

  /** Every accepted stroke end or clear, number k of its room, is followed in its own handler by the push of a snapshot
      of that room numbered k or higher, however the handlers interleave. */
  lemma OwnHandlerSaves(past: seq<Label>, c: ClientId, r: RoomId, event: Event, now: TimePoint, ls: seq<Label>)
    requires Saves(event) && EventAction(After(START, past), c, r, event, now).Act?
    ensures
      var s' := Next(After(START, past), EventRequest(c, r, event, now));
      r in s'.rooms && OwesOrPushed(s', ls, c, r, |s'.rooms[r].log|)
  {
    var s := After(START, past);
    RunKeepsSaving(START, past);
    AgreementStays(START, past);
    AcceptedOwes(s, c, r, event, now);
    NextKeepsSaving(s, EventRequest(c, r, event, now));
    NextKeepsAgreement(s, EventRequest(c, r, event, now));
    OwingRun(Next(s, EventRequest(c, r, event, now)), ls, c, r, |Next(s, EventRequest(c, r, event, now)).rooms[r].log|);
  }
}
