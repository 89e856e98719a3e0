/** The handlers and the writer in one system of interleaved steps. */
module Joint {
  import opened Types
  import opened Codec
  import opened Store
  import opened Writer
  import opened EndToEnd
  import Shell
  import Durability

  datatype Whole = Whole(server: Shell.Server, writer: WriterState)

  const BEGINNING := Whole(Shell.START, STARTED)

  /** A handler's step; the first half of `enqueue` by a handler about to push; a step of the worker or of whoever stops it. */
  datatype Tick =
    | Handler(l: Shell.Label)
    | Announcing(c: ClientId)
    | Background(step: Step)

  /** What a handler's step pushes, the writer has on its queue, counted beforehand. */
  ghost function Received(w: WriterState, keep: nat, before: seq<PersistedSnapshot>, after: seq<PersistedSnapshot>): WriterState {
    if |after| <= |before| then w
    else
      var p := after[|after| - 1];
      Do(if p in w.announced then w else Do(w, keep, Announce(p)), keep, Enter(p))
  }

  ghost function TickOn(j: Whole, keep: nat, tick: Tick): Whole {
    match tick
    case Handler(l) =>
      var server := Shell.Next(j.server, l);
      Whole(server, Received(j.writer, keep, j.server.pushed, server.pushed))
    case Announcing(c) =>
      if c in j.server.sessions && (j.server.sessions[c].pc.LeftSnap? || j.server.sessions[c].pc.EndedSnap?)
      then j.(writer := Do(j.writer, keep, Announce(j.server.sessions[c].pc.snap)))
      else j
    case Background(step) => if step.Announce? || step.Enter? then j else j.(writer := Do(j.writer, keep, step))
  }

  ghost function TickAll(j: Whole, keep: nat, ticks: seq<Tick>): Whole {
    if ticks == [] then j else TickOn(TickAll(j, keep, ticks[..|ticks| - 1]), keep, ticks[|ticks| - 1])
  }

  lemma {:induction false} DoAllMore(w: WriterState, keep: nat, steps: seq<Step>, step: Step)
    ensures DoAll(w, keep, steps + [step]) == Do(DoAll(w, keep, steps), keep, step)
    decreases |steps|
  {
    if steps == [] {
      assert [] + [step] == [step] && [step][1..] == [];
    } else {
      assert (steps + [step])[1..] == steps[1..] + [step];
      DoAllMore(Do(w, keep, steps[0]), keep, steps[1..], step);
    }
  }

  lemma AfterMore(s: Shell.Server, ls: seq<Shell.Label>, l: Shell.Label)
    ensures Shell.After(s, ls + [l]) == Shell.Next(Shell.After(s, ls), l)
  {
    Shell.AfterConcat(s, ls, [l]);
    assert [l][1..] == [];
  }

  lemma PushesOnce(s: Shell.Server, l: Shell.Label)
    ensures
      var pushed' := Shell.Next(s, l).pushed;
      pushed' == s.pushed || (pushed' != [] && pushed' == s.pushed + [pushed'[|pushed'| - 1]])
  {
  }

  ghost predicate Projects(j: Whole, keep: nat, ls: seq<Shell.Label>, steps: seq<Step>) {
    && j.server == Shell.After(Shell.START, ls)
    && j.writer == DoAll(STARTED, keep, steps)
    && j.writer.pushed == j.server.pushed
  }

  lemma ReceivedProjects(w: WriterState, keep: nat, steps: seq<Step>, before: seq<PersistedSnapshot>, p: PersistedSnapshot)
    returns (steps': seq<Step>)
    requires w == DoAll(STARTED, keep, steps) && w.pushed == before
    ensures
      var w' := Received(w, keep, before, before + [p]);
      w' == DoAll(STARTED, keep, steps') && w'.pushed == before + [p]
  {
    if p in w.announced {
      steps' := steps + [Enter(p)];
      DoAllMore(STARTED, keep, steps, Enter(p));
    } else {
      DoAllMore(STARTED, keep, steps, Announce(p));
      DoAllMore(STARTED, keep, steps + [Announce(p)], Enter(p));
      steps' := steps + [Announce(p)] + [Enter(p)];
    }
  }

  lemma TickProjects(j: Whole, keep: nat, ls: seq<Shell.Label>, steps: seq<Step>, tick: Tick)
    returns (ls': seq<Shell.Label>, steps': seq<Step>)
    requires Projects(j, keep, ls, steps)
    ensures Projects(TickOn(j, keep, tick), keep, ls', steps')
  {
    ls', steps' := ls, steps;
    match tick
    case Handler(l) =>
      ls' := ls + [l];
      AfterMore(Shell.START, ls, l);
      PushesOnce(j.server, l);
      var pushed' := Shell.Next(j.server, l).pushed;
      if pushed' != j.server.pushed {
        steps' := ReceivedProjects(j.writer, keep, steps, j.server.pushed, pushed'[|pushed'| - 1]);
      }
    case Announcing(c) =>
      if c in j.server.sessions && (j.server.sessions[c].pc.LeftSnap? || j.server.sessions[c].pc.EndedSnap?) {
        steps' := steps + [Announce(j.server.sessions[c].pc.snap)];
        DoAllMore(STARTED, keep, steps, Announce(j.server.sessions[c].pc.snap));
      }
    case Background(step) =>
      if !(step.Announce? || step.Enter?) {
        steps' := steps + [step];
        DoAllMore(STARTED, keep, steps, step);
        BackgroundPushesNothing(j.writer, keep, step);
      }
  }

  lemma BackgroundPushesNothing(w: WriterState, keep: nat, step: Step)
    requires !step.Enter?
    ensures Do(w, keep, step).pushed == w.pushed
  {
  }

  /** Every run of the whole is a run of the handlers and a run of the writer that was given what they pushed, in order. */
  lemma {:induction false} RunProjects(keep: nat, ticks: seq<Tick>) returns (ls: seq<Shell.Label>, steps: seq<Step>)
    ensures Projects(TickAll(BEGINNING, keep, ticks), keep, ls, steps)
    decreases |ticks|
  {
    if ticks == [] {
      ls, steps := [], [];
    } else {
      var n := |ticks| - 1;
      var ls0, steps0 := RunProjects(keep, ticks[..n]);
      ls, steps := TickProjects(TickAll(BEGINNING, keep, ticks[..n]), keep, ls0, steps0, ticks[n]);
    }
  }

  /** End to end, handlers and writer interleaved in any way: a room was emptied, nobody came back, its leave handlers are
      done and the writer has drained. If the room's last save worked and is stamped later than its earlier ones, and at
      least one row per room is kept, then whatever row `loadLatest` finds decodes to the room's final strokes. */
  lemma FinalBoardSurvives(keep: nat, ticks: seq<Tick>, r: RoomId)
    requires
      var s := TickAll(BEGINNING, keep, ticks).server;
      r in s.rooms && r in s.emptied && r !in s.refilled && Durability.Settled(s, r)
    requires
      var w := TickAll(BEGINNING, keep, ticks).writer;
      keep > 0 && w.pending == 0 && LastSaveCounts(w.attempts, r)
    requires
      var strokes := Durability.Strokes(TickAll(BEGINNING, keep, ticks).server, r);
      |strokes| < U32_SIZE && PointsFit(Raws(strokes))
    ensures
      var j := TickAll(BEGINNING, keep, ticks);
      && (exists x :: IsLatest(j.writer.rows, r, x))
      && forall x :: IsLatest(j.writer.rows, r, x) ==> Restores(x, r, Durability.Strokes(j.server, r))
  {
    var ls, steps := RunProjects(keep, ticks);
    FinalBoardLoaded(ls, r, keep, steps);
  }
}
