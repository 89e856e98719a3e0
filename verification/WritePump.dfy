/** A session's outgoing lines: a queue of which the front is being written. Everything here runs on
    the session's strand, one handler at a time, in any order. */
module WritePump {

  type Line = string

  /** `inFlight` are the writes handed to the socket and not completed; `posted`, `handed` and `done` record the past. */
  datatype Pump = Pump(queue: seq<Line>, stopped: bool, inFlight: seq<Line>,
                       posted: seq<Line>, handed: seq<Line>, done: seq<Line>)

  const FRESH_PUMP := Pump([], false, [], [], [], [])

  datatype Occurrence =
    | Posted(line: Line)
    | Completed(ok: bool)   // of the oldest write in flight
    | Stopped

  function StartWrite(p: Pump): Pump {
    if p.queue == [] || p.stopped then p
    else p.(inFlight := p.inFlight + [p.queue[0]], handed := p.handed + [p.queue[0]])
  }

  function Deliver(p: Pump, line: Line): Pump {
    var wasIdle := p.queue == [];
    var pushed := p.(queue := p.queue + [line], posted := p.posted + [line]);
    if wasIdle then StartWrite(pushed) else pushed
  }

  /** A failed write stops the session and leaves its line at the front of the queue. */
  function OnWrite(p: Pump, ok: bool): Pump
    requires p.inFlight != [] && p.queue != []
  {
    var landed := p.(inFlight := p.inFlight[1..]);
    if !ok then landed.(stopped := true)
    else
      var popped := landed.(queue := p.queue[1..], done := p.done + [p.queue[0]]);
      if popped.queue != [] then StartWrite(popped) else popped
  }

  /** A completion happens only when a write is in flight. */
  function Happen(p: Pump, o: Occurrence): Pump {
    match o
    case Posted(line) => Deliver(p, line)
    case Completed(ok) => if p.inFlight == [] || p.queue == [] then p else OnWrite(p, ok)
    case Stopped => p.(stopped := true)
  }

  function HappenAll(p: Pump, os: seq<Occurrence>): Pump
    decreases |os|
  {
    if os == [] then p else HappenAll(Happen(p, os[0]), os[1..])
  }

  ghost predicate PumpInv(p: Pump) {
    && p.posted == p.done + p.queue
    && |p.inFlight| <= 1
    && (p.inFlight != [] ==> p.queue != [] && p.inFlight == [p.queue[0]])
    && (!p.stopped ==> (p.inFlight != [] <==> p.queue != []))
    && (p.handed == p.done || (p.queue != [] && p.handed == p.done + [p.queue[0]]))
    && (p.inFlight != [] || !p.stopped ==> p.handed == p.done + p.inFlight)
  }

  lemma HappenKeepsInv(p: Pump, o: Occurrence)
    requires PumpInv(p)
    ensures PumpInv(Happen(p, o))
  {
    match o
    case Posted(line) =>
      assert p.done + (p.queue + [line]) == p.posted + [line];
    case Completed(ok) =>
      if p.inFlight != [] {
        assert p.queue == [p.queue[0]] + p.queue[1..];
        assert p.done + [p.queue[0]] + p.queue[1..] == p.posted;
      }
    case Stopped =>
  }

  lemma {:induction false} RunKeepsPump(p: Pump, os: seq<Occurrence>)
    requires PumpInv(p)
    ensures PumpInv(HappenAll(p, os))
    decreases |os|
  {
    if os == [] {
    } else {
      HappenKeepsInv(p, os[0]);
      RunKeepsPump(Happen(p, os[0]), os[1..]);
    }
  }

  /** In every run at most one write is in flight, until the session stops one is in flight exactly when the queue is not
      empty, and the lines handed to the socket are always the first of the posted ones, in order. */
  lemma PumpRuns(os: seq<Occurrence>)
    ensures
      var p := HappenAll(FRESH_PUMP, os);
      && |p.inFlight| <= 1
      && (!p.stopped ==> (p.inFlight != [] <==> p.queue != []))
      && p.handed <= p.posted
      && p.done <= p.handed
      && (!p.stopped && p.inFlight == [] ==> p.done == p.posted)
  {
    RunKeepsPump(FRESH_PUMP, os);
    var p := HappenAll(FRESH_PUMP, os);
    if p.queue != [] {
      assert p.queue == [p.queue[0]] + p.queue[1..];
      assert p.done + [p.queue[0]] + p.queue[1..] == p.posted;
    }
  }

  lemma {:induction false} StoppedHandsNothing(p: Pump, os: seq<Occurrence>)
    requires PumpInv(p) && p.stopped
    ensures HappenAll(p, os).handed == p.handed && HappenAll(p, os).stopped
    decreases |os|
  {
    if os == [] {
    } else {
      HappenKeepsInv(p, os[0]);
      StoppedHandsNothing(Happen(p, os[0]), os[1..]);
    }
  }

  // ----- The pump by counting -----

  /** How far a pump is, counted in lines: all that came in, how many of them have been written, whether the next is
      being written, and whether the session has stopped. */
  datatype Tally = Tally(lines: seq<Line>, written: nat, writing: bool, stopped: bool)

  function Counted(t: Tally, o: Occurrence): Tally {
    match o
    case Posted(line) =>
      t.(lines := t.lines + [line], writing := t.writing || (!t.stopped && t.written == |t.lines|))
    case Completed(ok) =>
      if !t.writing then t
      else if !ok then t.(writing := false, stopped := true)
      else t.(written := t.written + 1, writing := !t.stopped && t.written + 1 < |t.lines|)
    case Stopped => t.(stopped := true)
  }

  function CountAll(t: Tally, os: seq<Occurrence>): Tally
    decreases |os|
  {
    if os == [] then t else CountAll(Counted(t, os[0]), os[1..])
  }

  ghost predicate CountsAs(p: Pump, t: Tally) {
    && p.posted == t.lines && t.written <= |t.lines| && p.done == t.lines[..t.written]
    && p.queue == t.lines[t.written..] && p.stopped == t.stopped
    && (t.writing ==> t.written < |t.lines|)
    && p.inFlight == (if t.writing then [t.lines[t.written]] else [])
  }

  lemma {:induction false} PostCounts(p: Pump, t: Tally, line: Line)
    requires PumpInv(p) && CountsAs(p, t)
    ensures CountsAs(Happen(p, Posted(line)), Counted(t, Posted(line)))
  {
    assert (t.lines + [line])[..t.written] == t.lines[..t.written];
    assert (t.lines + [line])[t.written..] == t.lines[t.written..] + [line];
  }

  lemma {:induction false} CompletionCounts(p: Pump, t: Tally, ok: bool)
    requires PumpInv(p) && CountsAs(p, t)
    ensures CountsAs(Happen(p, Completed(ok)), Counted(t, Completed(ok)))
  {
    if t.writing {
      assert t.lines[..t.written] + [t.lines[t.written]] == t.lines[..t.written + 1];
      assert t.lines[t.written..][1..] == t.lines[t.written + 1..];
    }
  }

  lemma {:induction false} HappenCounts(p: Pump, t: Tally, o: Occurrence)
    requires PumpInv(p) && CountsAs(p, t)
    ensures CountsAs(Happen(p, o), Counted(t, o))
  {
    match o
    case Posted(line) => PostCounts(p, t, line);
    case Completed(ok) => CompletionCounts(p, t, ok);
    case Stopped =>
  }

  lemma {:induction false} RunCounts(p: Pump, t: Tally, os: seq<Occurrence>)
    requires PumpInv(p) && CountsAs(p, t)
    ensures CountsAs(HappenAll(p, os), CountAll(t, os))
    decreases |os|
  {
    if os != [] {
      HappenKeepsInv(p, os[0]);
      HappenCounts(p, t, os[0]);
      RunCounts(Happen(p, os[0]), Counted(t, os[0]), os[1..]);
    }
  }

  /** The lines handed to `deliver` in a run. */
  function LinesIn(os: seq<Occurrence>): seq<Line> {
    if os == [] then [] else (if os[0].Posted? then [os[0].line] else []) + LinesIn(os[1..])
  }

  lemma {:induction false} CountsLines(t: Tally, os: seq<Occurrence>)
    ensures CountAll(t, os).lines == t.lines + LinesIn(os)
    decreases |os|
  {
    if os == [] {
      assert t.lines + [] == t.lines;
    } else {
      CountsLines(Counted(t, os[0]), os[1..]);
      if os[0].Posted? {
        assert t.lines + [os[0].line] + LinesIn(os[1..]) == t.lines + ([os[0].line] + LinesIn(os[1..]));
      } else {
        assert [] + LinesIn(os[1..]) == LinesIn(os[1..]);
      }
    }
  }

  /** In every run: no line handed to `deliver` is lost, and queue, write in flight and lines written are as counted. */
  lemma RunsAsCounted(os: seq<Occurrence>)
    ensures
      var p, t := HappenAll(FRESH_PUMP, os), CountAll(Tally([], 0, false, false), os);
      && t.lines == LinesIn(os) && CountsAs(p, t)
  {
    RunCounts(FRESH_PUMP, Tally([], 0, false, false), os);
    CountsLines(Tally([], 0, false, false), os);
    assert [] + LinesIn(os) == LinesIn(os);
  }

  /** A line counts as written exactly when its own write completes without failure. */
  lemma OnlyOkIsDone(os: seq<Occurrence>, o: Occurrence)
    ensures
      var p := HappenAll(FRESH_PUMP, os);
      Happen(p, o).done == if o == Completed(true) then p.done + p.inFlight else p.done
  {
    RunKeepsPump(FRESH_PUMP, os);
    var p := HappenAll(FRESH_PUMP, os);
    assert p.done + [] == p.done;
  }

  lemma {:induction false} StoppedDry(p: Pump, os: seq<Occurrence>)
    requires PumpInv(p) && p.stopped && p.inFlight == []
    ensures
      var q := HappenAll(p, os);
      q.stopped && q.inFlight == [] && q.handed == p.handed && q.done == p.done
    decreases |os|
  {
    if os != [] {
      HappenKeepsInv(p, os[0]);
      StoppedDry(Happen(p, os[0]), os[1..]);
    }
  }

  /** A failed write stops the pump for good: whatever comes after, nothing more is handed to the socket and nothing more
      counts as written, the failed line included. */
  lemma FailedWriteStops(os: seq<Occurrence>, more: seq<Occurrence>)
    requires HappenAll(FRESH_PUMP, os).inFlight != []
    ensures
      var p := HappenAll(FRESH_PUMP, os);
      var q := HappenAll(Happen(p, Completed(false)), more);
      q.stopped && q.inFlight == [] && q.handed == p.handed && q.done == p.done
  {
    RunKeepsPump(FRESH_PUMP, os);
    HappenKeepsInv(HappenAll(FRESH_PUMP, os), Completed(false));
    StoppedDry(Happen(HappenAll(FRESH_PUMP, os), Completed(false)), more);
  }

  /** The writing half of a client session. */
  class SessionWriter {
    var writeQueue: seq<Line>
    var stopped: bool
    ghost var inFlight: seq<Line>
    ghost var posted: seq<Line>
    ghost var handed: seq<Line>
    ghost var done: seq<Line>

    ghost function State(): Pump
      reads this
    {
      Pump(writeQueue, stopped, inFlight, posted, handed, done)
    }

    ghost predicate Valid()
      reads this
    {
      PumpInv(State())
    }

    constructor ()
      ensures Valid() && State() == FRESH_PUMP
    {
      writeQueue, stopped := [], false;
      inFlight, posted, handed, done := [], [], [], [];
    }

    method DoWrite()
      modifies this`inFlight, this`handed
      ensures State() == StartWrite(old(State()))
    {
      if writeQueue == [] || stopped {
        return;
      }
      inFlight := inFlight + [writeQueue[0]];
      handed := handed + [writeQueue[0]];
    }

    /** The handler that `deliver` posts to the strand. */
    method DeliverLine(line: Line)
      requires Valid()
      modifies this
      ensures Valid() && State() == Happen(old(State()), Posted(line))
    {
      HappenKeepsInv(State(), Posted(line));
      var wasIdle := writeQueue == [];
      writeQueue := writeQueue + [line];
      posted := posted + [line];
      if wasIdle {
        DoWrite();
      }
    }

    method WriteCompleted(ok: bool)
      requires Valid() && inFlight != []
      modifies this
      ensures Valid() && State() == Happen(old(State()), Completed(ok))
    {
      HappenKeepsInv(State(), Completed(ok));
      inFlight := inFlight[1..];
      if !ok {
        stopped := true;
        return;
      }
      done := done + [writeQueue[0]];
      writeQueue := writeQueue[1..];
      if writeQueue != [] {
        DoWrite();
      }
    }

    method Stop()
      requires Valid()
      modifies this`stopped
      ensures Valid() && State() == Happen(old(State()), Stopped)
    {
      stopped := true;
    }
  }
}
