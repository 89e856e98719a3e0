/** The background snapshot writer as a system of interleaved steps: callers of `enqueue`, the
    worker thread, and whoever stops the writer. Then the writer object, proved to take these steps. */
module Writer {
  import opened Types
  import opened Codec
  import opened Store

  /** Where the worker stands in its loop. */
  datatype Worker =
    | Waiting
    | Holding(task: PersistedSnapshot)   // taken off the queue
    | Sweeping(task: PersistedSnapshot)  // saved, about to prune
    | Attempted                          // about to lower `pending`
    | Exited

  /** One task the worker has tried to save, and the row it became if that worked. */
  datatype Attempt = Attempt(task: PersistedSnapshot, ok: bool, row: Row)

  function RowFor(task: PersistedSnapshot, id: nat, now: int): Row {
    RowOf(id, SaveCall(task.room, task.lastSeq, Raws(task.strokes), now))
  }

  /** `announced` are the snapshots counted in `pending` that have not reached the queue yet;
      `pushed` and `attempts` record the past and influence nothing. */
  datatype WriterState = WriterState(
    announced: multiset<PersistedSnapshot>,
    queue: seq<PersistedSnapshot>,
    pending: int,
    stop: bool,
    worker: Worker,
    rows: seq<Row>,
    nextId: nat,
    pushed: seq<PersistedSnapshot>,
    attempts: seq<Attempt>)
  {
    function Tried(): (r: seq<PersistedSnapshot>)
      ensures |r| == |attempts|
      ensures forall i :: 0 <= i < |r| ==> r[i] == attempts[i].task
    {
      seq(|attempts|, i requires 0 <= i < |attempts| => attempts[i].task)
    }
  }

  const STARTED := WriterState(multiset{}, [], 0, false, Waiting, [], 1, [], [])

  datatype Step =
    | Announce(p: PersistedSnapshot)     // enqueue: pending goes up
    | Enter(p: PersistedSnapshot)        // enqueue: onto the queue, under the lock
    | RequestStop
    | Take                               // the worker's wait is over
    | SaveTask(ok: bool, now: int)
    | SweepTask(ok: bool, left: seq<Row>)
    | Finish

  function AfterSave(w: WriterState, ok: bool, row: Row): WriterState
    requires w.worker.Holding?
  {
    var tried := w.(attempts := w.attempts + [Attempt(w.worker.task, ok, row)]);
    if ok then tried.(rows := w.rows + [row], nextId := w.nextId + 1, worker := Sweeping(w.worker.task))
    else tried.(worker := Attempted)
  }

  /** The state after a step; a step that cannot be taken changes nothing. */
  ghost function Do(w: WriterState, keep: nat, step: Step): WriterState {
    match step
    case Announce(p) => w.(pending := w.pending + 1, announced := w.announced + multiset{p})
    case Enter(p) =>
      if p !in w.announced then w
      else w.(announced := w.announced - multiset{p}, queue := w.queue + [p], pushed := w.pushed + [p])
    case RequestStop => w.(stop := true)
    case Take =>
      if !w.worker.Waiting? || !(w.stop || w.queue != []) then w
      else if w.stop && w.queue == [] then w.(worker := Exited)
      else w.(worker := Holding(w.queue[0]), queue := w.queue[1..])
    case SaveTask(ok, now) =>
      if !w.worker.Holding? then w
      else
        AfterSave(w, ok, RowFor(w.worker.task, w.nextId, now))
    case SweepTask(ok, left) =>
      if !w.worker.Sweeping? then w
      else if !ok then w.(worker := Attempted)
      else if Pruned(w.rows, w.worker.task.room, keep, left) then w.(rows := left, worker := Attempted)
      else w
    case Finish => if w.worker.Attempted? then w.(pending := w.pending - 1, worker := Waiting) else w
  }

  ghost function DoAll(w: WriterState, keep: nat, steps: seq<Step>): WriterState
    decreases |steps|
  {
    if steps == [] then w else DoAll(Do(w, keep, steps[0]), keep, steps[1..])
  }

  function InHand(worker: Worker): seq<PersistedSnapshot> {
    if worker.Holding? then [worker.task] else []
  }

  function InProcess(worker: Worker): nat {
    if worker.Holding? || worker.Sweeping? || worker.Attempted? then 1 else 0
  }

  /** Saves are attempted in push order, each snapshot once, and `pending` counts what is left to do. */
  ghost predicate QueueInv(w: WriterState) {
    && w.Tried() + (InHand(w.worker) + w.queue) == w.pushed
    && w.pending == |w.announced| + |w.queue| + InProcess(w.worker)
  }

  /** The row is that of some successful save. */
  ghost predicate Saved(attempts: seq<Attempt>, x: Row) {
    exists i :: 0 <= i < |attempts| && attempts[i].ok && attempts[i].row == x
  }

  ghost predicate RowsSaved(w: WriterState) {
    && IdsIncrease(w.rows)
    && (forall x :: x in w.rows ==> x.id < w.nextId && Saved(w.attempts, x))
  }

  /** Every successful save made the row it should. */
  ghost predicate AttemptsFaithful(w: WriterState) {
    forall i :: 0 <= i < |w.attempts| ==> Faithful(w.attempts[i])
  }

  ghost predicate Faithful(a: Attempt) {
    a.row == RowFor(a.task, a.row.id, a.row.savedAt)
  }

  ghost predicate RoomsAgree(w: WriterState) {
    forall i :: 0 <= i < |w.attempts| ==> w.attempts[i].row.room == w.attempts[i].task.room
  }

  /** Every row is that of a successful save, and no two share an id. */
  ghost predicate TableInv(w: WriterState) {
    RowsSaved(w) && AttemptsFaithful(w) && RoomsAgree(w)
  }

  lemma SaveKeepsQueue(w: WriterState, ok: bool, row: Row)
    requires QueueInv(w) && w.worker.Holding?
    ensures QueueInv(AfterSave(w, ok, row))
  {
    var task := w.worker.task;
    assert AfterSave(w, ok, row).Tried() == w.Tried() + [task];
    assert w.Tried() + [task] + ([] + w.queue) == w.Tried() + ([task] + w.queue);
  }

  lemma DoKeepsQueue(w: WriterState, keep: nat, step: Step)
    requires QueueInv(w)
    ensures QueueInv(Do(w, keep, step))
  {
    match step
    case Enter(p) =>
      assert w.Tried() + (InHand(w.worker) + (w.queue + [p])) == w.Tried() + (InHand(w.worker) + w.queue) + [p];
    case Take =>
      if w.worker.Waiting? && w.queue != [] {
        assert [w.queue[0]] + w.queue[1..] == [] + w.queue;
      }
    case SaveTask(ok, now) =>
      if w.worker.Holding? {
        SaveKeepsQueue(w, ok, RowFor(w.worker.task, w.nextId, now));
      }
    case _ =>
  }

  lemma SavedStays(attempts: seq<Attempt>, a: Attempt, x: Row)
    requires Saved(attempts, x) || (a.ok && a.row == x)
    ensures Saved(attempts + [a], x)
  {
    var longer := attempts + [a];
    if Saved(attempts, x) {
      var i :| 0 <= i < |attempts| && attempts[i].ok && attempts[i].row == x;
      assert longer[i] == attempts[i];
    } else {
      assert longer[|attempts|] == a;
    }
  }

  lemma SaveKeepsTable(w: WriterState, ok: bool, row: Row)
    requires TableInv(w) && w.worker.Holding?
    requires row.id == w.nextId && row.room == w.worker.task.room && Faithful(Attempt(w.worker.task, ok, row))
    ensures TableInv(AfterSave(w, ok, row))
  {
    var w' := AfterSave(w, ok, row);
    forall x | x in w'.rows ensures x.id < w'.nextId && Saved(w'.attempts, x) {
      SavedStays(w.attempts, Attempt(w.worker.task, ok, row), x);
    }
  }

  lemma SweepKeepsTable(w: WriterState, room: RoomId, keep: nat, left: seq<Row>)
    requires TableInv(w) && Pruned(w.rows, room, keep, left)
    ensures TableInv(w.(rows := left, worker := Attempted))
  {
    SweepBounds(w.rows, room, keep, left);
  }

  lemma DoKeepsTable(w: WriterState, keep: nat, step: Step)
    requires TableInv(w)
    ensures TableInv(Do(w, keep, step))
  {
    match step
    case SaveTask(ok, now) =>
      if w.worker.Holding? {
        SaveKeepsTable(w, ok, RowFor(w.worker.task, w.nextId, now));
      }
    case SweepTask(ok, left) =>
      if w.worker.Sweeping? && ok && Pruned(w.rows, w.worker.task.room, keep, left) {
        SweepKeepsTable(w, w.worker.task.room, keep, left);
      }
    case _ =>
  }

  lemma DoOnlyPushes(w: WriterState, keep: nat, step: Step)
    ensures w.pushed <= Do(w, keep, step).pushed
  {
  }

  lemma {:induction false} RunOnlyPushes(w: WriterState, keep: nat, steps: seq<Step>)
    ensures w.pushed <= DoAll(w, keep, steps).pushed
    decreases |steps|
  {
    if steps == [] {
    } else {
      DoOnlyPushes(w, keep, steps[0]);
      RunOnlyPushes(Do(w, keep, steps[0]), keep, steps[1..]);
    }
  }

  lemma {:induction false} RunKeepsWriter(w: WriterState, keep: nat, steps: seq<Step>)
    requires QueueInv(w) && TableInv(w)
    ensures QueueInv(DoAll(w, keep, steps)) && TableInv(DoAll(w, keep, steps))
    decreases |steps|
  {
    if steps == [] {
    } else {
      DoKeepsQueue(w, keep, steps[0]);
      DoKeepsTable(w, keep, steps[0]);
      RunKeepsWriter(Do(w, keep, steps[0]), keep, steps[1..]);
    }
  }

  /** In every interleaving the attempted saves are a prefix of the pushes, in order, and `pending` is exact. */
  lemma ReachableWriter(keep: nat, steps: seq<Step>)
    ensures
      var w := DoAll(STARTED, keep, steps);
      && QueueInv(w) && TableInv(w)
      && w.Tried() <= w.pushed
  {
    assert STARTED.Tried() + (InHand(Waiting) + []) == [];
    RunKeepsWriter(STARTED, keep, steps);
  }

  /** `flush` returns on seeing `pending` at zero; whatever had been pushed when it was called has then been attempted. */
  lemma FlushDrains(keep: nat, before: seq<Step>, during: seq<Step>)
    requires DoAll(DoAll(STARTED, keep, before), keep, during).pending == 0
    ensures
      var called := DoAll(STARTED, keep, before);
      var seen := DoAll(called, keep, during);
      && called.pushed <= seen.Tried() == seen.pushed
      && seen.announced == multiset{}
  {
    ReachableWriter(keep, before);
    var called := DoAll(STARTED, keep, before);
    RunKeepsWriter(called, keep, during);
    RunOnlyPushes(called, keep, during);
    var seen := DoAll(called, keep, during);
    assert seen.Tried() + ([] + []) == seen.Tried();
  }

  /** The worker leaves its loop only on a stop request, and with everything pushed attempted. */
  lemma ExitDrained(keep: nat, steps: seq<Step>, step: Step)
    ensures
      var w := DoAll(STARTED, keep, steps);
      var w' := Do(w, keep, step);
      !w.worker.Exited? && w'.worker.Exited? ==> w'.stop && w'.queue == [] && w'.Tried() == w'.pushed
  {
    ReachableWriter(keep, steps);
    var w := DoAll(STARTED, keep, steps);
    assert w.Tried() + ([] + []) == w.Tried();
  }

  // ----- The newest row of a room survives -----

  /** The `k`-th attempt is the last one for room `r`. */
  ghost predicate IsLastOf(attempts: seq<Attempt>, r: RoomId, k: nat) {
    && k < |attempts| && attempts[k].task.room == r
    && forall j :: k < j < |attempts| ==> attempts[j].task.room != r
  }

  /** It worked, and its timestamp is later than those of the room's earlier successful saves. */
  ghost predicate StrictlyNewest(attempts: seq<Attempt>, k: nat)
    requires k < |attempts|
  {
    && attempts[k].ok
    && forall j :: 0 <= j < k && attempts[j].task.room == attempts[k].task.room && attempts[j].ok ==>
         attempts[j].row.savedAt < attempts[k].row.savedAt
  }

  ghost predicate NewestKept(w: WriterState) {
    forall r, k: nat :: IsLastOf(w.attempts, r, k) && StrictlyNewest(w.attempts, k) ==> w.attempts[k].row in w.rows
  }

  lemma NoRivals(w: WriterState, r: RoomId, k: nat)
    requires RowsSaved(w) && RoomsAgree(w) && IsLastOf(w.attempts, r, k) && StrictlyNewest(w.attempts, k)
    ensures Rivals(w.rows, w.attempts[k].row) == {}
  {
    var x := w.attempts[k].row;
    forall y | y in w.rows && y.room == r && y.id != x.id ensures y.savedAt < x.savedAt {
      assert Saved(w.attempts, y);
      var i :| 0 <= i < |w.attempts| && w.attempts[i].ok && w.attempts[i].row == y;
      assert w.attempts[i].task.room == r;
    }
  }

  lemma LastOfShorter(attempts: seq<Attempt>, a: Attempt, r: RoomId, k: nat)
    requires IsLastOf(attempts + [a], r, k) && StrictlyNewest(attempts + [a], k)
    ensures k < |attempts| ==> IsLastOf(attempts, r, k) && StrictlyNewest(attempts, k)
  {
    if k < |attempts| {
      var longer := attempts + [a];
      forall j | 0 <= j < |attempts| ensures attempts[j] == longer[j] {
      }
    }
  }

  lemma SaveKeepsNewest(w: WriterState, ok: bool, row: Row)
    requires NewestKept(w) && w.worker.Holding?
    ensures NewestKept(AfterSave(w, ok, row))
  {
    var w' := AfterSave(w, ok, row);
    var a := Attempt(w.worker.task, ok, row);
    forall r, k: nat | IsLastOf(w'.attempts, r, k) && StrictlyNewest(w'.attempts, k) ensures w'.attempts[k].row in w'.rows {
      LastOfShorter(w.attempts, a, r, k);
      if k < |w.attempts| {
        assert w.attempts[k].row in w.rows;
      }
    }
  }

  lemma NewestSurvives(w: WriterState, room: RoomId, keep: nat, left: seq<Row>, r: RoomId, k: nat)
    requires RowsSaved(w) && RoomsAgree(w) && keep > 0 && Pruned(w.rows, room, keep, left)
    requires IsLastOf(w.attempts, r, k) && StrictlyNewest(w.attempts, k) && w.attempts[k].row in w.rows
    ensures w.attempts[k].row in left
  {
    var x := w.attempts[k].row;
    if r == room {
      NoRivals(w, r, k);
      SafeIff(w.rows, x, keep);
    } else {
      SweepBounds(w.rows, room, keep, left);
      assert x in OfRoom(w.rows, r);
    }
  }

  lemma DoKeepsNewest(w: WriterState, keep: nat, step: Step)
    requires TableInv(w) && NewestKept(w) && keep > 0
    ensures NewestKept(Do(w, keep, step))
  {
    match step
    case SaveTask(ok, now) =>
      if w.worker.Holding? {
        SaveKeepsNewest(w, ok, RowFor(w.worker.task, w.nextId, now));
      }
    case SweepTask(ok, left) =>
      if w.worker.Sweeping? && ok && Pruned(w.rows, w.worker.task.room, keep, left) {
        forall r, k: nat | IsLastOf(w.attempts, r, k) && StrictlyNewest(w.attempts, k) ensures w.attempts[k].row in left {
          NewestSurvives(w, w.worker.task.room, keep, left, r, k);
        }
      }
    case _ =>
  }

  lemma {:induction false} RunKeepsNewest(w: WriterState, keep: nat, steps: seq<Step>)
    requires TableInv(w) && NewestKept(w) && keep > 0
    ensures TableInv(DoAll(w, keep, steps)) && NewestKept(DoAll(w, keep, steps))
    decreases |steps|
  {
    if steps == [] {
    } else {
      DoKeepsTable(w, keep, steps[0]);
      DoKeepsNewest(w, keep, steps[0]);
      RunKeepsNewest(Do(w, keep, steps[0]), keep, steps[1..]);
    }
  }

  /** In every interleaving, if the last attempt for a room worked and its timestamp is later than the room's earlier
      ones, then its row is there and is the only one `loadLatest` can find, whether or not sweeps failed. */
  lemma NewestIsLatest(keep: nat, steps: seq<Step>, r: RoomId, k: nat)
    requires keep > 0
    requires
      var w := DoAll(STARTED, keep, steps);
      IsLastOf(w.attempts, r, k) && StrictlyNewest(w.attempts, k)
    ensures
      var w := DoAll(STARTED, keep, steps);
      && w.attempts[k].row in w.rows && Faithful(w.attempts[k])
      && IdsIncrease(w.rows)
      && forall x :: IsLatest(w.rows, r, x) ==> x == w.attempts[k].row
  {
    RunKeepsNewest(STARTED, keep, steps);
    var w := DoAll(STARTED, keep, steps);
    OnlyLatest(w, r, k);
  }

  lemma OnlyLatest(w: WriterState, r: RoomId, k: nat)
    requires RowsSaved(w) && RoomsAgree(w) && IsLastOf(w.attempts, r, k) && StrictlyNewest(w.attempts, k)
    requires w.attempts[k].row in w.rows
    ensures forall x :: IsLatest(w.rows, r, x) ==> x == w.attempts[k].row
  {
    NoRivals(w, r, k);
    LatestIff(w.rows, w.attempts[k].row);
  }
}
