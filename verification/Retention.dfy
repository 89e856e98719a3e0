/** What the background writer leaves in the table, over every interleaving: retention as an operator sees it. */
module Retention {
  import opened Types
  import opened Codec
  import opened Store
  import opened Writer

  /** The saves that worked, in order. */
  function SavesOf(attempts: seq<Attempt>): seq<SaveCall> {
    if attempts == [] then []
    else
      var a := attempts[|attempts| - 1];
      SavesOf(attempts[..|attempts| - 1])
      + if a.ok then [SaveCall(a.task.room, a.task.lastSeq, Raws(a.task.strokes), a.row.savedAt)] else []
  }

  /** `rows` are the last of `all`: no fewer than are to be kept, if there are as many. */
  ghost predicate Lasts(rows: seq<Row>, all: seq<Row>, keep: nat) {
    && |rows| <= |all| && rows == all[|all| - |rows|..]
    && (|rows| >= keep || rows == all)
  }

  /** If the times increase in each room, each room's rows are the last of those of its saves. */
  ghost predicate KeepsLast(rows: seq<Row>, saves: seq<SaveCall>, keep: nat) {
    TimesIncreasePerRoom(saves) ==> forall r :: Lasts(OfRoom(rows, r), OfRoom(Inserted(saves), r), keep)
  }

  ghost predicate Retains(w: WriterState, keep: nat) {
    && IdsIncrease(w.rows) && w.nextId == |SavesOf(w.attempts)| + 1
    && KeepsLast(w.rows, SavesOf(w.attempts), keep)
  }

  /** No room has more rows than are to be kept, but for the one about to be swept. */
  ghost predicate Bounded(w: WriterState, keep: nat) {
    forall r :: |OfRoom(w.rows, r)| <= keep + if w.worker.Sweeping? && w.worker.task.room == r then 1 else 0
  }

  lemma SavesMore(attempts: seq<Attempt>, a: Attempt)
    ensures SavesOf(attempts + [a]) ==
            SavesOf(attempts) + if a.ok then [SaveCall(a.task.room, a.task.lastSeq, Raws(a.task.strokes), a.row.savedAt)] else []
  {
    assert (attempts + [a])[..|attempts|] == attempts;
  }

  lemma OneMoreRow(rows: seq<Row>, saves: seq<SaveCall>, s: SaveCall, r: RoomId)
    ensures
      var x := RowOf(|saves| + 1, s);
      && OfRoom(rows + [x], r) == OfRoom(rows, r) + (if s.room == r then [x] else [])
      && OfRoom(Inserted(saves + [s]), r) == OfRoom(Inserted(saves), r) + (if s.room == r then [x] else [])
  {
    var x := RowOf(|saves| + 1, s);
    assert (saves + [s])[..|saves|] == saves;
    InsertedAppend(saves + [s], |saves|);
    WhereAppend(rows, x, (y: Row) => y.room == r);
    WhereAppend(Inserted(saves), x, (y: Row) => y.room == r);
  }

  lemma LastsMore(rows: seq<Row>, all: seq<Row>, more: seq<Row>, keep: nat)
    requires Lasts(rows, all, keep)
    ensures Lasts(rows + more, all + more, keep)
  {
    var k := |all| - |rows|;
    assert (all + more)[k..] == all[k..] + more;
  }

  lemma FewerTimes(saves: seq<SaveCall>, more: seq<SaveCall>)
    requires TimesIncreasePerRoom(saves + more)
    ensures TimesIncreasePerRoom(saves)
  {
    forall i, j | 0 <= i < j < |saves| && saves[i].room == saves[j].room ensures saves[i].at < saves[j].at {
      assert (saves + more)[i] == saves[i] && (saves + more)[j] == saves[j];
    }
  }

  lemma {:induction false} GoodSaveIs(w: WriterState, keep: nat, now: int)
    requires w.worker.Holding? && w.nextId == |SavesOf(w.attempts)| + 1
    ensures
      var task, saves, w' := w.worker.task, SavesOf(w.attempts), Do(w, keep, SaveTask(true, now));
      var s := SaveCall(task.room, task.lastSeq, Raws(task.strokes), now);
      w'.rows == w.rows + [RowOf(|saves| + 1, s)] && SavesOf(w'.attempts) == saves + [s] && w'.nextId == |saves| + 2
  {
    SavesMore(w.attempts, Attempt(w.worker.task, true, RowFor(w.worker.task, w.nextId, now)));
  }

  lemma {:induction false} GoodSaveRetains(w: WriterState, keep: nat, now: int)
    requires TableInv(w) && Retains(w, keep) && w.worker.Holding?
    ensures Retains(Do(w, keep, SaveTask(true, now)), keep)
  {
    DoKeepsTable(w, keep, SaveTask(true, now));
    GoodSaveIs(w, keep, now);
    var s := SaveCall(w.worker.task.room, w.worker.task.lastSeq, Raws(w.worker.task.strokes), now);
    SaveKeepsLast(w.rows, SavesOf(w.attempts), s, Do(w, keep, SaveTask(true, now)).rows, keep);
  }

  lemma {:induction false} SaveKeepsLast(rows: seq<Row>, saves: seq<SaveCall>, s: SaveCall, rows': seq<Row>, keep: nat)
    requires rows' == rows + [RowOf(|saves| + 1, s)] && KeepsLast(rows, saves, keep)
    ensures KeepsLast(rows', saves + [s], keep)
  {
    if TimesIncreasePerRoom(saves + [s]) {
      FewerTimes(saves, [s]);
      forall r ensures Lasts(OfRoom(rows', r), OfRoom(Inserted(saves + [s]), r), keep) {
        OneMoreRow(rows, saves, s, r);
        LastsMore(OfRoom(rows, r), OfRoom(Inserted(saves), r), if s.room == r then [RowOf(|saves| + 1, s)] else [], keep);
      }
    }
  }

  lemma {:induction false} BadSaveRetains(w: WriterState, keep: nat, now: int)
    requires TableInv(w) && Retains(w, keep) && w.worker.Holding?
    ensures Retains(Do(w, keep, SaveTask(false, now)), keep)
  {
    DoKeepsTable(w, keep, SaveTask(false, now));
    SavesMore(w.attempts, Attempt(w.worker.task, false, RowFor(w.worker.task, w.nextId, now)));
    assert SavesOf(w.attempts) + [] == SavesOf(w.attempts);
  }

  lemma LastsTimes(rows: seq<Row>, all: seq<Row>, keep: nat)
    requires Lasts(rows, all, keep) && TimesIncrease(all)
    ensures TimesIncrease(rows)
  {
  }

  lemma LastsSwept(rows: seq<Row>, all: seq<Row>, keep: nat)
    requires Lasts(rows, all, keep)
    ensures Lasts(LastN(rows, keep), all, keep)
  {
  }

  lemma {:induction false} SweepRetains(w: WriterState, keep: nat, left: seq<Row>)
    requires Retains(w, keep) && w.worker.Sweeping? && Pruned(w.rows, w.worker.task.room, keep, left)
    ensures Retains(Do(w, keep, SweepTask(true, left)), keep)
  {
    SweepKeeps(w.rows, w.worker.task.room, keep, left, SavesOf(w.attempts));
    SweepIs(w, keep, left);
  }

  lemma {:induction false} SweepIs(w: WriterState, keep: nat, left: seq<Row>)
    requires w.worker.Sweeping? && Pruned(w.rows, w.worker.task.room, keep, left)
    ensures Do(w, keep, SweepTask(true, left)) == w.(rows := left, worker := Attempted)
  {
  }

  lemma {:induction false} SweepKeeps(rows: seq<Row>, room: RoomId, keep: nat, left: seq<Row>, saves: seq<SaveCall>)
    requires IdsIncrease(rows) && Pruned(rows, room, keep, left) && KeepsLast(rows, saves, keep)
    ensures IdsIncrease(left) && KeepsLast(left, saves, keep)
  {
    SweepBounds(rows, room, keep, left);
    if TimesIncreasePerRoom(saves) {
      forall r ensures Lasts(OfRoom(left, r), OfRoom(Inserted(saves), r), keep) {
        SweptKeepsLast(rows, room, keep, left, saves, r);
      }
    }
  }

  lemma {:induction false} SweptKeepsLast(rows: seq<Row>, room: RoomId, keep: nat, left: seq<Row>, saves: seq<SaveCall>, r: RoomId)
    requires IdsIncrease(rows) && Pruned(rows, room, keep, left) && TimesIncreasePerRoom(saves)
    requires Lasts(OfRoom(rows, r), OfRoom(Inserted(saves), r), keep)
    ensures Lasts(OfRoom(left, r), OfRoom(Inserted(saves), r), keep)
  {
    if r == room {
      InsertedTimes(saves, r);
      LastsTimes(OfRoom(rows, r), OfRoom(Inserted(saves), r), keep);
      SweepKeepsLast(rows, r, keep, left);
      LastsSwept(OfRoom(rows, r), OfRoom(Inserted(saves), r), keep);
    } else {
      SweepBounds(rows, room, keep, left);
    }
  }

  lemma {:induction false} SameTableRetains(w: WriterState, w': WriterState, keep: nat)
    requires Retains(w, keep) && w'.rows == w.rows && w'.nextId == w.nextId && w'.attempts == w.attempts
    ensures Retains(w', keep)
  {
  }

  lemma {:induction false} DoRetains(w: WriterState, keep: nat, step: Step)
    requires TableInv(w) && Retains(w, keep)
    ensures Retains(Do(w, keep, step), keep)
  {
    if step.SaveTask? && w.worker.Holding? {
      if step.ok { GoodSaveRetains(w, keep, step.now); } else { BadSaveRetains(w, keep, step.now); }
    } else if step.SweepTask? && w.worker.Sweeping? && step.ok && Pruned(w.rows, w.worker.task.room, keep, step.left) {
      SweepRetains(w, keep, step.left);
    } else {
      SameTableRetains(w, Do(w, keep, step), keep);
    }
  }

  lemma {:induction false} RunRetains(w: WriterState, keep: nat, steps: seq<Step>)
    requires TableInv(w) && Retains(w, keep)
    ensures Retains(DoAll(w, keep, steps), keep)
    decreases |steps|
  {
    if steps != [] {
      DoRetains(w, keep, steps[0]);
      DoKeepsTable(w, keep, steps[0]);
      RunRetains(Do(w, keep, steps[0]), keep, steps[1..]);
    }
  }

  /** No sweep fails in this run. */
  predicate SweepsWork(steps: seq<Step>) {
    forall i :: 0 <= i < |steps| && steps[i].SweepTask? ==> steps[i].ok
  }

  lemma {:induction false} SaveBounds(w: WriterState, keep: nat, x: Row, w': WriterState)
    requires Bounded(w, keep) && w.worker.Holding? && x.room == w.worker.task.room
    requires w'.rows == w.rows + [x] && w'.worker == Sweeping(w.worker.task)
    ensures Bounded(w', keep)
  {
    forall r ensures |OfRoom(w'.rows, r)| <= keep + if x.room == r then 1 else 0 {
      WhereAppend(w.rows, x, (y: Row) => y.room == r);
      assert |OfRoom(w.rows, r)| <= keep;
    }
  }

  lemma {:induction false} SweepBoundsAll(w: WriterState, keep: nat, left: seq<Row>, w': WriterState)
    requires IdsIncrease(w.rows) && Bounded(w, keep) && w.worker.Sweeping?
    requires Pruned(w.rows, w.worker.task.room, keep, left) && w'.rows == left && w'.worker == Attempted
    ensures Bounded(w', keep)
  {
    SweepBounds(w.rows, w.worker.task.room, keep, left);
    forall r ensures |OfRoom(left, r)| <= keep {
      assert r != w.worker.task.room ==> |OfRoom(w.rows, r)| <= keep;
    }
  }

  lemma {:induction false} DoBounds(w: WriterState, keep: nat, step: Step)
    requires TableInv(w) && Bounded(w, keep) && (step.SweepTask? ==> step.ok)
    ensures Bounded(Do(w, keep, step), keep)
  {
    var w' := Do(w, keep, step);
    if step.SaveTask? && w.worker.Holding? && step.ok {
      SaveBounds(w, keep, RowFor(w.worker.task, w.nextId, step.now), w');
    } else if step.SweepTask? && w.worker.Sweeping? && Pruned(w.rows, w.worker.task.room, keep, step.left) {
      SweepBoundsAll(w, keep, step.left, w');
    } else {
      SameTableBounds(w, w', keep);
    }
  }

  lemma {:induction false} SameTableBounds(w: WriterState, w': WriterState, keep: nat)
    requires Bounded(w, keep) && w'.rows == w.rows && (w.worker.Sweeping? ==> w'.worker == w.worker)
    ensures Bounded(w', keep)
  {
  }

  lemma {:induction false} RunBounds(w: WriterState, keep: nat, steps: seq<Step>)
    requires TableInv(w) && Bounded(w, keep) && SweepsWork(steps)
    ensures Bounded(DoAll(w, keep, steps), keep)
    decreases |steps|
  {
    if steps != [] {
      DoBounds(w, keep, steps[0]);
      DoKeepsTable(w, keep, steps[0]);
      RunBounds(Do(w, keep, steps[0]), keep, steps[1..]);
    }
  }

  lemma StartRetains(keep: nat)
    ensures TableInv(STARTED) && Retains(STARTED, keep) && Bounded(STARTED, keep)
  {
  }

  /** In every interleaving, with saves and sweeps failing or not: if each room's working saves have increasing times, the
      table holds of each room the last of them, at least as many as are to be kept as far as there are so many. */
  lemma LastSavesStay(keep: nat, steps: seq<Step>, r: RoomId)
    requires TimesIncreasePerRoom(SavesOf(DoAll(STARTED, keep, steps).attempts))
    ensures
      var w := DoAll(STARTED, keep, steps);
      Lasts(OfRoom(w.rows, r), OfRoom(Inserted(SavesOf(w.attempts)), r), keep)
  {
    StartRetains(keep);
    RunRetains(STARTED, keep, steps);
  }

  /** Whatever the times and whatever saves fail: if no sweep fails, no room has more rows than are to be kept, but for one
      more in the room that is about to be swept. */
  lemma RowsAreBounded(keep: nat, steps: seq<Step>, r: RoomId)
    requires SweepsWork(steps)
    ensures
      var w := DoAll(STARTED, keep, steps);
      |OfRoom(w.rows, r)| <= keep + if w.worker.Sweeping? && w.worker.task.room == r then 1 else 0
  {
    StartRetains(keep);
    RunBounds(STARTED, keep, steps);
  }

  /** Together: with increasing times and working sweeps, the table holds of each room exactly its last working saves, as
      many as are to be kept. */
  lemma {:induction false} RetentionIsExact(keep: nat, steps: seq<Step>, r: RoomId)
    requires SweepsWork(steps) && TimesIncreasePerRoom(SavesOf(DoAll(STARTED, keep, steps).attempts))
    requires !DoAll(STARTED, keep, steps).worker.Sweeping?
    ensures
      var w := DoAll(STARTED, keep, steps);
      OfRoom(w.rows, r) == LastN(OfRoom(Inserted(SavesOf(w.attempts)), r), keep)
  {
    LastSavesStay(keep, steps, r);
    RowsAreBounded(keep, steps, r);
    var w := DoAll(STARTED, keep, steps);
    JustEnough(OfRoom(w.rows, r), OfRoom(Inserted(SavesOf(w.attempts)), r), keep);
  }

  lemma JustEnough(rows: seq<Row>, all: seq<Row>, keep: nat)
    requires Lasts(rows, all, keep) && |rows| <= keep
    ensures rows == LastN(all, keep)
  {
  }
}
