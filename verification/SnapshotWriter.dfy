/** The snapshot writer object. Each of its critical sections is a method proved to take one step of
    Writer; the worker's loop is run to its end for a writer that has been told to stop. */
module SnapshotWriters {
  import opened Types
  import opened Codec
  import opened Store
  import opened Writer

  /** What the surroundings decide while one task is processed: whether the save and the sweep fail, and the time. */
  datatype Weather = Weather(saveFails: bool, sweepFails: bool, now: int)

  lemma SweptIs(w: WriterState, task: PersistedSnapshot, keep: nat, ok: bool, rows: seq<Row>)
    requires QueueInv(w) && TableInv(w) && w.worker == Sweeping(task)
    requires if ok then Pruned(w.rows, task.room, keep, rows) else rows == w.rows
    ensures
      var w' := Do(w, keep, SweepTask(ok, rows));
      w' == w.(rows := rows, worker := Attempted) && QueueInv(w') && TableInv(w')
  {
    DoKeepsQueue(w, keep, SweepTask(ok, rows));
    DoKeepsTable(w, keep, SweepTask(ok, rows));
  }

  class SnapshotWriter {
    const store: SqliteSnapshotStore
    const keepLatest: nat
    var q: seq<PersistedSnapshot>
    var stop: bool
    var pending: int
    ghost var announced: multiset<PersistedSnapshot>
    ghost var worker: Worker
    ghost var pushed: seq<PersistedSnapshot>
    ghost var attempts: seq<Attempt>

    ghost function State(): WriterState
      reads this, store
    {
      WriterState(announced, q, pending, stop, worker, store.rows, store.nextId, pushed, attempts)
    }

    ghost predicate Valid()
      reads this, store
    {
      store.Valid() && QueueInv(State()) && TableInv(State())
    }

    constructor (store: SqliteSnapshotStore, keepLatest: nat)
      requires store.rows == [] && store.nextId == 1
      ensures Valid() && State() == STARTED && this.store == store && this.keepLatest == keepLatest
    {
      this.store, this.keepLatest := store, keepLatest;
      q, stop, pending := [], false, 0;
      announced, worker, pushed, attempts := multiset{}, Waiting, [], [];
      new;
      ReachableWriter(keepLatest, []);
    }

    /** The first half of `enqueue`: the snapshot counts as pending before it is on the queue. */
    method AnnounceSnapshot(p: PersistedSnapshot)
      modifies this`pending, this`announced
      ensures old(Valid()) ==> Valid()
      ensures State() == Do(old(State()), keepLatest, Announce(p))
    {
      KeepsQueue(State(), keepLatest, Announce(p));
      pending := pending + 1;
      announced := announced + multiset{p};
    }

    /** The second half of `enqueue`, under the queue's lock. */
    method PushSnapshot(p: PersistedSnapshot)
      requires p in announced
      modifies this`q, this`announced, this`pushed
      ensures old(Valid()) ==> Valid()
      ensures State() == Do(old(State()), keepLatest, Enter(p))
    {
      KeepsQueue(State(), keepLatest, Enter(p));
      q := q + [p];
      announced := announced - multiset{p};
      pushed := pushed + [p];
    }

    method Enqueue(p: PersistedSnapshot)
      modifies this`pending, this`announced, this`q, this`pushed
      ensures old(Valid()) ==> Valid()
      ensures State() == Do(Do(old(State()), keepLatest, Announce(p)), keepLatest, Enter(p))
      ensures pushed == old(pushed) + [p]
    {
      AnnounceSnapshot(p);
      PushSnapshot(p);
    }

    method StopWriter()
      requires Valid()
      modifies this`stop
      ensures Valid() && State() == Do(old(State()), keepLatest, RequestStop)
    {
      stop := true;
    }

    /** What the worker does once its wait is over. */
    method TakeTask() returns (task: Option<PersistedSnapshot>)
      requires Valid() && worker.Waiting? && (stop || q != [])
      modifies this`q, this`worker
      ensures Valid() && State() == Do(old(State()), keepLatest, Take)
      ensures task == if worker.Holding? then Some(worker.task) else None
    {
      DoKeepsQueue(State(), keepLatest, Take);
      if stop && q == [] {
        worker := Exited;
        return None;
      }
      task := Some(q[0]);
      worker := Holding(q[0]);
      q := q[1..];
    }

    /** The save, unless it fails. */
    method SaveRow(task: PersistedSnapshot, fails: bool, now: int)
      requires Valid() && worker == Holding(task)
      modifies this`worker, this`attempts, store
      ensures Valid() && State() == Do(old(State()), keepLatest, SaveTask(!fails, now))
    {
      DoKeepsQueue(State(), keepLatest, SaveTask(!fails, now));
      DoKeepsTable(State(), keepLatest, SaveTask(!fails, now));
      attempts := attempts + [Attempt(task, !fails, RowFor(task, store.nextId, now))];
      if fails {
        worker := Attempted;
        return;
      }
      worker := Sweeping(task);
      store.Save(task.room, task.lastSeq, Raws(task.strokes), now);
    }

    /** The sweep, unless it fails. */
    method SweepRoom(task: PersistedSnapshot, fails: bool)
      requires Valid() && worker == Sweeping(task)
      modifies this`worker, store
      ensures Valid() && State() == Do(old(State()), keepLatest, SweepTask(!fails, store.rows)) && worker.Attempted?
    {
      ghost var before := State();
      if !fails {
        store.PruneKeepLatest(task.room, keepLatest);
      }
      worker := Attempted;
      SweptIs(before, task, keepLatest, !fails, store.rows);
    }

    /** The guarded part of the loop body: whatever fails in it is swallowed, and a failed save is not followed by a sweep. */
    method TryTask(task: PersistedSnapshot, weather: Weather)
      requires Valid() && worker == Holding(task)
      modifies this`worker, this`attempts, store
      ensures Valid() && worker.Attempted?
      ensures
        var saved := Do(old(State()), keepLatest, SaveTask(!weather.saveFails, weather.now));
        State() == Do(saved, keepLatest, SweepTask(!weather.sweepFails, store.rows))
    {
      SaveRow(task, weather.saveFails, weather.now);
      if !weather.saveFails {
        SweepRoom(task, weather.sweepFails);
      }
    }

    method FinishTask()
      requires Valid() && worker.Attempted?
      modifies this`pending, this`worker
      ensures Valid() && State() == Do(old(State()), keepLatest, Finish)
    {
      DoKeepsQueue(State(), keepLatest, Finish);
      pending := pending - 1;
      worker := Waiting;
    }

    method ProcessTask(task: PersistedSnapshot, weather: Weather)
      requires Valid() && worker == Holding(task)
      modifies this`worker, this`attempts, this`pending, store
      ensures Valid() && worker.Waiting?
    {
      TryTask(task, weather);
      FinishTask();
    }

    /** Something the other threads do. */
    method LetHappen(h: Happening)
      requires Valid()
      modifies this`pending, this`announced, this`q, this`pushed, this`stop
      ensures Valid() && pushed == old(pushed) + Pushes([h])
      ensures State().worker == old(State()).worker && (old(stop) ==> stop)
    {
      assert [h][..0] == [];
      match h
      case Enqueued(p) => Enqueue(p);
      case StopRequested => StopWriter();
    }

    /** The worker's loop. While the worker waits, and before it goes on wherever `more` says so, the other threads do the
        next thing on the script. The loop ends only by a stop request, or is left waiting for ever when the script is over;
        either way everything pushed by then has been attempted, in push order. */
    method Run(script: seq<Happening>, more: nat -> bool, weather: nat -> Weather) returns (n: nat)
      requires Valid() && worker.Waiting?
      modifies this`q, this`worker, this`attempts, this`pending, this`announced, this`pushed, this`stop, store
      ensures Valid() && q == [] && n <= |script|
      ensures pushed == old(pushed) + Pushes(script[..n])
      ensures if worker.Exited? then stop else worker.Waiting? && !stop && n == |script|
      ensures State().Tried() == pushed && pending == |announced|
    {
      n := 0;
      var round: nat := 0;
      assert script[..0] == [];
      while true
        invariant Valid() && worker.Waiting? && n <= |script|
        invariant pushed == old(pushed) + Pushes(script[..n])
        decreases |script| - n, |q|
      {
        if n < |script| && (more(round) || !(stop || q != [])) {
          LetHappen(script[n]);
          PushesMore(script, n);
          n := n + 1;
        } else if !stop && q == [] {
          break;
        } else {
          var task := TakeTask();
          if task.None? {
            break;
          }
          ProcessTask(task.value, weather(round));
        }
        round := round + 1;
      }
      IdleIsDrained(State());
    }
  }

  /** What the other threads can do to the writer. */
  datatype Happening = Enqueued(p: PersistedSnapshot) | StopRequested

  function Pushes(script: seq<Happening>): seq<PersistedSnapshot> {
    if script == [] then []
    else
      var n := |script| - 1;
      Pushes(script[..n]) + if script[n].Enqueued? then [script[n].p] else []
  }

  lemma PushesMore(script: seq<Happening>, n: nat)
    requires n < |script|
    ensures Pushes(script[..n + 1]) == Pushes(script[..n]) + Pushes([script[n]])
  {
    assert script[..n + 1][..n] == script[..n] && [script[n]][..0] == [];
  }

  lemma KeepsQueue(w: WriterState, keep: nat, step: Step)
    ensures QueueInv(w) ==> QueueInv(Do(w, keep, step))
  {
    if QueueInv(w) {
      DoKeepsQueue(w, keep, step);
    }
  }

  lemma IdleIsDrained(w: WriterState)
    requires QueueInv(w) && w.queue == [] && (w.worker.Waiting? || w.worker.Exited?)
    ensures w.Tried() == w.pushed && w.pending == |w.announced|
  {
    assert w.Tried() + ([] + []) == w.Tried();
  }
}
