/** From the drawing clients to the table: what is loaded back for a room that everybody has left
    is its final board. */
module EndToEnd {
  import opened Types
  import opened Codec
  import opened Store
  import opened Writer
  import Shell
  import Durability

  lemma {:induction false} LastPushAt(pushed: seq<PersistedSnapshot>, r: RoomId) returns (k: nat)
    requires Durability.LastPush(pushed, r).Some?
    ensures k < |pushed| && pushed[k] == Durability.LastPush(pushed, r).value && pushed[k].room == r
    ensures forall j :: k < j < |pushed| ==> pushed[j].room != r
  {
    var n := |pushed| - 1;
    if pushed[n].room == r {
      k := n;
    } else {
      k := LastPushAt(pushed[..n], r);
      assert pushed == pushed[..n] + [pushed[n]];
    }
  }

  /** The room's last save worked, and was stamped later than the room's earlier ones. */
  ghost predicate LastSaveCounts(attempts: seq<Attempt>, r: RoomId) {
    forall k: nat :: IsLastOf(attempts, r, k) ==> StrictlyNewest(attempts, k)
  }

  lemma DrainedTried(keep: nat, steps: seq<Step>)
    requires DoAll(STARTED, keep, steps).pending == 0
    ensures DoAll(STARTED, keep, steps).Tried() == DoAll(STARTED, keep, steps).pushed
  {
    FlushDrains(keep, steps, []);
  }

  /** A drained writer's table answers a load with the last snapshot pushed for the room. */
  lemma LastPushLoaded(keep: nat, steps: seq<Step>, r: RoomId)
    requires keep > 0
    requires
      var w := DoAll(STARTED, keep, steps);
      w.pending == 0 && Durability.LastPush(w.pushed, r).Some? && LastSaveCounts(w.attempts, r)
    ensures
      var w := DoAll(STARTED, keep, steps);
      var p := Durability.LastPush(w.pushed, r).value;
      && (exists x :: IsLatest(w.rows, r, x))
      && forall x :: IsLatest(w.rows, r, x) ==> x == RowFor(p, x.id, x.savedAt) && x.room == r
  {
    var w := DoAll(STARTED, keep, steps);
    DrainedTried(keep, steps);
    var k := LastPushAt(w.pushed, r);
    assert forall j :: 0 <= j < |w.attempts| ==> w.Tried()[j] == w.attempts[j].task;
    assert IsLastOf(w.attempts, r, k);
    NewestIsLatest(keep, steps, r, k);
    var x := w.attempts[k].row;
    NoRivalsLatest(w.rows, r, x);
  }

  lemma NoRivalsLatest(rows: seq<Row>, r: RoomId, x: Row)
    requires x in rows && x.room == r
    ensures exists y :: IsLatest(rows, r, y)
  {
    var mine := OfRoom(rows, r);
    var y := SomeNewest(mine);
    assert IsLatest(rows, r, y);
  }

  lemma LoadedBack(p: PersistedSnapshot, x: Row)
    requires x == RowFor(p, x.id, x.savedAt)
    requires |p.strokes| < U32_SIZE && PointsFit(Raws(p.strokes))
    ensures LoadedRow(x) == Snapshot(Meta(x.id, p.room, x.savedAt, p.lastSeq), Raws(p.strokes))
  {
    SaveReadsBack(x.id, SaveCall(p.room, p.lastSeq, Raws(p.strokes), x.savedAt));
  }

  /** Loading the row gives these strokes of the room. */
  ghost predicate Restores(x: Row, r: RoomId, strokes: seq<Stroke>) {
    LoadedRow(x).Snapshot? && LoadedRow(x).strokes == Raws(strokes) && LoadedRow(x).meta.room == r
  }

  /** For a run of the handlers and one of the writer that was given what they pushed (Joint interleaves the two): a room was emptied, nobody came back, its
      leave handlers are done; the writer was given what the handlers pushed and has drained. If the room's last save
      worked and is stamped later than its earlier ones, and at least one row per room is kept, then whatever row
      `loadLatest` finds decodes to the room's final strokes. */
  lemma FinalBoardLoaded(ls: seq<Shell.Label>, r: RoomId, keep: nat, steps: seq<Step>)
    requires
      var s := Shell.After(Shell.START, ls);
      r in s.emptied && r !in s.refilled && Durability.Settled(s, r)
    requires keep > 0
    requires
      var w := DoAll(STARTED, keep, steps);
      w.pushed == Shell.After(Shell.START, ls).pushed && w.pending == 0 && LastSaveCounts(w.attempts, r)
    requires
      var s := Shell.After(Shell.START, ls);
      r in s.rooms && |Durability.Strokes(s, r)| < U32_SIZE && PointsFit(Raws(Durability.Strokes(s, r)))
    ensures
      var s := Shell.After(Shell.START, ls);
      var w := DoAll(STARTED, keep, steps);
      && (exists x :: IsLatest(w.rows, r, x))
      && forall x :: IsLatest(w.rows, r, x) ==> Restores(x, r, Durability.Strokes(s, r))
  {
    Durability.QuiescentDurability(ls, r);
    LastPushLoaded(keep, steps, r);
    var s := Shell.After(Shell.START, ls);
    var w := DoAll(STARTED, keep, steps);
    var p := Durability.LastPush(w.pushed, r).value;
    forall x | IsLatest(w.rows, r, x) ensures Restores(x, r, Durability.Strokes(s, r)) {
      LoadedBack(p, x);
    }
  }
}
