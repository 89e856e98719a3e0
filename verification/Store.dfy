/** The snapshot table: what a save, a load of the latest row and a retention sweep do to it.
    The sweep and the load order rows by their timestamps only, so among equal timestamps the
    engine may pick any; whatever is proved here holds of every such choice. */
module Store {
  import opened Types
  import opened Codec
  import opened CodecIO

  datatype Row = Row(id: nat, room: RoomId, savedAt: int, lastSeq: Seq, data: seq<Byte>)

  /** The rows a WHERE clause selects, in table order. */
  function Where(rows: seq<Row>, p: Row -> bool): (r: seq<Row>)
    ensures forall x :: x in r <==> x in rows && p(x)
  {
    if rows == [] then []
    else
      var last := rows[|rows| - 1];
      Where(rows[..|rows| - 1], p) + if p(last) then [last] else []
  }

  lemma WhereAppend(rows: seq<Row>, x: Row, p: Row -> bool)
    ensures Where(rows + [x], p) == Where(rows, p) + if p(x) then [x] else []
  {
    assert (rows + [x])[..|rows + [x]| - 1] == rows;
  }

  lemma {:induction false} WhereSame(rows: seq<Row>, p: Row -> bool, q: Row -> bool)
    requires forall x :: x in rows ==> p(x) == q(x)
    ensures Where(rows, p) == Where(rows, q)
  {
    if rows != [] {
      assert rows[|rows| - 1] in rows;
      WhereSame(rows[..|rows| - 1], p, q);
    }
  }

  lemma {:induction false} WhereWhere(rows: seq<Row>, p: Row -> bool, q: Row -> bool)
    ensures Where(Where(rows, p), q) == Where(rows, (x: Row) => p(x) && q(x))
  {
    if rows != [] {
      var last := rows[|rows| - 1];
      WhereWhere(rows[..|rows| - 1], p, q);
      if p(last) {
        WhereAppend(Where(rows[..|rows| - 1], p), last, q);
      } else {
        assert Where(rows[..|rows| - 1], p) + [] == Where(rows[..|rows| - 1], p);
      }
    }
  }

  function OfRoom(rows: seq<Row>, room: RoomId): (r: seq<Row>)
    ensures forall x :: x in r <==> x in rows && x.room == room
  {
    Where(rows, (x: Row) => x.room == room)
  }

  function Survivors(rows: seq<Row>, room: RoomId, kept: set<nat>): (r: seq<Row>)
    ensures forall x :: x in r <==> x in rows && (x.room != room || x.id in kept)
  {
    Where(rows, (x: Row) => x.room != room || x.id in kept)
  }

  function Ids(rows: seq<Row>): set<nat> {
    set x | x in rows :: x.id
  }

  ghost predicate IdsIncrease(rows: seq<Row>) {
    forall i, j :: 0 <= i < j < |rows| ==> rows[i].id < rows[j].id
  }

  predicate Min(n: nat, a: nat, b: nat) {
    n == if a <= b then a else b
  }

  /** What `SELECT id ... WHERE room_id=? ORDER BY saved_at_ms DESC LIMIT keep` may answer. */
  ghost predicate LatestIds(rows: seq<Row>, room: RoomId, keep: nat, kept: set<nat>) {
    && kept <= Ids(OfRoom(rows, room))
    && Min(|kept|, keep, |OfRoom(rows, room)|)
    && NoneOlder(OfRoom(rows, room), kept)
  }

  ghost predicate NoneOlder(rows: seq<Row>, kept: set<nat>) {
    forall x, y :: x in rows && y in rows && x.id in kept && y.id !in kept ==> x.savedAt >= y.savedAt
  }

  /** What a retention sweep may leave. */
  ghost predicate Pruned(rows: seq<Row>, room: RoomId, keep: nat, rows': seq<Row>) {
    if keep == 0 then rows' == Survivors(rows, room, {})
    else exists kept :: LatestIds(rows, room, keep, kept) && rows' == Survivors(rows, room, kept)
  }

  /** What `loadLatest` may find. */
  ghost predicate IsLatest(rows: seq<Row>, room: RoomId, row: Row) {
    row in rows && row.room == room && forall x :: x in rows && x.room == room ==> x.savedAt <= row.savedAt
  }

  // ----- Distinct ids -----

  lemma {:induction false} IdsCount(rows: seq<Row>)
    requires IdsIncrease(rows)
    ensures |Ids(rows)| == |rows|
  {
    if rows != [] {
      var n := |rows| - 1;
      IdsCount(rows[..n]);
      assert rows == rows[..n] + [rows[n]];
      assert Ids(rows) == Ids(rows[..n]) + {rows[n].id};
      assert rows[n].id !in Ids(rows[..n]);
    }
  }

  lemma {:induction false} WhereIncreases(rows: seq<Row>, p: Row -> bool)
    requires IdsIncrease(rows)
    ensures IdsIncrease(Where(rows, p))
  {
    if rows != [] {
      var n := |rows| - 1;
      WhereIncreases(rows[..n], p);
      forall x | x in Where(rows[..n], p) ensures x.id < rows[n].id {
        assert x in rows[..n];
      }
    }
  }

  lemma SameRow(rows: seq<Row>, x: Row, y: Row)
    requires IdsIncrease(rows) && x in rows && y in rows && x.id == y.id
    ensures x == y
  {
  }

  // ----- What every sweep does -----

  /** Another room's rows are not touched; this room's are filtered. */
  lemma SurvivorsOf(rows: seq<Row>, room: RoomId, kept: set<nat>, r: RoomId)
    ensures OfRoom(Survivors(rows, room, kept), r) ==
            if r == room then Where(OfRoom(rows, room), (x: Row) => x.id in kept) else OfRoom(rows, r)
  {
    var inRoom := (x: Row) => x.room == r;
    var survives := (x: Row) => x.room != room || x.id in kept;
    WhereWhere(rows, survives, inRoom);
    if r == room {
      var isKept := (x: Row) => x.id in kept;
      WhereWhere(rows, inRoom, isKept);
      WhereSame(rows, (x: Row) => survives(x) && inRoom(x), (x: Row) => inRoom(x) && isKept(x));
    } else {
      WhereSame(rows, (x: Row) => survives(x) && inRoom(x), inRoom);
    }
  }

  lemma KeptCount(rows: seq<Row>, kept: set<nat>)
    requires IdsIncrease(rows) && kept <= Ids(rows)
    ensures |Where(rows, (x: Row) => x.id in kept)| == |kept|
  {
    var isKept := (x: Row) => x.id in kept;
    WhereIncreases(rows, isKept);
    IdsCount(Where(rows, isKept));
    assert Ids(Where(rows, isKept)) == kept;
  }

  /** With any timestamps at all, a sweep leaves `min(count, keep)` of the room's rows, drops none that is
      newer than one it keeps, and leaves the other rooms' rows alone. */
  lemma SweepBounds(rows: seq<Row>, room: RoomId, keep: nat, rows': seq<Row>)
    requires IdsIncrease(rows) && Pruned(rows, room, keep, rows')
    ensures IdsIncrease(rows')
    ensures Min(|OfRoom(rows', room)|, keep, |OfRoom(rows, room)|)
    ensures forall x, y :: x in OfRoom(rows', room) && y in OfRoom(rows, room) && y !in rows' ==> x.savedAt >= y.savedAt
    ensures forall x :: x in rows' ==> x in rows
    ensures forall r :: r != room ==> OfRoom(rows', r) == OfRoom(rows, r)
  {
    var kept := SweptChoice(rows, room, keep, rows');
    WhereIncreases(rows, (x: Row) => x.room == room);
    WhereIncreases(rows, (x: Row) => x.room != room || x.id in kept);
    KeptCount(OfRoom(rows, room), kept);
    forall r ensures OfRoom(rows', r) == if r == room then Where(OfRoom(rows, room), (x: Row) => x.id in kept) else OfRoom(rows, r) {
      SurvivorsOf(rows, room, kept, r);
    }
  }

  // ----- Strictly increasing timestamps: a sliding window -----

  ghost predicate TimesIncrease(rows: seq<Row>) {
    forall i, j :: 0 <= i < j < |rows| ==> rows[i].savedAt < rows[j].savedAt
  }

  function LastN<T>(xs: seq<T>, n: nat): seq<T> {
    if |xs| <= n then xs else xs[|xs| - n..]
  }

  lemma IdsTail(rows: seq<Row>, kept: set<nat>)
    requires rows != [] && kept <= Ids(rows) && rows[0].id !in kept
    ensures kept <= Ids(rows[1..])
  {
    forall id | id in kept ensures id in Ids(rows[1..]) {
      var i :| 0 <= i < |rows| && rows[i].id == id;
      assert rows[1..][i - 1] == rows[i];
    }
  }

  lemma AllKept(rows: seq<Row>, kept: set<nat>)
    requires IdsIncrease(rows) && kept <= Ids(rows) && forall x :: x in rows ==> x.id in kept
    ensures |kept| == |rows|
  {
    IdsCount(rows);
    assert kept == Ids(rows);
  }

  lemma FirstKept(rows: seq<Row>, kept: set<nat>, y: Row)
    requires TimesIncrease(rows) && NoneOlder(rows, kept) && rows != [] && rows[0].id in kept && y in rows
    ensures y.id in kept
  {
    var i :| 0 <= i < |rows| && rows[i] == y;
    if i > 0 {
      assert rows[0].savedAt < rows[i].savedAt;
    }
  }

  lemma TailChoice(rows: seq<Row>, kept: set<nat>)
    requires NoneOlder(rows, kept) && rows != []
    ensures NoneOlder(rows[1..], kept)
  {
    forall x, y | x in rows[1..] && y in rows[1..] && x.id in kept && y.id !in kept ensures x.savedAt >= y.savedAt {
      assert x in rows && y in rows;
    }
  }

  lemma ShiftLast(rows: seq<Row>, kept: set<nat>)
    requires rows != [] && rows[0].id !in kept && |kept| < |rows|
    requires forall i :: 0 <= i < |rows[1..]| ==> (rows[1..][i].id in kept <==> i >= |rows[1..]| - |kept|)
    ensures forall i :: 0 <= i < |rows| ==> (rows[i].id in kept <==> i >= |rows| - |kept|)
  {
    forall i | 0 <= i < |rows| ensures rows[i].id in kept <==> i >= |rows| - |kept| {
      if i > 0 {
        assert rows[i] == rows[1..][i - 1];
      }
    }
  }

  /** Among rows in strictly increasing time, a choice of the newest is a choice of the last. */
  lemma {:induction false} NewestAreLast(rows: seq<Row>, kept: set<nat>)
    requires IdsIncrease(rows) && TimesIncrease(rows)
    requires kept <= Ids(rows) && NoneOlder(rows, kept)
    ensures |kept| <= |rows|
    ensures forall i :: 0 <= i < |rows| ==> (rows[i].id in kept <==> i >= |rows| - |kept|)
    decreases |rows|
  {
    if rows == [] {
      assert kept == {};
    } else if rows[0].id in kept {
      forall y | y in rows ensures y.id in kept {
        FirstKept(rows, kept, y);
      }
      AllKept(rows, kept);
    } else {
      var tail := rows[1..];
      IdsTail(rows, kept);
      TailChoice(rows, kept);
      NewestAreLast(tail, kept);
      ShiftLast(rows, kept);
    }
  }

  lemma {:induction false} WhereNone(rows: seq<Row>, p: Row -> bool)
    requires forall x :: x in rows ==> !p(x)
    ensures Where(rows, p) == []
  {
    if rows != [] {
      assert rows[|rows| - 1] in rows;
      WhereNone(rows[..|rows| - 1], p);
    }
  }

  lemma {:induction false} WhereSuffix(rows: seq<Row>, m: nat, p: Row -> bool)
    requires m <= |rows| && forall i :: 0 <= i < |rows| ==> (p(rows[i]) <==> i >= m)
    ensures Where(rows, p) == rows[m..]
    decreases |rows|
  {
    if m == |rows| {
      WhereNone(rows, p);
    } else {
      var n := |rows| - 1;
      WhereSuffix(rows[..n], m, p);
      SuffixEnds(rows, m, n);
      assert p(rows[n]);
    }
  }

  lemma SuffixEnds(rows: seq<Row>, m: nat, n: nat)
    requires m <= n && |rows| == n + 1
    ensures rows[m..] == rows[..n][m..] + [rows[n]]
  {
  }

  lemma SweptChoice(rows: seq<Row>, room: RoomId, keep: nat, rows': seq<Row>) returns (kept: set<nat>)
    requires Pruned(rows, room, keep, rows')
    ensures LatestIds(rows, room, keep, kept) && rows' == Survivors(rows, room, kept)
  {
    kept := {};
    if keep > 0 {
      kept :| LatestIds(rows, room, keep, kept) && rows' == Survivors(rows, room, kept);
    }
  }

  lemma {:induction false} LastByIds(mine: seq<Row>, kept: set<nat>, keep: nat, isKept: Row -> bool)
    requires forall x: Row :: isKept(x) <==> x.id in kept
    requires IdsIncrease(mine) && TimesIncrease(mine) && kept <= Ids(mine) && NoneOlder(mine, kept)
    requires Min(|kept|, keep, |mine|)
    ensures Where(mine, isKept) == LastN(mine, keep)
  {
    NewestAreLast(mine, kept);
    WhereSuffix(mine, |mine| - |kept|, isKept);
  }

  /** Of rows with strictly increasing timestamps a sweep leaves the last `keep`. */
  lemma SweepKeepsLast(rows: seq<Row>, room: RoomId, keep: nat, rows': seq<Row>)
    requires IdsIncrease(rows) && TimesIncrease(OfRoom(rows, room)) && Pruned(rows, room, keep, rows')
    ensures OfRoom(rows', room) == LastN(OfRoom(rows, room), keep)
  {
    WhereIncreases(rows, (x: Row) => x.room == room);
    var kept := SweptChoice(rows, room, keep, rows');
    SurvivorsOf(rows, room, kept, room);
    LastByIds(OfRoom(rows, room), kept, keep, (x: Row) => x.id in kept);
  }

  datatype SaveCall = SaveCall(room: RoomId, lastSeq: Seq, strokes: seq<RawStroke>, at: int)

  function RowOf(id: nat, s: SaveCall): Row {
    Row(id, s.room, s.at, s.lastSeq, Encode(s.strokes))
  }

  /** Every row ever inserted. */
  function Inserted(saves: seq<SaveCall>): (rows: seq<Row>)
    ensures |rows| == |saves|
    ensures forall i :: 0 <= i < |rows| ==> rows[i] == RowOf(i + 1, saves[i])
  {
    seq(|saves|, i requires 0 <= i < |saves| => RowOf(i + 1, saves[i]))
  }

  /** `rows` may be the table after these saves, each followed by a sweep of its room. */
  ghost predicate Leaves(saves: seq<SaveCall>, keep: nat, rows: seq<Row>)
    decreases |saves|
  {
    if saves == [] then rows == []
    else
      var n := |saves| - 1;
      exists before :: Leaves(saves[..n], keep, before) && Pruned(before + [RowOf(n + 1, saves[n])], saves[n].room, keep, rows)
  }

  ghost predicate TimesIncreasePerRoom(saves: seq<SaveCall>) {
    forall i, j :: 0 <= i < j < |saves| && saves[i].room == saves[j].room ==> saves[i].at < saves[j].at
  }

  lemma InsertedAppend(saves: seq<SaveCall>, n: nat)
    requires |saves| == n + 1
    ensures Inserted(saves) == Inserted(saves[..n]) + [RowOf(n + 1, saves[n])]
  {
  }

  lemma AllOlder(rows: seq<Row>, n: nat, room: RoomId)
    requires n < |rows| && forall i :: 0 <= i < n && rows[i].room == room ==> rows[i].savedAt < rows[n].savedAt
    ensures forall x :: x in OfRoom(rows[..n], room) ==> x.savedAt < rows[n].savedAt
  {
    forall x | x in OfRoom(rows[..n], room) ensures x.savedAt < rows[n].savedAt {
      assert x in rows[..n] && x.room == room;
    }
  }

  lemma {:induction false} WhereTimes(rows: seq<Row>, room: RoomId)
    requires forall i, j :: 0 <= i < j < |rows| && rows[i].room == rows[j].room == room ==> rows[i].savedAt < rows[j].savedAt
    ensures TimesIncrease(OfRoom(rows, room))
  {
    if rows != [] {
      var n := |rows| - 1;
      WhereTimes(rows[..n], room);
      if rows[n].room == room {
        AllOlder(rows, n, room);
      }
    }
  }

  lemma LastNAppend<T>(xs: seq<T>, x: T, n: nat)
    ensures LastN(LastN(xs, n) + [x], n) == LastN(xs + [x], n)
  {
  }

  /** The table after one more save, before its sweep, from what it was before. */
  lemma WindowBeforeSweep(saves: seq<SaveCall>, n: nat, x: Row, keep: nat, before: seq<Row>, r: RoomId)
    requires |saves| == n + 1 && x == RowOf(n + 1, saves[n])
    requires OfRoom(before, r) == LastN(OfRoom(Inserted(saves[..n]), r), keep)
    ensures LastN(OfRoom(before + [x], r), keep) == LastN(OfRoom(Inserted(saves), r), keep)
    ensures x.room != r ==> OfRoom(before + [x], r) == OfRoom(before, r)
  {
    var all := OfRoom(Inserted(saves[..n]), r);
    InsertedAppend(saves, n);
    WhereAppend(Inserted(saves[..n]), x, (y: Row) => y.room == r);
    WhereAppend(before, x, (y: Row) => y.room == r);
    if x.room == r {
      LastNAppend(all, x, keep);
    } else {
      assert OfRoom(before, r) + [] == OfRoom(before, r) && all + [] == all;
      LastNTwice(all, keep);
    }
  }

  lemma LastNTwice<T>(xs: seq<T>, n: nat)
    ensures LastN(LastN(xs, n), n) == LastN(xs, n)
  {
  }

  lemma LastNTimes(xs: seq<Row>, x: Row, n: nat)
    requires TimesIncrease(xs + [x])
    ensures TimesIncrease(LastN(xs, n) + [x])
  {
    var k := if |xs| <= n then 0 else |xs| - n;
    forall i | 0 <= i < |LastN(xs, n) + [x]| ensures (LastN(xs, n) + [x])[i] == (xs + [x])[k + i] {
    }
  }

  lemma InsertedTimes(saves: seq<SaveCall>, room: RoomId)
    requires TimesIncreasePerRoom(saves)
    ensures TimesIncrease(OfRoom(Inserted(saves), room))
  {
    WhereTimes(Inserted(saves), room);
  }

  lemma TimesBeforeSweep(saves: seq<SaveCall>, n: nat, x: Row, all: seq<Row>)
    requires |saves| == n + 1 && x == RowOf(n + 1, saves[n]) && TimesIncreasePerRoom(saves)
    requires all == OfRoom(Inserted(saves[..n]), x.room)
    ensures TimesIncrease(all + [x])
  {
    InsertedAppend(saves, n);
    WhereAppend(Inserted(saves[..n]), x, (y: Row) => y.room == x.room);
    InsertedTimes(saves, x.room);
  }

  lemma WindowAfterSweep(saves: seq<SaveCall>, n: nat, x: Row, keep: nat, before: seq<Row>, rows: seq<Row>, r: RoomId)
    requires |saves| == n + 1 && x == RowOf(n + 1, saves[n]) && TimesIncreasePerRoom(saves)
    requires OfRoom(before, r) == LastN(OfRoom(Inserted(saves[..n]), r), keep)
    requires IdsIncrease(before + [x]) && Pruned(before + [x], x.room, keep, rows)
    ensures OfRoom(rows, r) == LastN(OfRoom(Inserted(saves), r), keep)
  {
    WindowBeforeSweep(saves, n, x, keep, before, r);
    if r == x.room {
      var all := OfRoom(Inserted(saves[..n]), r);
      TimesBeforeSweep(saves, n, x, all);
      LastNTimes(all, x, keep);
      WhereAppend(before, x, (y: Row) => y.room == r);
      SweepKeepsLast(before + [x], r, keep, rows);
    } else {
      SweepBounds(before + [x], x.room, keep, rows);
    }
  }

  /** From an empty table, with timestamps that increase from save to save of a room, a table swept after
      every save holds exactly the room's last `min(n, keep)` saves, in order. */
  lemma {:induction false} SlidingWindow(saves: seq<SaveCall>, keep: nat, rows: seq<Row>)
    requires Leaves(saves, keep, rows) && TimesIncreasePerRoom(saves)
    ensures IdsIncrease(rows) && (forall x :: x in rows ==> x.id <= |saves|)
    ensures forall r :: OfRoom(rows, r) == LastN(OfRoom(Inserted(saves), r), keep)
    decreases |saves|
  {
    if saves == [] {
    } else {
      var n := |saves| - 1;
      var x := RowOf(n + 1, saves[n]);
      var before :| Leaves(saves[..n], keep, before) && Pruned(before + [x], x.room, keep, rows);
      SlidingWindow(saves[..n], keep, before);
      AppendIncreases(before, x);
      SweepBounds(before + [x], x.room, keep, rows);
      forall r ensures OfRoom(rows, r) == LastN(OfRoom(Inserted(saves), r), keep) {
        WindowAfterSweep(saves, n, x, keep, before, rows, r);
      }
    }
  }

  lemma AppendIncreases(rows: seq<Row>, x: Row)
    requires IdsIncrease(rows) && forall y :: y in rows ==> y.id < x.id
    ensures IdsIncrease(rows + [x])
  {
  }

  // ----- Any timestamps: exactly when the newest row is safe -----

  /** The other rows of its room that are as new as `x` or newer. */
  function Rivals(rows: seq<Row>, x: Row): set<nat> {
    set y | y in rows && y.room == x.room && y.id != x.id && y.savedAt >= x.savedAt :: y.id
  }

  lemma {:induction false} SomeNewest(rows: seq<Row>) returns (x: Row)
    requires rows != []
    ensures x in rows && forall y :: y in rows ==> y.savedAt <= x.savedAt
  {
    var n := |rows| - 1;
    x := rows[n];
    if n > 0 {
      var z := SomeNewest(rows[..n]);
      assert rows == rows[..n] + [rows[n]];
      if z.savedAt > x.savedAt {
        x := z;
      }
    }
  }

  lemma SubsetCount(a: set<nat>, b: set<nat>)
    requires a <= b
    ensures |a| <= |b|
  {
    if a != b {
      assert b == a + (b - a);
    }
  }

  lemma AllAmong(rows: seq<Row>, ids: set<nat>)
    requires IdsIncrease(rows) && forall x :: x in rows ==> x.id in ids
    ensures |rows| <= |ids|
  {
    IdsCount(rows);
    SubsetCount(Ids(rows), ids);
  }

  lemma NextNewest(rows: seq<Row>, kept: set<nat>, rest: seq<Row>, x: Row)
    requires IdsIncrease(rows) && NoneOlder(rows, kept)
    requires forall y :: y in rest <==> y in rows && y.id !in kept
    requires x in rest && forall y :: y in rest ==> y.savedAt <= x.savedAt
    ensures NoneOlder(rows, kept + {x.id})
  {
    forall a, b | a in rows && b in rows && a.id in kept + {x.id} && b.id !in kept + {x.id} ensures a.savedAt >= b.savedAt {
      assert b in rest;
      if a.id == x.id {
        SameRow(rows, a, x);
      }
    }
  }

  /** There always is a choice of the newest `k`. */
  lemma {:induction false} SomeLatest(rows: seq<Row>, k: nat) returns (kept: set<nat>)
    requires IdsIncrease(rows) && k <= |rows|
    ensures kept <= Ids(rows) && |kept| == k && NoneOlder(rows, kept)
    decreases k
  {
    if k == 0 {
      kept := {};
    } else {
      var fewer := SomeLatest(rows, k - 1);
      var rest := Where(rows, (x: Row) => x.id !in fewer);
      if rest == [] {
        AllAmong(rows, fewer);
      }
      var x := SomeNewest(rest);
      NextNewest(rows, fewer, rest, x);
      kept := fewer + {x.id};
    }
  }

  /** The room's rows other than `x`. */
  function Others(rows: seq<Row>, x: Row): (r: seq<Row>)
    ensures forall y :: y in r <==> y in rows && y.room == x.room && y.id != x.id
  {
    Where(rows, (y: Row) => y.room == x.room && y.id != x.id)
  }

  lemma OthersCount(rows: seq<Row>, x: Row)
    requires IdsIncrease(rows) && x in rows
    ensures IdsIncrease(Others(rows, x)) && |Rivals(rows, x)| <= |Others(rows, x)| < |OfRoom(rows, x.room)|
  {
    var mine, others := OfRoom(rows, x.room), Others(rows, x);
    WhereIncreases(rows, (y: Row) => y.room == x.room);
    WhereIncreases(rows, (y: Row) => y.room == x.room && y.id != x.id);
    IdsCount(others);
    SubsetCount(Rivals(rows, x), Ids(others));
    AllAmong(mine, Ids(others) + {x.id});
    assert x.id !in Ids(others);
    IdsCount(mine);
    SubsetCount(Ids(others) + {x.id}, Ids(mine));
  }

  /** The newest `keep` of the others are all as new as `x`, when enough rows rival it. */
  lemma ChosenAreRivals(rows: seq<Row>, x: Row, kept: set<nat>, a: Row)
    requires IdsIncrease(rows) && x in rows && |Rivals(rows, x)| >= |kept|
    requires NoneOlder(Others(rows, x), kept)
    requires a in Others(rows, x) && a.id in kept
    ensures a.savedAt >= x.savedAt
  {
    if a.savedAt < x.savedAt {
      var rivals := Rivals(rows, x);
      forall id | id in rivals ensures id in kept {
        var y :| y in rows && y.room == x.room && y.id != x.id && y.savedAt >= x.savedAt && y.id == id;
        assert y in Others(rows, x);
      }
      forall id | id in rivals ensures id != a.id {
        var y :| y in rows && y.room == x.room && y.id != x.id && y.savedAt >= x.savedAt && y.id == id;
        if id == a.id {
          SameRow(rows, y, a);
        }
      }
      SubsetCount(rivals + {a.id}, kept);
    }
  }

  /** Some sweep drops `x`, when enough rows rival it. */
  lemma RivalsCanWin(rows: seq<Row>, x: Row, keep: nat) returns (kept: set<nat>)
    requires IdsIncrease(rows) && x in rows && |Rivals(rows, x)| >= keep
    ensures LatestIds(rows, x.room, keep, kept) && x.id !in kept && |kept| == keep
  {
    var mine, others := OfRoom(rows, x.room), Others(rows, x);
    OthersCount(rows, x);
    kept := SomeLatest(others, keep);
    forall a, b | a in mine && b in mine && a.id in kept && b.id !in kept ensures a.savedAt >= b.savedAt {
      assert a in others;
      if b.id == x.id {
        SameRow(rows, b, x);
        ChosenAreRivals(rows, x, kept, a);
      } else {
        assert b in others;
      }
    }
  }

  /** A sweep that drops a row kept `keep` rivals. */
  lemma DroppedHasRivals(rows: seq<Row>, x: Row, keep: nat, kept: set<nat>)
    requires IdsIncrease(rows) && x in rows && LatestIds(rows, x.room, keep, kept) && x.id !in kept
    ensures |Rivals(rows, x)| >= keep
  {
    var mine := OfRoom(rows, x.room);
    forall id | id in kept ensures id in Rivals(rows, x) {
      var y :| y in mine && y.id == id;
      assert x in mine && y.savedAt >= x.savedAt;
    }
    SubsetCount(kept, Rivals(rows, x));
    OthersCount(rows, x);
    if |kept| == |mine| {
      OthersHaveAll(rows, x, kept);
    }
  }

  lemma OthersHaveAll(rows: seq<Row>, x: Row, kept: set<nat>)
    requires IdsIncrease(rows) && x in rows && kept <= Ids(OfRoom(rows, x.room)) && x.id !in kept
    ensures |kept| < |OfRoom(rows, x.room)|
  {
    var others := Others(rows, x);
    OthersCount(rows, x);
    IdsCount(others);
    forall id | id in kept ensures id in Ids(others) {
      var y :| y in OfRoom(rows, x.room) && y.id == id;
      assert y in others;
    }
    SubsetCount(kept, Ids(others));
  }

  /** A row is safe from a sweep exactly when fewer than `keep` other rows of its room are as new. */
  lemma SafeIff(rows: seq<Row>, x: Row, keep: nat)
    requires IdsIncrease(rows) && x in rows
    ensures (forall rows' :: Pruned(rows, x.room, keep, rows') ==> x in rows') <==> |Rivals(rows, x)| < keep
  {
    if |Rivals(rows, x)| < keep {
      forall rows' | Pruned(rows, x.room, keep, rows') ensures x in rows' {
        var kept :| LatestIds(rows, x.room, keep, kept) && rows' == Survivors(rows, x.room, kept);
        if x.id !in kept {
          DroppedHasRivals(rows, x, keep, kept);
        }
      }
    } else {
      var kept := RivalsCanWin(rows, x, keep);
      assert keep == 0 ==> kept == {};
      assert Pruned(rows, x.room, keep, Survivors(rows, x.room, kept));
    }
  }

  lemma LatestIsRival(rows: seq<Row>, x: Row, y: Row)
    requires IdsIncrease(rows) && x in rows && IsLatest(rows, x.room, y) && y != x
    ensures y.id in Rivals(rows, x)
  {
    if y.id == x.id {
      SameRow(rows, x, y);
    }
  }

  /** Loading the latest row must give `x` exactly when every other row of its room is strictly older. */
  lemma LatestIff(rows: seq<Row>, x: Row)
    requires IdsIncrease(rows) && x in rows
    ensures (forall y :: IsLatest(rows, x.room, y) ==> y == x) <==> Rivals(rows, x) == {}
  {
    if Rivals(rows, x) == {} {
      forall y | IsLatest(rows, x.room, y) ensures y == x {
        if y != x {
          LatestIsRival(rows, x, y);
        }
      }
    } else {
      var mine := OfRoom(rows, x.room);
      var others := Others(rows, x);
      var id :| id in Rivals(rows, x);
      var z :| z in rows && z.room == x.room && z.id != x.id && z.savedAt >= x.savedAt && z.id == id;
      assert z in others;
      var y := SomeNewest(others);
      forall w | w in rows && w.room == x.room ensures w.savedAt <= y.savedAt {
        if w.id == x.id {
          SameRow(rows, w, x);
        } else {
          assert w in others;
        }
      }
      assert IsLatest(rows, x.room, y);
    }
  }

  // ----- Two saves in one millisecond -----

  lemma LeavesMore(saves: seq<SaveCall>, b: SaveCall, keep: nat, before: seq<Row>, rows: seq<Row>)
    requires Leaves(saves, keep, before) && Pruned(before + [RowOf(|saves| + 1, b)], b.room, keep, rows)
    ensures Leaves(saves + [b], keep, rows)
  {
    assert (saves + [b])[..|saves|] == saves;
  }

  lemma LeavesFirst(saves: seq<SaveCall>, keep: nat, none: seq<Row>, x: Row)
    requires |saves| == 1 && none == [] && x == RowOf(1, saves[0]) && Pruned([x], x.room, keep, [x])
    ensures Leaves(saves, keep, [x])
  {
    assert none + [x] == [x];
    assert Leaves(saves[..0], keep, none);
  }

  lemma LeavesTwo(a: SaveCall, b: SaveCall, keep: nat, x: Row, y: Row, rows: seq<Row>)
    requires x == RowOf(1, a) && y == RowOf(2, b)
    requires Pruned([x], a.room, keep, [x]) && Pruned([x] + [y], b.room, keep, rows)
    ensures Leaves([a] + [b], keep, rows)
  {
    LeavesFirst([a], keep, [], x);
    LeavesMore([a], b, keep, [x], rows);
  }

  lemma OlderOfTwoKept(x: Row, y: Row)
    requires x.room == y.room && x.savedAt == y.savedAt && x.id < y.id
    ensures Pruned([x] + [y], x.room, 1, [x])
  {
    FirstSurvives(x, y, {x.id});
    FirstMayBeKept([x] + [y], x, {x.id});
  }

  lemma FirstSurvives(x: Row, y: Row, kept: set<nat>)
    requires x.room == y.room && x.id in kept && y.id !in kept
    ensures Survivors([x] + [y], x.room, kept) == [x]
  {
    var survives := (z: Row) => z.room != x.room || z.id in kept;
    WhereAppend([x], y, survives);
    WhereAll([x], survives);
  }

  lemma FirstMayBeKept(rows: seq<Row>, x: Row, kept: set<nat>)
    requires x in rows && kept == {x.id} && forall z :: z in rows ==> z.room == x.room && z.savedAt == x.savedAt
    ensures LatestIds(rows, x.room, 1, kept)
  {
    WhereAll(rows, (z: Row) => z.room == x.room);
    assert |kept| == 1 && rows != [];
  }

  lemma OneRival(x: Row, y: Row)
    requires x.room == y.room && x.savedAt == y.savedAt && x.id != y.id
    ensures Rivals([x] + [y], y) == {x.id}
  {
    assert x in [x] + [y];
  }

  /** Two saves of a room with one timestamp, one row kept: the newer save has a rival, and the table may be left with
      the older one alone. */
  lemma TieLosesNewest(a: SaveCall, b: SaveCall)
    requires a.room == b.room && a.at == b.at
    ensures Rivals([RowOf(1, a)] + [RowOf(2, b)], RowOf(2, b)) == {1}
    ensures Leaves([a] + [b], 1, [RowOf(1, a)])
  {
    var x, y := RowOf(1, a), RowOf(2, b);
    OneRival(x, y);
    OlderOfTwoKept(x, y);
    AllKeptWhole([x], a.room, 1);
    LeavesTwo(a, b, 1, x, y, [x]);
  }

  lemma EitherIsLatest(x: Row, y: Row)
    requires x.room == y.room && x.savedAt == y.savedAt && x.id < y.id
    ensures IsLatest([x] + [y], x.room, x) && IsLatest([x] + [y], x.room, y)
    ensures Pruned([x] + [y], x.room, 2, [x] + [y])
  {
    assert x in [x] + [y] && y in [x] + [y];
    AllKeptWhole([x] + [y], x.room, 2);
  }

  /** With more rows kept, both stay and a load may find either. */
  lemma TieLoadsEither(a: SaveCall, b: SaveCall)
    requires a.room == b.room && a.at == b.at
    ensures
      var rows := [RowOf(1, a)] + [RowOf(2, b)];
      && Leaves([a] + [b], 2, rows)
      && IsLatest(rows, a.room, RowOf(1, a)) && IsLatest(rows, a.room, RowOf(2, b))
  {
    var x, y := RowOf(1, a), RowOf(2, b);
    AllKeptWhole([x], a.room, 2);
    EitherIsLatest(x, y);
    LeavesTwo(a, b, 2, x, y, [x] + [y]);
  }

  /** A sweep may leave a table of one room alone that has no more rows than are kept. */
  lemma AllKeptWhole(rows: seq<Row>, room: RoomId, keep: nat)
    requires IdsIncrease(rows) && 0 < |rows| <= keep && forall x :: x in rows ==> x.room == room
    ensures Pruned(rows, room, keep, rows)
  {
    WhereAll(rows, (x: Row) => x.room == room);
    WhereAll(rows, (x: Row) => x.room != room || x.id in Ids(rows));
    IdsCount(rows);
    assert LatestIds(rows, room, keep, Ids(rows));
  }

  lemma {:induction false} WhereAll(rows: seq<Row>, p: Row -> bool)
    requires forall x :: x in rows ==> p(x)
    ensures Where(rows, p) == rows
  {
    if rows != [] {
      var n := |rows| - 1;
      assert rows == rows[..n] + [rows[n]];
      assert rows[n] in rows;
      WhereAll(rows[..n], p);
    }
  }

  // ----- The store -----

  datatype Meta = Meta(id: nat, room: RoomId, savedAt: int, lastSeq: Seq)

  datatype Loaded = NoSnapshot | EmptyBlob | BadBlob(error: DecodeError) | Snapshot(meta: Meta, strokes: seq<RawStroke>)

  function LoadedRow(x: Row): Loaded {
    if x.data == [] then EmptyBlob
    else
      match Decode(x.data)
      case Strokes(ss) => Snapshot(Meta(x.id, x.room, x.savedAt, x.lastSeq), ss)
      case Failed(e) => BadBlob(e)
  }

  /** A save gives back, when its row is loaded, what was saved: under its id and room, with its time and number. */
  lemma SaveReadsBack(id: nat, s: SaveCall)
    requires |s.strokes| < U32_SIZE && PointsFit(s.strokes)
    ensures LoadedRow(RowOf(id, s)) == Snapshot(Meta(id, s.room, s.at, s.lastSeq), s.strokes)
    ensures RowOf(id, s).id == id && RowOf(id, s).room == s.room && RowOf(id, s).savedAt == s.at && RowOf(id, s).lastSeq == s.lastSeq
  {
    RoundTrip(s.strokes);
    BlobSize(s.strokes);
  }

  class SqliteSnapshotStore {
    var rows: seq<Row>
    var nextId: nat

    ghost predicate Valid()
      reads this
    {
      IdsIncrease(rows) && forall x :: x in rows ==> x.id < nextId
    }

    constructor ()
      ensures Valid() && rows == [] && nextId == 1
    {
      rows, nextId := [], 1;
    }

    method Save(room: RoomId, lastSeq: Seq, strokes: seq<RawStroke>, now: int)
      requires Valid()
      modifies this
      ensures Valid() && nextId == old(nextId) + 1
      ensures rows == old(rows) + [Row(old(nextId), room, now, lastSeq, Encode(strokes))]
    {
      var blob := SerializeStrokes(strokes);
      rows := rows + [Row(nextId, room, now, lastSeq, blob)];
      nextId := nextId + 1;
    }

    method LoadLatest(room: RoomId) returns (loaded: Loaded)
      requires Valid()
      ensures if OfRoom(rows, room) == [] then loaded == NoSnapshot
              else exists x :: IsLatest(rows, room, x) && loaded == LoadedRow(x)
    {
      var mine := OfRoom(rows, room);
      if mine == [] {
        return NoSnapshot;
      }
      ghost var newest := SomeNewest(mine);
      var x :| x in mine && forall y :: y in mine ==> y.savedAt <= x.savedAt;
      assert IsLatest(rows, room, x);
      if x.data == [] {
        return EmptyBlob;
      }
      var decoded := DeserializeStrokes(x.data);
      match decoded
      case Strokes(ss) => loaded := Snapshot(Meta(x.id, x.room, x.savedAt, x.lastSeq), ss);
      case Failed(e) => loaded := BadBlob(e);
    }

    /** The ids the sweep's inner query answers, newest first, ties broken anyhow. */
    method SelectLatest(room: RoomId, keep: nat) returns (kept: set<nat>)
      requires Valid()
      ensures LatestIds(rows, room, keep, kept)
    {
      var mine := OfRoom(rows, room);
      WhereIncreases(rows, (x: Row) => x.room == room);
      kept := {};
      while |kept| < keep && |kept| < |mine|
        invariant kept <= Ids(mine) && NoneOlder(mine, kept)
        invariant |kept| <= keep && |kept| <= |mine|
        decreases |mine| - |kept|
      {
        var rest := Where(mine, (x: Row) => x.id !in kept);
        if rest == [] {
          AllAmong(mine, kept);
        }
        ghost var newest := SomeNewest(rest);
        var x :| x in rest && forall y :: y in rest ==> y.savedAt <= x.savedAt;
        NextNewest(mine, kept, rest, x);
        kept := kept + {x.id};
      }
    }

    method PruneKeepLatest(room: RoomId, keep: nat)
      requires Valid()
      modifies this`rows
      ensures Valid() && Pruned(old(rows), room, keep, rows)
    {
      ghost var before := rows;
      var kept: set<nat> := {};
      if keep != 0 {
        kept := SelectLatest(room, keep);
      }
      WhereIncreases(rows, (x: Row) => x.room != room || x.id in kept);
      rows := Survivors(rows, room, kept);
      assert keep > 0 ==> LatestIds(before, room, keep, kept);
    }
  }
}
