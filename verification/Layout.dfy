/** The blob byte by byte: which byte stands where, stated by offsets and without the encoder's own
    terms, and what the decoder makes of every byte string there is. */
module Layout {
  import opened Types
  import opened Codec

  /** `value` is written at offset `at`, in `width` bytes, least significant first. */
  ghost predicate WrittenAt(b: seq<Byte>, at: nat, value: nat, width: nat) {
    at + width <= |b| && forall k :: 0 <= k < width ==> b[at + k] as nat == (value / Pow256(k)) % 256
  }

  ghost predicate PointAt(b: seq<Byte>, at: nat, p: Point) {
    WrittenAt(b, at, p.x as nat, 4) && WrittenAt(b, at + 4, p.y as nat, 4)
  }

  ghost predicate PointsAt(b: seq<Byte>, at: nat, ps: seq<Point>) {
    at + 8 * |ps| <= |b| && forall j :: 0 <= j < |ps| ==> PointAt(b, at + 8 * j, ps[j])
  }

  /** A stroke's 31 bytes of head; of the `finished` byte only whether it is zero. */
  ghost predicate HeadAt(b: seq<Byte>, at: nat, s: RawStroke) {
    && WrittenAt(b, at, s.id as nat, 8)
    && WrittenAt(b, at + 8, s.author as nat, 8)
    && WrittenAt(b, at + 16, s.color as nat, 1)
    && WrittenAt(b, at + 17, s.thickness as nat, 1)
    && WrittenAt(b, at + 18, s.strokeOrder as nat, 8)
    && at + 26 < |b| && (b[at + 26] != 0 <==> s.finished)
    && WrittenAt(b, at + 27, |s.points|, 4)
  }

  ghost predicate StrokeAt(b: seq<Byte>, at: nat, s: RawStroke) {
    HeadAt(b, at, s) && PointsAt(b, at + 31, s.points)
  }

  /** The strokes stand one behind the other, from offset `at` on. */
  ghost predicate StrokesAt(b: seq<Byte>, at: nat, ss: seq<RawStroke>)
    decreases |ss|
  {
    ss == [] || (StrokeAt(b, at, ss[0]) && StrokesAt(b, at + 31 + 8 * |ss[0].points|, ss[1..]))
  }

  /** Where strokes that start at `at` end. */
  function EndOf(at: nat, ss: seq<RawStroke>): nat
    decreases |ss|
  {
    if ss == [] then at else EndOf(at + 31 + 8 * |ss[0].points|, ss[1..])
  }

  /** The whole blob is the version 1, the number of strokes and the strokes, and nothing else. */
  ghost predicate LaidOut(b: seq<Byte>, ss: seq<RawStroke>) {
    && |b| >= 8 && b[0] == 1 && b[1] == 0 && b[2] == 0 && b[3] == 0
    && WrittenAt(b, 4, |ss|, 4)
    && StrokesAt(b, 8, ss)
    && |b| == EndOf(8, ss)
  }

  // ----- One number -----

  lemma {:induction false} Digits(b: seq<Byte>, k: nat)
    requires k < |b|
    ensures (FromLE(b) / Pow256(k)) % 256 == b[k] as nat
  {
    LowByte(b[0], FromLE(b[1..]));
    if k > 0 {
      Digits(b[1..], k - 1);
      DivTwice(FromLE(b), k - 1);
    } else {
      assert FromLE(b) / 1 == FromLE(b);
    }
  }

  lemma DivTwice(v: nat, k: nat)
    ensures v / Pow256(k + 1) == (v / 256) / Pow256(k)
  {
    var q, p := v / 256, Pow256(k);
    var r, d := v % 256, q / p;
    assert q == d * p + q % p;
    assert v == 256 * q + r;
    assert v == d * (256 * p) + (256 * (q % p) + r);
    assert 256 * (q % p) + r < 256 * p;
    Quotient(v, 256 * p, d, 256 * (q % p) + r);
  }

  lemma TimesGrows(a: nat, b: nat, n: nat)
    requires a < b
    ensures a * n + n <= b * n
  {
    assert b * n == (a + 1) * n + (b - a - 1) * n;
    assert (a + 1) * n == a * n + n;
  }

  lemma Quotient(v: nat, n: nat, q: nat, r: nat)
    requires n > 0 && v == q * n + r && r < n
    ensures v / n == q
  {
    var e := v / n;
    assert v == e * n + v % n;
    if e > q {
      TimesGrows(q, e, n);
    } else if e < q {
      TimesGrows(e, q, n);
    }
  }

  /** What is written at an offset is what is read there, if it fits. */
  lemma {:induction false} WrittenIsRead(b: seq<Byte>, value: nat, n: nat)
    requires |b| == n && value < Pow256(n)
    requires forall k :: 0 <= k < n ==> b[k] as nat == (value / Pow256(k)) % 256
    ensures FromLE(b) == value
  {
    if n > 0 {
      forall k | 0 <= k < n - 1 ensures b[1..][k] as nat == (value / 256 / Pow256(k)) % 256 {
        DivTwice(value, k);
        assert b[1..][k] == b[k + 1];
      }
      WrittenIsRead(b[1..], value / 256, n - 1);
      assert value / Pow256(0) == value;
    }
  }

  lemma {:induction false} ReadIsWritten(b: seq<Byte>, at: nat, n: nat)
    requires at + n <= |b|
    ensures WrittenAt(b, at, FromLE(b[at..at + n]), n)
  {
    forall k | 0 <= k < n ensures b[at + k] as nat == (FromLE(b[at..at + n]) / Pow256(k)) % 256 {
      Digits(b[at..at + n], k);
    }
  }

  lemma {:induction false} WrittenIff(b: seq<Byte>, at: nat, value: nat, n: nat)
    requires value < Pow256(n) && at + n <= |b|
    ensures WrittenAt(b, at, value, n) <==> FromLE(b[at..at + n]) == value
  {
    ReadIsWritten(b, at, n);
    if WrittenAt(b, at, value, n) {
      WrittenIsRead(b[at..at + n], value, n);
    }
  }

  // ----- Moving along a blob -----

  lemma WrittenShift(b: seq<Byte>, skip: nat, at: nat, value: nat, n: nat)
    requires skip <= |b|
    ensures WrittenAt(b, skip + at, value, n) <==> WrittenAt(b[skip..], at, value, n)
  {
    if skip + at + n <= |b| {
      if WrittenAt(b[skip..], at, value, n) {
        forall k | 0 <= k < n ensures b[skip + at + k] as nat == (value / Pow256(k)) % 256 {
          assert b[skip..][at + k] as nat == (value / Pow256(k)) % 256;
        }
      }
    }
  }

  lemma {:induction false} PointsShift(b: seq<Byte>, skip: nat, at: nat, ps: seq<Point>)
    requires skip <= |b|
    ensures PointsAt(b, skip + at, ps) <==> PointsAt(b[skip..], at, ps)
  {
    forall j | 0 <= j < |ps| ensures PointAt(b, skip + at + 8 * j, ps[j]) <==> PointAt(b[skip..], at + 8 * j, ps[j]) {
      WrittenShift(b, skip, at + 8 * j, ps[j].x as nat, 4);
      WrittenShift(b, skip, at + 8 * j + 4, ps[j].y as nat, 4);
    }
  }

  lemma {:induction false} HeadShift(b: seq<Byte>, skip: nat, at: nat, s: RawStroke)
    requires skip <= |b|
    ensures HeadAt(b, skip + at, s) <==> HeadAt(b[skip..], at, s)
  {
    WrittenShift(b, skip, at, s.id as nat, 8);
    WrittenShift(b, skip, at + 8, s.author as nat, 8);
    WrittenShift(b, skip, at + 16, s.color as nat, 1);
    WrittenShift(b, skip, at + 17, s.thickness as nat, 1);
    WrittenShift(b, skip, at + 18, s.strokeOrder as nat, 8);
    WrittenShift(b, skip, at + 27, |s.points|, 4);
  }

  lemma {:induction false} StrokeShift(b: seq<Byte>, skip: nat, at: nat, s: RawStroke)
    requires skip <= |b|
    ensures StrokeAt(b, skip + at, s) <==> StrokeAt(b[skip..], at, s)
  {
    HeadShift(b, skip, at, s);
    PointsShift(b, skip, at + 31, s.points);
  }

  lemma {:induction false} StrokesShift(b: seq<Byte>, skip: nat, at: nat, ss: seq<RawStroke>)
    requires skip <= |b|
    ensures StrokesAt(b, skip + at, ss) <==> StrokesAt(b[skip..], at, ss)
    decreases |ss|
  {
    if ss != [] {
      StrokeShift(b, skip, at, ss[0]);
      StrokesShift(b, skip, at + 31 + 8 * |ss[0].points|, ss[1..]);
    }
  }

  // ----- Reading the fields -----

  function Offset(widths: seq<nat>, i: nat): nat
    requires i <= |widths|
    decreases |widths|
  {
    if i == 0 then 0 else widths[0] + Offset(widths[1..], i - 1)
  }

  /** Every field of a group is read where it starts. */
  ghost predicate FieldsFrom(b: seq<Byte>, widths: seq<nat>, values: seq<nat>) {
    && |values| == |widths| && Total(widths) <= |b|
    && forall i :: 0 <= i < |widths| ==>
         && Offset(widths, i) + widths[i] <= |b|
         && values[i] == FromLE(b[Offset(widths, i)..Offset(widths, i) + widths[i]])
  }

  lemma {:induction false} FieldsRead(b: seq<Byte>, widths: seq<nat>)
    ensures TakeFields(b, widths).Got? <==> Total(widths) <= |b|
    ensures TakeFields(b, widths).Got? ==>
              FieldsFrom(b, widths, TakeFields(b, widths).value) && TakeFields(b, widths).rest == b[Total(widths)..]
    decreases |widths|
  {
    if widths != [] && widths[0] <= |b| {
      var b1 := b[widths[0]..];
      FieldsRead(b1, widths[1..]);
      if TakeFields(b1, widths[1..]).Got? {
        FieldsCons(b, widths, TakeFields(b1, widths[1..]).value);
      }
    }
  }

  lemma {:induction false} FieldsCons(b: seq<Byte>, widths: seq<nat>, rest: seq<nat>)
    requires widths != [] && widths[0] <= |b| && FieldsFrom(b[widths[0]..], widths[1..], rest)
    ensures FieldsFrom(b, widths, [FromLE(b[..widths[0]])] + rest)
  {
    forall i | 0 < i < |widths|
      ensures Offset(widths, i) + widths[i] <= |b| && rest[i - 1] == FromLE(b[Offset(widths, i)..Offset(widths, i) + widths[i]])
    {
      FieldBehind(b, widths, rest, i);
    }
  }

  lemma {:induction false} FieldBehind(b: seq<Byte>, widths: seq<nat>, rest: seq<nat>, i: nat)
    requires widths != [] && widths[0] <= |b| && FieldsFrom(b[widths[0]..], widths[1..], rest) && 0 < i < |widths|
    ensures Offset(widths, i) + widths[i] <= |b| && rest[i - 1] == FromLE(b[Offset(widths, i)..Offset(widths, i) + widths[i]])
  {
    var w0, tail := widths[0], widths[1..];
    var o, n := Offset(tail, i - 1), tail[i - 1];
    assert o + n <= |b[w0..]| && rest[i - 1] == FromLE(b[w0..][o..o + n]);
    assert b[w0..][o..o + n] == b[w0 + o..w0 + o + n];
  }

  lemma HeadOffsets()
    ensures |HEAD_WIDTHS| == 7 && Total(HEAD_WIDTHS) == 31
    ensures Offset(HEAD_WIDTHS, 0) == 0 && Offset(HEAD_WIDTHS, 1) == 8 && Offset(HEAD_WIDTHS, 2) == 16
    ensures Offset(HEAD_WIDTHS, 3) == 17 && Offset(HEAD_WIDTHS, 4) == 18 && Offset(HEAD_WIDTHS, 5) == 26
    ensures Offset(HEAD_WIDTHS, 6) == 27
    ensures HEAD_WIDTHS[0] == HEAD_WIDTHS[1] == HEAD_WIDTHS[4] == 8 && HEAD_WIDTHS[6] == 4
    ensures HEAD_WIDTHS[2] == HEAD_WIDTHS[3] == HEAD_WIDTHS[5] == 1
  {
    var widths: seq<nat> := [8, 8, 1, 1, 8, 1, 4];
    assert HEAD_WIDTHS == widths && Total(widths) == 31;
    assert Offset(widths, 6) == 27 && Offset(widths, 5) == 26 && Offset(widths, 4) == 18;
    assert Offset(widths, 3) == 17 && Offset(widths, 2) == 16 && Offset(widths, 1) == 8;
  }

  lemma PointOffsets()
    ensures |POINT_WIDTHS| == 2 && Total(POINT_WIDTHS) == 8 && POINT_WIDTHS[0] == POINT_WIDTHS[1] == 4
    ensures Offset(POINT_WIDTHS, 0) == 0 && Offset(POINT_WIDTHS, 1) == 4
  {
    var widths: seq<nat> := [4, 4];
    assert POINT_WIDTHS == widths && Total(widths) == 8 && Offset(widths, 1) == 4;
  }

  // ----- What the decoder reads -----

  lemma FieldIs(b: seq<Byte>, at: nat, value: nat, n: nat, read: nat)
    requires at + n <= |b| && value < Pow256(n) && read == FromLE(b[at..at + n])
    ensures WrittenAt(b, at, value, n) <==> read == value
  {
    WrittenIff(b, at, value, n);
  }

  lemma {:induction false} OnePoint(b: seq<Byte>, p: Point)
    requires 8 <= |b|
    ensures
      var v := TakeFields(b, POINT_WIDTHS);
      v.Got? && v.rest == b[8..] && (PointAt(b, 0, p) <==> PointOf(v.value) == p)
  {
    PowersOf256();
    PointOffsets();
    FieldsRead(b, POINT_WIDTHS);
    var v := TakeFields(b, POINT_WIDTHS).value;
    FieldIs(b, 0, p.x as nat, 4, v[0]);
    FieldIs(b, 4, p.y as nat, 4, v[1]);
  }

  lemma {:induction false} PointsTail(b: seq<Byte>, ps: seq<Point>)
    requires ps != []
    ensures PointsAt(b, 0, ps) <==> PointAt(b, 0, ps[0]) && PointsAt(b, 8, ps[1..])
  {
    if PointAt(b, 0, ps[0]) && PointsAt(b, 8, ps[1..]) {
      forall j | 0 <= j < |ps| ensures PointAt(b, 8 * j, ps[j]) {
        if j > 0 {
          assert PointAt(b, 8 + 8 * (j - 1), ps[1..][j - 1]);
        }
      }
    }
    if PointsAt(b, 0, ps) {
      assert PointAt(b, 0 + 8 * 0, ps[0]);
      forall j | 0 <= j < |ps[1..]| ensures PointAt(b, 8 + 8 * j, ps[1..][j]) {
        assert PointAt(b, 0 + 8 * (j + 1), ps[j + 1]);
      }
    }
  }

  /** Reading as many points as there are in `ps` gives `ps` and leaves what comes behind. */
  ghost predicate ReadsPoints(b: seq<Byte>, ps: seq<Point>) {
    8 * |ps| <= |b| && TakePoints(b, |ps|) == Got(ps, b[8 * |ps|..])
  }

  /** The points read are the points laid out. */
  lemma {:induction false} PointsIff(b: seq<Byte>, ps: seq<Point>)
    ensures PointsAt(b, 0, ps) <==> ReadsPoints(b, ps)
    decreases |ps|
  {
    if ps == [] {
      assert b[0..] == b;
    } else if 8 <= |b| {
      OnePoint(b, ps[0]);
      PointsTail(b, ps);
      PointsShift(b, 8, 0, ps[1..]);
      PointsIff(b[8..], ps[1..]);
      PointsRead(b, ps);
    } else {
      assert !PointsAt(b, 0, ps);
    }
  }

  lemma {:induction false} PointsRead(b: seq<Byte>, ps: seq<Point>)
    requires ps != [] && 8 <= |b| && TakeFields(b, POINT_WIDTHS).Got? && TakeFields(b, POINT_WIDTHS).rest == b[8..]
    ensures ReadsPoints(b, ps) <==> PointOf(TakeFields(b, POINT_WIDTHS).value) == ps[0] && ReadsPoints(b[8..], ps[1..])
  {
    var v := TakeFields(b, POINT_WIDTHS).value;
    var rest := TakePoints(b[8..], |ps| - 1);
    assert ps == [ps[0]] + ps[1..];
    if rest.Got? {
      assert ([PointOf(v)] + rest.value)[0] == PointOf(v) && ([PointOf(v)] + rest.value)[1..] == rest.value;
    }
    if 8 * |ps| <= |b| {
      assert b[8..][8 * |ps[1..]|..] == b[8 * |ps|..];
    }
  }

  lemma {:induction false} HeadTaken(b: seq<Byte>)
    requires 31 <= |b|
    ensures
      var v := TakeFields(b, HEAD_WIDTHS);
      && v.Got? && v.rest == b[31..] && |v.value| == 7
      && v.value[0] == FromLE(b[0..8]) && v.value[1] == FromLE(b[8..16])
      && v.value[2] == FromLE(b[16..17]) && v.value[3] == FromLE(b[17..18])
      && v.value[4] == FromLE(b[18..26]) && v.value[5] == FromLE(b[26..27])
      && v.value[6] == FromLE(b[27..31])
  {
    HeadOffsets();
    FieldsRead(b, HEAD_WIDTHS);
  }

  lemma OneByte(b: seq<Byte>, at: nat)
    requires at < |b|
    ensures FromLE(b[at..at + 1]) == b[at] as nat
  {
    var one := b[at..at + 1];
    assert one[1..] == [] && one[0] == b[at];
  }

  lemma {:induction false} HeadIff(b: seq<Byte>, s: RawStroke)
    requires 31 <= |b| && |s.points| < U32_SIZE
    ensures
      var v := TakeFields(b, HEAD_WIDTHS);
      && v.Got? && v.rest == b[31..]
      && (HeadAt(b, 0, s) <==> v.value[6] == |s.points| && StrokeOf(v.value, s.points) == s)
  {
    PowersOf256();
    HeadTaken(b);
    var v := TakeFields(b, HEAD_WIDTHS).value;
    FieldIs(b, 0, s.id as nat, 8, v[0]);
    FieldIs(b, 8, s.author as nat, 8, v[1]);
    FieldIs(b, 16, s.color as nat, 1, v[2]);
    FieldIs(b, 17, s.thickness as nat, 1, v[3]);
    FieldIs(b, 18, s.strokeOrder as nat, 8, v[4]);
    FieldIs(b, 27, |s.points|, 4, v[6]);
    OneByte(b, 26);
  }

  ghost predicate ReadsStroke(b: seq<Byte>, s: RawStroke) {
    StrokeSize(s) <= |b| && TakeStroke(b) == Got(s, b[StrokeSize(s)..])
  }

  lemma {:induction false} StrokeParts(b: seq<Byte>, s: RawStroke)
    requires 31 <= |b|
    ensures StrokeAt(b, 0, s) <==> HeadAt(b, 0, s) && PointsAt(b[31..], 0, s.points)
  {
    PointsShift(b, 31, 0, s.points);
  }

  /** The stroke that is read is the one laid out. */
  lemma {:induction false} StrokeIff(b: seq<Byte>, s: RawStroke)
    requires |s.points| < U32_SIZE
    ensures StrokeAt(b, 0, s) <==> ReadsStroke(b, s)
  {
    if 31 <= |b| {
      HeadIff(b, s);
      StrokeParts(b, s);
      PointsIff(b[31..], s.points);
      StrokeRead(b, s);
    } else {
      assert !PointsAt(b, 31, s.points);
    }
  }

  lemma {:induction false} StrokeRead(b: seq<Byte>, s: RawStroke)
    requires 31 <= |b| && TakeFields(b, HEAD_WIDTHS).Got? && TakeFields(b, HEAD_WIDTHS).rest == b[31..]
    ensures
      var v := TakeFields(b, HEAD_WIDTHS).value;
      ReadsStroke(b, s) <==> v[6] == |s.points| && StrokeOf(v, s.points) == s && ReadsPoints(b[31..], s.points)
  {
    var v := TakeFields(b, HEAD_WIDTHS).value;
    TakenPointsCount(b[31..], v[6]);
    if StrokeSize(s) <= |b| {
      assert b[31..][8 * |s.points|..] == b[StrokeSize(s)..];
    }
  }

  lemma {:induction false} EndIsSize(at: nat, ss: seq<RawStroke>)
    ensures EndOf(at, ss) == at + Size(ss)
    decreases |ss|
  {
    if ss != [] {
      EndIsSize(at + 31 + 8 * |ss[0].points|, ss[1..]);
    }
  }

  ghost predicate ReadsStrokes(b: seq<Byte>, ss: seq<RawStroke>) {
    Size(ss) <= |b| && TakeStrokes(b, |ss|) == Got(ss, b[Size(ss)..])
  }

  lemma {:induction false} StrokesBehind(b: seq<Byte>, ss: seq<RawStroke>)
    requires ss != [] && StrokeSize(ss[0]) <= |b|
    ensures StrokesAt(b, 0, ss) <==> StrokeAt(b, 0, ss[0]) && StrokesAt(b[StrokeSize(ss[0])..], 0, ss[1..])
  {
    StrokesShift(b, StrokeSize(ss[0]), 0, ss[1..]);
  }

  lemma {:induction false} NoRoomForFirst(b: seq<Byte>, ss: seq<RawStroke>)
    requires ss != [] && !ReadsStroke(b, ss[0])
    ensures !ReadsStrokes(b, ss)
  {
    if ReadsStrokes(b, ss) {
      StrokeCanonical(b);
    }
  }

  /** So with a whole list of strokes. */
  lemma {:induction false} StrokesIff(b: seq<Byte>, ss: seq<RawStroke>)
    requires PointsFit(ss)
    ensures StrokesAt(b, 0, ss) <==> ReadsStrokes(b, ss)
    decreases |ss|
  {
    if ss == [] {
      assert b[0..] == b;
    } else {
      StrokeIff(b, ss[0]);
      if StrokeSize(ss[0]) <= |b| {
        StrokesBehind(b, ss);
        StrokesIff(b[StrokeSize(ss[0])..], ss[1..]);
        StrokesRead(b, ss);
      } else {
        NoRoomForFirst(b, ss);
      }
    }
  }

  lemma {:induction false} StrokesRead(b: seq<Byte>, ss: seq<RawStroke>)
    requires ss != [] && StrokeSize(ss[0]) <= |b|
    ensures ReadsStrokes(b, ss) <==> ReadsStroke(b, ss[0]) && ReadsStrokes(b[StrokeSize(ss[0])..], ss[1..])
  {
    var n := StrokeSize(ss[0]);
    var first := TakeStroke(b);
    assert ss == [ss[0]] + ss[1..];
    if first.Got? {
      StrokeCanonical(b);
      var rest := TakeStrokes(first.rest, |ss| - 1);
      if rest.Got? {
        assert ([first.value] + rest.value)[0] == first.value && ([first.value] + rest.value)[1..] == rest.value;
      }
    }
    if Size(ss) <= |b| {
      assert b[n..][Size(ss[1..])..] == b[Size(ss)..];
    }
  }

  // ----- The whole blob -----

  /** The blob starts with the version it should. */
  predicate IsVersionOne(b: seq<Byte>) {
    |b| >= 4 && b[0] == 1 && b[1] == 0 && b[2] == 0 && b[3] == 0
  }

  lemma OneWritten(k: nat)
    requires k < 4
    ensures (1 / Pow256(k)) % 256 == if k == 0 then 1 else 0
  {
    if k > 0 {
      DivTwice(1, k - 1);
      assert 0 / Pow256(k - 1) == 0;
    }
  }

  lemma VersionIff(b: seq<Byte>)
    requires |b| >= 4
    ensures IsVersionOne(b) <==> FromLE(b[..4]) == 1
  {
    PowersOf256();
    assert b[0..0 + 4] == b[..4];
    WrittenIff(b, 0, 1, 4);
    forall k | 0 <= k < 4 ensures (1 / Pow256(k)) % 256 == if k == 0 then 1 else 0 {
      OneWritten(k);
    }
    assert WrittenAt(b, 0, 1, 4) <==> b[0 + 0] == 1 && b[0 + 1] == 0 && b[0 + 2] == 0 && b[0 + 3] == 0;
  }

  lemma CountIff(b: seq<Byte>, n: nat)
    requires |b| >= 8 && n < U32_SIZE
    ensures WrittenAt(b, 4, n, 4) <==> FromLE(b[4..][..4]) == n
  {
    PowersOf256();
    assert b[4..][..4] == b[4..8];
    WrittenIff(b, 4, n, 4);
  }

  /** The list can be written in a blob at all: its counts fit their 32 bits. */
  predicate Fits(ss: seq<RawStroke>) {
    |ss| < U32_SIZE && PointsFit(ss)
  }

  lemma {:induction false} BodyIff(b: seq<Byte>, ss: seq<RawStroke>)
    requires |b| >= 8 && PointsFit(ss)
    ensures StrokesAt(b, 8, ss) <==> ReadsStrokes(b[8..], ss)
    ensures |b| == EndOf(8, ss) <==> |b[8..]| == Size(ss)
  {
    StrokesShift(b, 8, 0, ss);
    StrokesIff(b[8..], ss);
    EndIsSize(8, ss);
  }

  lemma {:induction false} LaidOutParts(b: seq<Byte>, ss: seq<RawStroke>)
    requires Fits(ss)
    ensures LaidOut(b, ss) <==>
            |b| >= 8 && FromLE(b[..4]) == 1 && FromLE(b[4..][..4]) == |ss| && ReadsStrokes(b[8..], ss) && |b[8..]| == Size(ss)
  {
    if |b| >= 8 {
      VersionIff(b);
      CountIff(b, |ss|);
      BodyIff(b, ss);
    }
  }

  lemma {:induction false} DecodeParts(b: seq<Byte>, ss: seq<RawStroke>)
    requires |b| >= 8 && FromLE(b[..4]) == 1 && Fits(ss)
    ensures Decode(b) == Strokes(ss) <==> FromLE(b[4..][..4]) == |ss| && ReadsStrokes(b[8..], ss) && |b[8..]| == Size(ss)
  {
    var count := FromLE(b[4..][..4]);
    assert b[4..][4..] == b[8..];
    TakenStrokesFit(b[8..], count);
    if Decode(b) == Strokes(ss) {
      assert TakeStrokes(b[8..], count) == Got(ss, []);
      StrokesCanonical(b[8..], count);
      assert b[8..][Size(ss)..] == [];
    }
  }

  /** The decoder accepts a byte string as these strokes exactly when the string is they, laid out as above. */
  lemma {:induction false} DecodesIff(b: seq<Byte>, ss: seq<RawStroke>)
    ensures Decode(b) == Strokes(ss) <==> LaidOut(b, ss) && Fits(ss)
  {
    if Decode(b) == Strokes(ss) {
      DecodedFits(b);
      NotShort(b);
    }
    if Fits(ss) {
      LaidOutParts(b, ss);
      if |b| >= 8 && FromLE(b[..4]) == 1 {
        DecodeParts(b, ss);
      }
    }
  }

  lemma NotShort(b: seq<Byte>)
    requires Decode(b).Strokes?
    ensures |b| >= 8 && FromLE(b[..4]) == 1
  {
  }

  /** Some list of strokes is laid out in these bytes. */
  ghost predicate IsBlob(b: seq<Byte>) {
    exists ss :: LaidOut(b, ss) && Fits(ss)
  }

  lemma IsBlobIff(b: seq<Byte>)
    ensures IsBlob(b) <==> Decode(b).Strokes?
  {
    if IsBlob(b) {
      var ss :| LaidOut(b, ss) && Fits(ss);
      DecodesIff(b, ss);
    }
    if Decode(b).Strokes? {
      DecodesIff(b, Decode(b).strokes);
    }
  }

  /** The bytes up to where a list of strokes ends are that list already. */
  lemma {:induction false} CutOff(b: seq<Byte>, ss: seq<RawStroke>)
    requires |b| >= 8 && FromLE(b[..4]) == 1 && FromLE(b[4..][..4]) == |ss|
    requires Fits(ss) && ReadsStrokes(b[8..], ss)
    ensures IsBlob(b[..8 + Size(ss)])
  {
    var c := b[..8 + Size(ss)];
    assert c[..4] == b[..4] && c[4..][..4] == b[4..][..4];
    assert b[8..] == c[8..] + b[8 + Size(ss)..];
    StrokesIff(b[8..], ss);
    StrokesCut(b[8..], 0, ss, Size(ss));
    assert b[8..][..Size(ss)] == c[8..];
    StrokesIff(c[8..], ss);
    LaidOutParts(c, ss);
  }

  lemma {:induction false} PointsCut(b: seq<Byte>, at: nat, ps: seq<Point>, n: nat)
    requires PointsAt(b, at, ps) && at + 8 * |ps| <= n <= |b|
    ensures PointsAt(b[..n], at, ps)
  {
    forall j | 0 <= j < |ps| ensures PointAt(b[..n], at + 8 * j, ps[j]) {
      assert PointAt(b, at + 8 * j, ps[j]);
    }
  }

  lemma {:induction false} StrokesCut(b: seq<Byte>, at: nat, ss: seq<RawStroke>, n: nat)
    requires StrokesAt(b, at, ss) && at + Size(ss) <= n <= |b|
    ensures StrokesAt(b[..n], at, ss)
    decreases |ss|
  {
    if ss != [] {
      HeadCut(b, at, ss[0], n);
      PointsCut(b, at + 31, ss[0].points, n);
      StrokesCut(b, at + 31 + 8 * |ss[0].points|, ss[1..], n);
    }
  }

  lemma {:induction false} HeadCut(b: seq<Byte>, at: nat, s: RawStroke, n: nat)
    requires HeadAt(b, at, s) && at + 31 <= n <= |b|
    ensures HeadAt(b[..n], at, s)
  {
  }

  /** What the decoder answers to each byte string there is: the strokes of a blob; a wrong version if the first four
      bytes are there and not 1, 0, 0, 0; trailing bytes if some shorter front is a blob; and corrupted in all other cases. */
  lemma {:induction false} DecoderAnswers(b: seq<Byte>)
    ensures Decode(b).Strokes? <==> IsBlob(b)
    ensures Decode(b) == Failed(UnsupportedVersion) <==> |b| >= 4 && !IsVersionOne(b)
    ensures Decode(b) == Failed(TrailingBytes) <==> exists k: nat :: k < |b| && IsBlob(b[..k])
    ensures Decode(b) == Failed(Corrupted) <==>
            (|b| < 4 || IsVersionOne(b)) && !IsBlob(b) && forall k: nat :: k < |b| ==> !IsBlob(b[..k])
  {
    IsBlobIff(b);
    VersionAnswer(b);
    TrailingIff(b);
  }

  lemma {:induction false} VersionAnswer(b: seq<Byte>)
    ensures Decode(b) == Failed(UnsupportedVersion) <==> |b| >= 4 && !IsVersionOne(b)
  {
    if |b| >= 4 {
      VersionIff(b);
    }
  }

  lemma {:induction false} TrailingIff(b: seq<Byte>)
    ensures Decode(b) == Failed(TrailingBytes) <==> exists k: nat :: k < |b| && IsBlob(b[..k])
  {
    if k: nat :| k < |b| && IsBlob(b[..k]) {
      IsBlobIff(b[..k]);
      LongerRefused(b, b[..k], b[k..]);
    } else if Decode(b) == Failed(TrailingBytes) {
      TrailingHasBlob(b);
    }
  }

  lemma {:induction false} LongerRefused(b: seq<Byte>, front: seq<Byte>, more: seq<Byte>)
    requires b == front + more && more != [] && Decode(front).Strokes?
    ensures Decode(b) == Failed(TrailingBytes)
  {
    ExtensionRefused(front, more);
  }

  lemma {:induction false} TrailingHasBlob(b: seq<Byte>)
    requires Decode(b) == Failed(TrailingBytes)
    ensures exists k: nat :: k < |b| && IsBlob(b[..k])
  {
    var count := FromLE(b[4..][..4]);
    var ss := TakeStrokes(b[8..], count).value;
    assert b[4..][4..] == b[8..];
    PowersOf256();
    TakenStrokesFit(b[8..], count);
    StrokesCanonical(b[8..], count);
    CutOff(b, ss);
    assert 8 + Size(ss) < |b|;
  }

  // ----- What the encoder writes -----

  lemma {:induction false} LEDigit(v: nat, n: nat, k: nat)
    requires k < n
    ensures LE(v, n)[k] as nat == (v / Pow256(k)) % 256
  {
    if k > 0 {
      LEDigit(v / 256, n - 1, k - 1);
      DivTwice(v, k - 1);
    } else {
      assert v / Pow256(0) == v;
    }
  }

  lemma LEWritten(v: nat, n: nat)
    ensures WrittenAt(LE(v, n), 0, v, n)
  {
    forall k | 0 <= k < n ensures LE(v, n)[0 + k] as nat == (v / Pow256(k)) % 256 {
      LEDigit(v, n, k);
    }
  }

  /** Cutting a number to its width does not change the bytes written. */
  lemma {:induction false} CutDigit(v: nat, n: nat, k: nat)
    requires k < n
    ensures (v % Pow256(n) / Pow256(k)) % 256 == (v / Pow256(k)) % 256
  {
    LEDigit(v, n, k);
    LEDigit(v % Pow256(n), n, k);
    LECut(v, n);
  }

  lemma ModTwice(v: nat, p: nat)
    requires p > 0
    ensures v % (256 * p) / 256 == v / 256 % p && v % (256 * p) % 256 == v % 256
  {
    var q, r := v / 256, v % 256;
    var d, e := q / p, q % p;
    assert q == d * p + e;
    assert v == d * (256 * p) + (256 * e + r);
    assert 256 * e + r < 256 * p;
    Quotient(v, 256 * p, d, 256 * e + r);
    assert v % (256 * p) == 256 * e + r;
  }

  lemma {:induction false} LECut(v: nat, n: nat)
    ensures LE(v % Pow256(n), n) == LE(v, n)
  {
    if n > 0 {
      ModTwice(v, Pow256(n - 1));
      LECut(v / 256, n - 1);
    }
  }

  lemma WrittenCut(b: seq<Byte>, at: nat, v: nat, n: nat)
    requires WrittenAt(b, at, v % Pow256(n), n)
    ensures WrittenAt(b, at, v, n)
  {
    forall k | 0 <= k < n ensures b[at + k] as nat == (v / Pow256(k)) % 256 {
      CutDigit(v, n, k);
    }
  }

  lemma WrittenBehind(a: seq<Byte>, b: seq<Byte>, at: nat, v: nat, n: nat)
    requires WrittenAt(b, at, v, n)
    ensures WrittenAt(a + b, |a| + at, v, n)
  {
    assert (a + b)[|a|..] == b;
    WrittenShift(a + b, |a|, at, v, n);
  }

  lemma WrittenInFront(a: seq<Byte>, b: seq<Byte>, at: nat, v: nat, n: nat)
    requires WrittenAt(a, at, v, n)
    ensures WrittenAt(a + b, at, v, n)
  {
    forall k | 0 <= k < n ensures (a + b)[at + k] as nat == (v / Pow256(k)) % 256 {
      assert (a + b)[at + k] == a[at + k];
    }
  }

  lemma {:induction false} FieldWritten(values: seq<nat>, widths: seq<nat>, i: nat)
    requires |values| == |widths| && i < |widths|
    ensures WrittenAt(Fields(values, widths), Offset(widths, i), values[i], widths[i])
    decreases |widths|
  {
    var head, tail := LE(values[0], widths[0]), Fields(values[1..], widths[1..]);
    if i == 0 {
      LEWritten(values[0], widths[0]);
      WrittenInFront(head, tail, 0, values[0], widths[0]);
    } else {
      FieldWritten(values[1..], widths[1..], i - 1);
      WrittenBehind(head, tail, Offset(widths[1..], i - 1), values[i], widths[i]);
    }
  }

  /** The head as written, its `finished` byte to the bit. */
  ghost predicate HeadWritten(b: seq<Byte>, at: nat, s: RawStroke) {
    HeadAt(b, at, s) && b[at + 26] == (if s.finished then 1 else 0)
  }

  lemma {:induction false} HeadIsWritten(s: RawStroke)
    ensures HeadWritten(Fields(HeadValues(s), HEAD_WIDTHS), 0, s)
  {
    var v := HeadValues(s);
    HeadOffsets();
    PowersOf256();
    HeadSize(s);
    FieldWritten(v, HEAD_WIDTHS, 0);
    FieldWritten(v, HEAD_WIDTHS, 1);
    FieldWritten(v, HEAD_WIDTHS, 2);
    FieldWritten(v, HEAD_WIDTHS, 3);
    FieldWritten(v, HEAD_WIDTHS, 4);
    FieldWritten(v, HEAD_WIDTHS, 5);
    FieldWritten(v, HEAD_WIDTHS, 6);
    var b := Fields(v, HEAD_WIDTHS);
    WrittenCut(b, 27, |s.points|, 4);
    assert b[26 + 0] as nat == (Flag(s.finished) / Pow256(0)) % 256;
  }

  lemma {:induction false} PointIsWritten(p: Point)
    ensures PointAt(Fields(PointValues(p), POINT_WIDTHS), 0, p)
  {
    PointOffsets();
    FieldWritten(PointValues(p), POINT_WIDTHS, 0);
    FieldWritten(PointValues(p), POINT_WIDTHS, 1);
  }

  lemma {:induction false} PointsAreWritten(ps: seq<Point>)
    ensures PointsAt(EncodePoints(ps), 0, ps)
  {
    if ps != [] {
      var head, tail := Fields(PointValues(ps[0]), POINT_WIDTHS), EncodePoints(ps[1..]);
      PointIsWritten(ps[0]);
      PointSize(ps[0]);
      PointsSize(ps[1..]);
      PointsAreWritten(ps[1..]);
      PointsCons(head, tail, ps);
    }
  }

  lemma {:induction false} PointInFront(a: seq<Byte>, e: seq<Byte>, at: nat, p: Point)
    requires PointAt(a, at, p)
    ensures PointAt(a + e, at, p)
  {
    WrittenInFront(a, e, at, p.x as nat, 4);
    WrittenInFront(a, e, at + 4, p.y as nat, 4);
  }

  lemma {:induction false} PointsCons(head: seq<Byte>, tail: seq<Byte>, ps: seq<Point>)
    requires ps != [] && |head| == 8 && PointAt(head, 0, ps[0]) && PointsAt(tail, 0, ps[1..])
    ensures PointsAt(head + tail, 0, ps)
  {
    var b := head + tail;
    PointInFront(head, tail, 0, ps[0]);
    PointsBehind(b, tail, ps[1..]);
    PointsTail(b, ps);
  }

  lemma {:induction false} PointsBehind(b: seq<Byte>, tail: seq<Byte>, ps: seq<Point>)
    requires |b| >= 8 && b[8..] == tail && PointsAt(tail, 0, ps)
    ensures PointsAt(b, 8, ps)
  {
    PointsShift(b, 8, 0, ps);
  }

  /** A stroke as written. */
  ghost predicate StrokeWritten(b: seq<Byte>, at: nat, s: RawStroke) {
    HeadWritten(b, at, s) && PointsAt(b, at + 31, s.points)
  }

  lemma {:induction false} StrokeIsWritten(s: RawStroke, e: seq<Byte>)
    ensures StrokeWritten(EncodeStroke(s) + e, 0, s)
  {
    var head, tail := Fields(HeadValues(s), HEAD_WIDTHS), EncodePoints(s.points);
    var b := head + tail + e;
    HeadIsWritten(s);
    HeadSize(s);
    HeadInFront(head, tail + e, s);
    assert head + (tail + e) == b;
    PointsAreWritten(s.points);
    PointsSize(s.points);
    assert b[31..] == tail + e && (tail + e)[..|tail|] == tail;
    PointsInFront(tail, e, s.points);
    PointsShift(b, 31, 0, s.points);
  }

  lemma {:induction false} HeadInFront(a: seq<Byte>, e: seq<Byte>, s: RawStroke)
    requires HeadWritten(a, 0, s)
    ensures HeadWritten(a + e, 0, s)
  {
    WrittenInFront(a, e, 0, s.id as nat, 8);
    WrittenInFront(a, e, 8, s.author as nat, 8);
    WrittenInFront(a, e, 16, s.color as nat, 1);
    WrittenInFront(a, e, 17, s.thickness as nat, 1);
    WrittenInFront(a, e, 18, s.strokeOrder as nat, 8);
    WrittenInFront(a, e, 27, |s.points|, 4);
  }

  lemma {:induction false} PointsInFront(a: seq<Byte>, e: seq<Byte>, ps: seq<Point>)
    requires PointsAt(a, 0, ps)
    ensures PointsAt(a + e, 0, ps)
  {
    forall j | 0 <= j < |ps| ensures PointAt(a + e, 0 + 8 * j, ps[j]) {
      assert PointAt(a, 0 + 8 * j, ps[j]);
      PointInFront(a, e, 0 + 8 * j, ps[j]);
    }
  }

  /** Strokes as written, one behind the other. */
  ghost predicate StrokesWritten(b: seq<Byte>, at: nat, ss: seq<RawStroke>)
    decreases |ss|
  {
    ss == [] || (StrokeWritten(b, at, ss[0]) && StrokesWritten(b, at + 31 + 8 * |ss[0].points|, ss[1..]))
  }

  lemma {:induction false} WrittenStrokeBehind(a: seq<Byte>, b: seq<Byte>, at: nat, s: RawStroke)
    requires StrokeWritten(b, at, s)
    ensures StrokeWritten(a + b, |a| + at, s)
  {
    assert (a + b)[|a|..] == b;
    StrokeShift(a + b, |a|, at, s);
  }

  lemma {:induction false} WrittenStrokesBehind(a: seq<Byte>, b: seq<Byte>, at: nat, ss: seq<RawStroke>)
    requires StrokesWritten(b, at, ss)
    ensures StrokesWritten(a + b, |a| + at, ss)
    decreases |ss|
  {
    if ss != [] {
      WrittenStrokeBehind(a, b, at, ss[0]);
      WrittenStrokesBehind(a, b, at + 31 + 8 * |ss[0].points|, ss[1..]);
    }
  }

  lemma EncodedSize(s: RawStroke)
    ensures |EncodeStroke(s)| == 31 + 8 * |s.points|
  {
    HeadSize(s);
    PointsSize(s.points);
  }

  lemma {:induction false} StrokesAreWritten(ss: seq<RawStroke>)
    ensures StrokesWritten(EncodeStrokes(ss), 0, ss)
  {
    if ss != [] {
      var head, tail := EncodeStroke(ss[0]), EncodeStrokes(ss[1..]);
      StrokeIsWritten(ss[0], tail);
      StrokesAreWritten(ss[1..]);
      EncodedSize(ss[0]);
      WrittenStrokesBehind(head, tail, 0, ss[1..]);
    }
  }

  /** Every blob the encoder writes: 1, 0, 0, 0, the number of strokes, and the strokes, each with its `finished` byte 0
      or 1; counts beyond 32 bits are cut to their low bytes. */
  lemma {:induction false} EncoderWrites(ss: seq<RawStroke>)
    ensures
      var b := Encode(ss);
      && |b| == EndOf(8, ss) && IsVersionOne(b) && WrittenAt(b, 4, |ss|, 4) && StrokesWritten(b, 8, ss)
  {
    var body := EncodeStrokes(ss);
    var b := Encode(ss);
    BlobSize(ss);
    EndIsSize(8, ss);
    StrokesAreWritten(ss);
    HeaderWritten(|ss|, body, b);
    BehindHeader(b, body, ss);
  }

  lemma {:induction false} BehindHeader(b: seq<Byte>, body: seq<Byte>, ss: seq<RawStroke>)
    requires |b| >= 8 && b[8..] == body && StrokesWritten(body, 0, ss)
    ensures StrokesWritten(b, 8, ss)
  {
    var front := b[..8];
    assert b == front + body;
    WrittenStrokesBehind(front, body, 0, ss);
  }

  lemma HeaderWritten(n: nat, body: seq<Byte>, b: seq<Byte>)
    requires b == Blob(VERSION, n % U32_SIZE, body)
    ensures |b| == 8 + |body| && b[8..] == body && IsVersionOne(b) && WrittenAt(b, 4, n, 4)
  {
    PowersOf256();
    var v, count := LE(VERSION, 4), LE(n % U32_SIZE, 4);
    assert b == v + (count + body);
    LEWritten(n % U32_SIZE, 4);
    WrittenInFront(count, body, 0, n % U32_SIZE, 4);
    WrittenBehind(v, count + body, 0, n % U32_SIZE, 4);
    WrittenCut(b, 4, n, 4);
    forall k | 0 <= k < 4 ensures b[k] as nat == if k == 0 then 1 else 0 {
      LEDigit(VERSION, 4, k);
      OneWritten(k);
    }
  }

  // ----- The server's own strokes -----

  /** One of the server's strokes in a blob: its numbers cut to 64 bits, its colour and thickness by their codes. */
  ghost predicate SavedAt(b: seq<Byte>, at: nat, s: Stroke) {
    && at + 31 + 8 * |s.points| <= |b|
    && WrittenAt(b, at, s.id, 8)
    && WrittenAt(b, at + 8, s.author, 8)
    && b[at + 16] == (if s.color == Black then 0 else if s.color == Red then 1 else if s.color == Green then 2 else 3)
    && b[at + 17] == (if s.thickness == Thin then 0 else if s.thickness == Medium then 1 else 2)
    && WrittenAt(b, at + 18, s.strokeOrder, 8)
    && b[at + 26] == (if s.finished then 1 else 0)
    && WrittenAt(b, at + 27, |s.points|, 4)
    && PointsAt(b, at + 31, s.points)
  }

  ghost predicate AllSavedAt(b: seq<Byte>, at: nat, ss: seq<Stroke>)
    decreases |ss|
  {
    ss == [] || (SavedAt(b, at, ss[0]) && AllSavedAt(b, at + 31 + 8 * |ss[0].points|, ss[1..]))
  }

  lemma {:induction false} RawIsSaved(b: seq<Byte>, at: nat, s: Stroke)
    requires StrokeWritten(b, at, Raw(s))
    ensures SavedAt(b, at, s)
  {
    PowersOf256();
    WrittenCut(b, at, s.id, 8);
    WrittenCut(b, at + 8, s.author, 8);
    WrittenCut(b, at + 18, s.strokeOrder, 8);
    assert b[at + 16 + 0] as nat == (Raw(s).color as nat / Pow256(0)) % 256;
    assert b[at + 17 + 0] as nat == (Raw(s).thickness as nat / Pow256(0)) % 256;
  }

  lemma {:induction false} RawsAreSaved(b: seq<Byte>, at: nat, ss: seq<Stroke>)
    requires StrokesWritten(b, at, Raws(ss))
    ensures AllSavedAt(b, at, ss)
    decreases |ss|
  {
    if ss != [] {
      assert Raws(ss)[1..] == Raws(ss[1..]);
      RawIsSaved(b, at, ss[0]);
      RawsAreSaved(b, at + 31 + 8 * |ss[0].points|, ss[1..]);
    }
  }

  /** The blob of a room's strokes, field by field. */
  lemma {:induction false} SavedBlob(ss: seq<Stroke>)
    ensures
      var b := Encode(Raws(ss));
      && |b| == EndOf(8, Raws(ss)) && IsVersionOne(b) && WrittenAt(b, 4, |ss|, 4) && AllSavedAt(b, 8, ss)
  {
    EncoderWrites(Raws(ss));
    RawsAreSaved(Encode(Raws(ss)), 8, ss);
  }
}
