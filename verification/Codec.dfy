/** The binary form of a stroke list: what the encoder writes and what the decoder accepts. */
module Codec {
  import opened Types

  newtype U64 = x: int | 0 <= x < 0x1_0000_0000_0000_0000

  const U32_SIZE: nat := 0x1_0000_0000

  /** A stroke as the codec sees it: colour and thickness are plain bytes. */
  datatype RawStroke = RawStroke(id: U64, author: U64, color: Byte, thickness: Byte, strokeOrder: U64,
                                 points: seq<Point>, finished: bool)

  const U64_SIZE: nat := 0x1_0000_0000_0000_0000

  function ColorByte(c: Color): Byte {
    match c
    case Black => 0
    case Red => 1
    case Green => 2
    case Blue => 3
  }

  function ThicknessByte(t: Thickness): Byte {
    match t
    case Thin => 0
    case Medium => 1
    case Thick => 2
  }

  /** The casts made on the way into the blob; numbers are cut to 64 bits. */
  function Raw(s: Stroke): RawStroke {
    RawStroke((s.id % U64_SIZE) as U64, (s.author % U64_SIZE) as U64, ColorByte(s.color), ThicknessByte(s.thickness),
              (s.strokeOrder % U64_SIZE) as U64, s.points, s.finished)
  }

  function Raws(ss: seq<Stroke>): (r: seq<RawStroke>)
    ensures |r| == |ss|
    ensures forall i :: 0 <= i < |ss| ==> r[i] == Raw(ss[i])
  {
    seq(|ss|, i requires 0 <= i < |ss| => Raw(ss[i]))
  }

  /** The counters are 64 bits wide in the server. */
  ghost predicate In64Bits(ss: seq<Stroke>) {
    forall i :: 0 <= i < |ss| ==> ss[i].id < U64_SIZE && ss[i].author < U64_SIZE && ss[i].strokeOrder < U64_SIZE
  }

  lemma RawsInjective(ss: seq<Stroke>, tt: seq<Stroke>)
    requires In64Bits(ss) && In64Bits(tt) && Raws(ss) == Raws(tt)
    ensures ss == tt
  {
    forall i | 0 <= i < |ss| ensures ss[i] == tt[i] {
      assert Raws(ss)[i] == Raws(tt)[i];
    }
  }

  const VERSION: nat := 1

  // ----- Little-endian numbers -----

  function Pow256(n: nat): (r: nat)
    ensures r >= 1
  {
    if n == 0 then 1 else 256 * Pow256(n - 1)
  }

  /** The `n` low bytes of `v`, least significant first. */
  function LE(v: nat, n: nat): (b: seq<Byte>)
    ensures |b| == n
  {
    if n == 0 then [] else [(v % 256) as Byte] + LE(v / 256, n - 1)
  }

  function FromLE(b: seq<Byte>): (v: nat)
    ensures v < Pow256(|b|)
  {
    if b == [] then 0 else b[0] as nat + 256 * FromLE(b[1..])
  }

  lemma {:induction false} FromLEInverse(v: nat, n: nat)
    requires v < Pow256(n)
    ensures FromLE(LE(v, n)) == v
  {
    if n > 0 {
      FromLEInverse(v / 256, n - 1);
      assert LE(v, n)[1..] == LE(v / 256, n - 1);
    }
  }

  lemma LowByte(x: Byte, high: nat)
    ensures (x as nat + 256 * high) % 256 == x as nat && (x as nat + 256 * high) / 256 == high
  {
  }

  lemma {:induction false} LEInverse(b: seq<Byte>)
    ensures LE(FromLE(b), |b|) == b
  {
    if b != [] {
      LowByte(b[0], FromLE(b[1..]));
      LEInverse(b[1..]);
    }
  }

  lemma PowersOf256()
    ensures Pow256(1) == 0x100 && Pow256(4) == U32_SIZE && Pow256(8) == 0x1_0000_0000_0000_0000
  {
    assert Pow256(2) == 0x1_0000;
    assert Pow256(3) == 0x100_0000;
    assert Pow256(5) == 0x100_0000_0000;
    assert Pow256(6) == 0x1_0000_0000_0000;
    assert Pow256(7) == 0x100_0000_0000_0000;
  }

  // ----- Encoding -----

  function Flag(b: bool): nat {
    if b then 1 else 0
  }

  /** Numbers one after another, each in its own width. */
  function Fields(values: seq<nat>, widths: seq<nat>): seq<Byte>
    requires |values| == |widths|
  {
    if widths == [] then [] else LE(values[0], widths[0]) + Fields(values[1..], widths[1..])
  }

  const POINT_WIDTHS: seq<nat> := [4] + [4]

  /** id, author, colour, thickness, strokeOrder, finished, number of points. */
  const HEAD_WIDTHS: seq<nat> := [8, 8] + [1, 1] + [8, 1] + [4]

  function PointValues(p: Point): (v: seq<nat>)
    ensures |v| == |POINT_WIDTHS|
  {
    [p.x as nat, p.y as nat]
  }

  /** Counts are cast to 32 bits. */
  function HeadValues(s: RawStroke): (v: seq<nat>)
    ensures |v| == |HEAD_WIDTHS|
  {
    [s.id as nat, s.author as nat, s.color as nat, s.thickness as nat, s.strokeOrder as nat, Flag(s.finished), |s.points| % U32_SIZE]
  }

  function EncodePoints(ps: seq<Point>): seq<Byte> {
    if ps == [] then [] else Fields(PointValues(ps[0]), POINT_WIDTHS) + EncodePoints(ps[1..])
  }

  function EncodeStroke(s: RawStroke): seq<Byte> {
    Fields(HeadValues(s), HEAD_WIDTHS) + EncodePoints(s.points)
  }

  function EncodeStrokes(ss: seq<RawStroke>): seq<Byte> {
    if ss == [] then [] else EncodeStroke(ss[0]) + EncodeStrokes(ss[1..])
  }

  function Blob(version: nat, count: nat, body: seq<Byte>): seq<Byte> {
    LE(version, 4) + (LE(count, 4) + body)
  }

  /** The stroke count is cast to 32 bits. */
  function Encode(ss: seq<RawStroke>): seq<Byte> {
    Blob(VERSION, |ss| % U32_SIZE, EncodeStrokes(ss))
  }

  // ----- Decoding -----

  /** What is read off the front of a byte string, and what remains. */
  datatype Parsed<+T> = Got(value: T, rest: seq<Byte>) | Short {
    predicate IsFailure() {
      Short?
    }

    function PropagateFailure<U>(): Parsed<U>
      requires Short?
    {
      Short
    }

    function Extract(): (T, seq<Byte>)
      requires Got?
    {
      (value, rest)
    }
  }

  datatype DecodeError = Corrupted | UnsupportedVersion | TrailingBytes

  datatype Decoded = Strokes(strokes: seq<RawStroke>) | Failed(error: DecodeError)

  function TakeLE(b: seq<Byte>, n: nat): (r: Parsed<nat>)
    ensures r.Got? ==> r.value < Pow256(n)
  {
    if |b| < n then Short else Got(FromLE(b[..n]), b[n..])
  }

  ghost predicate InWidths(values: seq<nat>, widths: seq<nat>) {
    |values| == |widths| && forall i :: 0 <= i < |values| ==> values[i] < Pow256(widths[i])
  }

  function TakeFields(b: seq<Byte>, widths: seq<nat>): (r: Parsed<seq<nat>>)
    ensures r.Got? ==> InWidths(r.value, widths)
    decreases |widths|
  {
    if widths == [] then Got([], b)
    else
      var (v, b1) :- TakeLE(b, widths[0]);
      var (vs, b2) :- TakeFields(b1, widths[1..]);
      Got([v] + vs, b2)
  }

  function PointOf(v: seq<nat>): Point
    requires InWidths(v, POINT_WIDTHS)
  {
    PowersOf256();
    Point(v[0] as Bits32, v[1] as Bits32)
  }

  /** Any nonzero byte reads as finished. */
  function StrokeOf(v: seq<nat>, points: seq<Point>): RawStroke
    requires InWidths(v, HEAD_WIDTHS)
  {
    PowersOf256();
    RawStroke(v[0] as U64, v[1] as U64, v[2] as Byte, v[3] as Byte, v[4] as U64, points, v[5] != 0)
  }

  function TakePoints(b: seq<Byte>, count: nat): Parsed<seq<Point>>
    decreases count
  {
    if count == 0 then Got([], b)
    else
      var (v, b1) :- TakeFields(b, POINT_WIDTHS);
      var (ps, b2) :- TakePoints(b1, count - 1);
      Got([PointOf(v)] + ps, b2)
  }

  function TakeStroke(b: seq<Byte>): Parsed<RawStroke> {
    var (v, b1) :- TakeFields(b, HEAD_WIDTHS);
    var (points, b2) :- TakePoints(b1, v[6]);
    Got(StrokeOf(v, points), b2)
  }

  function TakeStrokes(b: seq<Byte>, count: nat): Parsed<seq<RawStroke>>
    decreases count
  {
    if count == 0 then Got([], b)
    else
      var (s, b1) :- TakeStroke(b);
      var (ss, b2) :- TakeStrokes(b1, count - 1);
      Got([s] + ss, b2)
  }

  function Decode(b: seq<Byte>): Decoded {
    var version := TakeLE(b, 4);
    if version.Short? then Failed(Corrupted)
    else if version.value != VERSION then Failed(UnsupportedVersion)
    else
      var count := TakeLE(version.rest, 4);
      if count.Short? then Failed(Corrupted)
      else
        var body := TakeStrokes(count.rest, count.value);
        if body.Short? then Failed(Corrupted)
        else if body.rest != [] then Failed(TrailingBytes)
        else Strokes(body.value)
  }

  // ----- Decoding what was encoded -----

  lemma SmallCount(n: nat)
    ensures n < U32_SIZE ==> n % U32_SIZE == n
    ensures n % U32_SIZE < Pow256(4) && VERSION < Pow256(4)
  {
    PowersOf256();
  }

  lemma TakeWritten(v: nat, n: nat, rest: seq<Byte>)
    requires v < Pow256(n)
    ensures TakeLE(LE(v, n) + rest, n) == Got(v, rest)
  {
    FromLEInverse(v, n);
    assert (LE(v, n) + rest)[..n] == LE(v, n);
  }

  lemma {:induction false} TakeFieldsWritten(values: seq<nat>, widths: seq<nat>, rest: seq<Byte>)
    requires InWidths(values, widths)
    ensures TakeFields(Fields(values, widths) + rest, widths) == Got(values, rest)
    decreases |widths|
  {
    if widths == [] {
      assert [] + rest == rest;
    } else {
      var tail := Fields(values[1..], widths[1..]);
      assert LE(values[0], widths[0]) + tail + rest == LE(values[0], widths[0]) + (tail + rest);
      TakeWritten(values[0], widths[0], tail + rest);
      TakeFieldsWritten(values[1..], widths[1..], rest);
      assert values == [values[0]] + values[1..];
    }
  }

  lemma PointInWidths(p: Point)
    ensures InWidths(PointValues(p), POINT_WIDTHS) && PointOf(PointValues(p)) == p
  {
    PowersOf256();
  }

  lemma HeadInWidths(s: RawStroke)
    ensures InWidths(HeadValues(s), HEAD_WIDTHS) && StrokeOf(HeadValues(s), s.points) == s
  {
    PowersOf256();
  }

  lemma {:induction false} TakePointsWritten(ps: seq<Point>, rest: seq<Byte>)
    ensures TakePoints(EncodePoints(ps) + rest, |ps|) == Got(ps, rest)
  {
    if ps == [] {
      assert [] + rest == rest;
    } else {
      var head, tail := Fields(PointValues(ps[0]), POINT_WIDTHS), EncodePoints(ps[1..]);
      assert head + tail + rest == head + (tail + rest);
      PointInWidths(ps[0]);
      TakeFieldsWritten(PointValues(ps[0]), POINT_WIDTHS, tail + rest);
      TakePointsWritten(ps[1..], rest);
      assert ps == [ps[0]] + ps[1..];
    }
  }

  lemma TakeStrokeWritten(s: RawStroke, rest: seq<Byte>)
    requires |s.points| < U32_SIZE
    ensures TakeStroke(EncodeStroke(s) + rest) == Got(s, rest)
  {
    var head, tail := Fields(HeadValues(s), HEAD_WIDTHS), EncodePoints(s.points);
    assert head + tail + rest == head + (tail + rest);
    HeadInWidths(s);
    TakeFieldsWritten(HeadValues(s), HEAD_WIDTHS, tail + rest);
    TakePointsWritten(s.points, rest);
  }

  /** Every point count fits the 32 bits it is written in. */
  predicate PointsFit(ss: seq<RawStroke>) {
    forall i :: 0 <= i < |ss| ==> |ss[i].points| < U32_SIZE
  }

  lemma {:induction false} TakeStrokesWritten(ss: seq<RawStroke>, rest: seq<Byte>)
    requires PointsFit(ss)
    ensures TakeStrokes(EncodeStrokes(ss) + rest, |ss|) == Got(ss, rest)
  {
    if ss == [] {
      assert [] + rest == rest;
    } else {
      assert EncodeStrokes(ss) + rest == EncodeStroke(ss[0]) + (EncodeStrokes(ss[1..]) + rest);
      TakeStrokeWritten(ss[0], EncodeStrokes(ss[1..]) + rest);
      TakeStrokesWritten(ss[1..], rest);
      assert ss == [ss[0]] + ss[1..];
    }
  }

  lemma DecodeSteps(b: seq<Byte>, version: nat, b1: seq<Byte>, count: nat, b2: seq<Byte>, ss: seq<RawStroke>)
    requires TakeLE(b, 4) == Got(version, b1) && version == VERSION
    requires TakeLE(b1, 4) == Got(count, b2)
    requires TakeStrokes(b2, count) == Got(ss, [])
    ensures Decode(b) == Strokes(ss)
  {
  }

  lemma BlobStarts(version: nat, count: nat, body: seq<Byte>, blob: seq<Byte>)
    requires version < Pow256(4) && count < Pow256(4)
    requires blob == Blob(version, count, body)
    ensures TakeLE(blob, 4) == Got(version, LE(count, 4) + body)
    ensures TakeLE(LE(count, 4) + body, 4) == Got(count, body)
  {
    TakeWritten(version, 4, LE(count, 4) + body);
    TakeWritten(count, 4, body);
  }

  lemma BodyTaken(ss: seq<RawStroke>)
    requires PointsFit(ss)
    ensures TakeStrokes(EncodeStrokes(ss), |ss|) == Got(ss, [])
  {
    TakeStrokesWritten(ss, []);
    assert EncodeStrokes(ss) + [] == EncodeStrokes(ss);
  }

  lemma RoundTrip(ss: seq<RawStroke>)
    requires PointsFit(ss) && |ss| < U32_SIZE
    ensures Decode(Encode(ss)) == Strokes(ss)
  {
    SmallCount(|ss|);
    BlobStarts(VERSION, |ss|, EncodeStrokes(ss), Encode(ss));
    BodyTaken(ss);
    DecodeSteps(Encode(ss), VERSION, LE(|ss|, 4) + EncodeStrokes(ss), |ss|, EncodeStrokes(ss), ss);
  }

  // ----- Nothing but what fits is ever decoded -----

  lemma {:induction false} TakenPointsCount(b: seq<Byte>, count: nat)
    ensures TakePoints(b, count).Got? ==> |TakePoints(b, count).value| == count
    decreases count
  {
    if count > 0 && TakeFields(b, POINT_WIDTHS).Got? {
      TakenPointsCount(TakeFields(b, POINT_WIDTHS).rest, count - 1);
    }
  }

  lemma TakenStrokeFits(b: seq<Byte>)
    ensures TakeStroke(b).Got? ==> |TakeStroke(b).value.points| < U32_SIZE
  {
    var head := TakeFields(b, HEAD_WIDTHS);
    if head.Got? {
      PowersOf256();
      TakenPointsCount(head.rest, head.value[6]);
    }
  }

  lemma {:induction false} TakenStrokesFit(b: seq<Byte>, count: nat)
    ensures TakeStrokes(b, count).Got? ==> |TakeStrokes(b, count).value| == count && PointsFit(TakeStrokes(b, count).value)
    decreases count
  {
    if count > 0 && TakeStroke(b).Got? {
      TakenStrokeFits(b);
      TakenStrokesFit(TakeStroke(b).rest, count - 1);
    }
  }

  lemma DecodedFits(b: seq<Byte>)
    ensures Decode(b).Strokes? ==> |Decode(b).strokes| < U32_SIZE && PointsFit(Decode(b).strokes)
  {
    PowersOf256();
    if Decode(b).Strokes? {
      var count := TakeLE(b[4..], 4);
      TakenStrokesFit(count.rest, count.value);
    }
  }

  /** The decoder undoes the encoder exactly when all the counts fit 32 bits. */
  lemma RoundTripIff(ss: seq<RawStroke>)
    ensures Decode(Encode(ss)) == Strokes(ss) <==> |ss| < U32_SIZE && PointsFit(ss)
  {
    if |ss| < U32_SIZE && PointsFit(ss) {
      RoundTrip(ss);
    } else {
      DecodedFits(Encode(ss));
    }
  }

  lemma EncodeInjective(ss: seq<RawStroke>, tt: seq<RawStroke>)
    requires |ss| < U32_SIZE && PointsFit(ss) && |tt| < U32_SIZE && PointsFit(tt)
    requires Encode(ss) == Encode(tt)
    ensures ss == tt
  {
    RoundTrip(ss);
    RoundTrip(tt);
  }

  // ----- Size -----

  function StrokeSize(s: RawStroke): nat {
    31 + 8 * |s.points|
  }

  function Size(ss: seq<RawStroke>): nat {
    if ss == [] then 0 else StrokeSize(ss[0]) + Size(ss[1..])
  }

  function Total(widths: seq<nat>): nat {
    if widths == [] then 0 else widths[0] + Total(widths[1..])
  }

  lemma {:induction false} FieldsSize(values: seq<nat>, widths: seq<nat>)
    requires |values| == |widths|
    ensures |Fields(values, widths)| == Total(widths)
    decreases |widths|
  {
    if widths != [] {
      FieldsSize(values[1..], widths[1..]);
    }
  }

  lemma PointSize(p: Point)
    ensures |Fields(PointValues(p), POINT_WIDTHS)| == 8
  {
    FieldsSize(PointValues(p), POINT_WIDTHS);
    var widths: seq<nat> := [4, 4];
    assert POINT_WIDTHS == widths && Total(widths) == 8;
  }

  lemma HeadSize(s: RawStroke)
    ensures |Fields(HeadValues(s), HEAD_WIDTHS)| == 31
  {
    FieldsSize(HeadValues(s), HEAD_WIDTHS);
    var widths: seq<nat> := [8, 8, 1, 1, 8, 1, 4];
    assert HEAD_WIDTHS == widths && Total(widths) == 31;
  }

  lemma {:induction false} PointsSize(ps: seq<Point>)
    ensures |EncodePoints(ps)| == 8 * |ps|
  {
    if ps != [] {
      PointSize(ps[0]);
      PointsSize(ps[1..]);
    }
  }

  lemma {:induction false} StrokesSize(ss: seq<RawStroke>)
    ensures |EncodeStrokes(ss)| == Size(ss)
  {
    if ss != [] {
      HeadSize(ss[0]);
      PointsSize(ss[0].points);
      StrokesSize(ss[1..]);
    }
  }

  lemma BlobSize(ss: seq<RawStroke>)
    ensures |Encode(ss)| == 8 + Size(ss)
  {
    StrokesSize(ss);
  }

  // ----- Longer and shorter blobs -----

  lemma TakeExtends(b: seq<Byte>, e: seq<Byte>, n: nat)
    requires TakeLE(b, n).Got?
    ensures TakeLE(b + e, n) == Got(TakeLE(b, n).value, TakeLE(b, n).rest + e)
  {
    assert (b + e)[..n] == b[..n] && (b + e)[n..] == b[n..] + e;
  }

  lemma {:induction false} FieldsExtend(b: seq<Byte>, e: seq<Byte>, widths: seq<nat>)
    requires TakeFields(b, widths).Got?
    ensures TakeFields(b + e, widths) == Got(TakeFields(b, widths).value, TakeFields(b, widths).rest + e)
    decreases |widths|
  {
    if widths != [] {
      TakeExtends(b, e, widths[0]);
      FieldsExtend(TakeLE(b, widths[0]).rest, e, widths[1..]);
    }
  }

  lemma {:induction false} PointsExtend(b: seq<Byte>, e: seq<Byte>, count: nat)
    requires TakePoints(b, count).Got?
    ensures TakePoints(b + e, count) == Got(TakePoints(b, count).value, TakePoints(b, count).rest + e)
    decreases count
  {
    if count > 0 {
      FieldsExtend(b, e, POINT_WIDTHS);
      PointsExtend(TakeFields(b, POINT_WIDTHS).rest, e, count - 1);
    }
  }

  lemma StrokeExtends(b: seq<Byte>, e: seq<Byte>)
    requires TakeStroke(b).Got?
    ensures TakeStroke(b + e) == Got(TakeStroke(b).value, TakeStroke(b).rest + e)
  {
    FieldsExtend(b, e, HEAD_WIDTHS);
    PointsExtend(TakeFields(b, HEAD_WIDTHS).rest, e, TakeFields(b, HEAD_WIDTHS).value[6]);
  }

  lemma {:induction false} StrokesExtend(b: seq<Byte>, e: seq<Byte>, count: nat)
    requires TakeStrokes(b, count).Got?
    ensures TakeStrokes(b + e, count) == Got(TakeStrokes(b, count).value, TakeStrokes(b, count).rest + e)
    decreases count
  {
    if count > 0 {
      StrokeExtends(b, e);
      StrokesExtend(TakeStroke(b).rest, e, count - 1);
    }
  }

  /** A blob with anything after it is refused for its trailing bytes. */
  lemma ExtensionRefused(b: seq<Byte>, e: seq<Byte>)
    requires Decode(b).Strokes? || Decode(b) == Failed(TrailingBytes)
    requires e != []
    ensures Decode(b + e) == Failed(TrailingBytes)
  {
    TakeExtends(b, e, 4);
    TakeExtends(b[4..], e, 4);
    StrokesExtend(b[4..][4..], e, FromLE(b[4..][..4]));
  }

  lemma VersionExtends(b: seq<Byte>, e: seq<Byte>)
    requires Decode(b) == Failed(UnsupportedVersion)
    ensures Decode(b + e) == Failed(UnsupportedVersion)
  {
    TakeExtends(b, e, 4);
  }

  /** Every strict prefix of an accepted blob is refused as corrupted, every strict extension for its trailing bytes. */
  lemma PrefixFree(b: seq<Byte>, k: nat, e: seq<Byte>)
    requires Decode(b).Strokes? && k < |b| && e != []
    ensures Decode(b[..k]) == Failed(Corrupted)
    ensures Decode(b + e) == Failed(TrailingBytes)
  {
    ExtensionRefused(b, e);
    var short := b[..k];
    assert b == short + b[k..];
    match Decode(short)
    case Strokes(_) => ExtensionRefused(short, b[k..]);
    case Failed(TrailingBytes) => ExtensionRefused(short, b[k..]);
    case Failed(UnsupportedVersion) => VersionExtends(short, b[k..]);
    case Failed(Corrupted) =>
  }

  // ----- Canonical form -----

  /** Offset 26 of a stroke holds its `finished` byte. */
  const FINISHED_AT: nat := 26

  /** Offset `k` of the encoded strokes is some stroke's `finished` byte. */
  predicate IsFinishedByte(ss: seq<RawStroke>, k: nat) {
    ss != [] && (k == FINISHED_AT || (k >= StrokeSize(ss[0]) && IsFinishedByte(ss[1..], k - StrokeSize(ss[0]))))
  }

  /** A nonzero `finished` byte is written back as 1, any other byte as it is. */
  function Rewritten(x: Byte, finished: bool): Byte {
    if finished && x != 0 then 1 else x
  }

  lemma TakenIsPrefix(b: seq<Byte>, n: nat)
    requires TakeLE(b, n).Got?
    ensures b == LE(TakeLE(b, n).value, n) + TakeLE(b, n).rest
  {
    LEInverse(b[..n]);
  }

  lemma {:induction false} FieldsArePrefix(b: seq<Byte>, widths: seq<nat>)
    requires TakeFields(b, widths).Got?
    ensures b == Fields(TakeFields(b, widths).value, widths) + TakeFields(b, widths).rest
    decreases |widths|
  {
    if widths != [] {
      TakenIsPrefix(b, widths[0]);
      FieldsArePrefix(TakeLE(b, widths[0]).rest, widths[1..]);
    }
  }

  lemma PointReadBack(v: seq<nat>)
    requires InWidths(v, POINT_WIDTHS)
    ensures PointValues(PointOf(v)) == v
  {
    PowersOf256();
  }

  lemma {:induction false} PointsArePrefix(b: seq<Byte>, count: nat)
    requires TakePoints(b, count).Got?
    ensures b == EncodePoints(TakePoints(b, count).value) + TakePoints(b, count).rest
    decreases count
  {
    if count > 0 {
      var first := TakeFields(b, POINT_WIDTHS);
      FieldsArePrefix(b, POINT_WIDTHS);
      PointReadBack(first.value);
      PointsArePrefix(first.rest, count - 1);
      var ps := TakePoints(first.rest, count - 1).value;
      assert ([PointOf(first.value)] + ps)[1..] == ps;
    }
  }

  lemma {:induction false} FieldsConcat(v: seq<nat>, x: seq<nat>, w: seq<nat>, y: seq<nat>)
    requires |v| == |w| && |x| == |y|
    ensures Fields(v + x, w + y) == Fields(v, w) + Fields(x, y)
    decreases |v|
  {
    if v == [] {
      assert v + x == x && w + y == y;
    } else {
      assert (v + x)[1..] == v[1..] + x && (w + y)[1..] == w[1..] + y;
      FieldsConcat(v[1..], x, w[1..], y);
    }
  }

  const BEFORE_FINISHED: seq<nat> := [8, 8] + [1, 1] + [8]
  const AFTER_FINISHED: seq<nat> := [4] + []

  /** A stroke's head is what comes before its `finished` byte, that byte, and its point count. */
  lemma HeadSplit(v: seq<nat>)
    requires |v| == |HEAD_WIDTHS|
    ensures Fields(v, HEAD_WIDTHS) == Fields(v[..5], BEFORE_FINISHED) + ([(v[5] % 256) as Byte] + Fields(v[6..], AFTER_FINISHED))
    ensures |Fields(v[..5], BEFORE_FINISHED)| == FINISHED_AT
  {
    var one: seq<nat> := [1];
    assert HEAD_WIDTHS == BEFORE_FINISHED + (one + AFTER_FINISHED);
    assert v == v[..5] + ([v[5]] + v[6..]);
    FieldsConcat(v[..5], [v[5]] + v[6..], BEFORE_FINISHED, one + AFTER_FINISHED);
    FieldsConcat([v[5]], v[6..], one, AFTER_FINISHED);
    assert Fields([v[5]], one) == [(v[5] % 256) as Byte];
    FieldsSize(v[..5], BEFORE_FINISHED);
    var widths: seq<nat> := [8, 8, 1, 1, 8];
    assert BEFORE_FINISHED == widths && Total(widths) == 26;
  }

  /** Re-encoding a stroke that was read gives the bytes it was read from, its `finished` byte made 0 or 1. */
  lemma StrokeCanonical(b: seq<Byte>)
    requires TakeStroke(b).Got?
    ensures
      var s := TakeStroke(b).value;
      && |EncodeStroke(s)| == StrokeSize(s) <= |b|
      && TakeStroke(b).rest == b[StrokeSize(s)..]
      && forall k :: 0 <= k < StrokeSize(s) ==> EncodeStroke(s)[k] == Rewritten(b[k], k == FINISHED_AT)
  {
    var s := TakeStroke(b).value;
    var v := TakeFields(b, HEAD_WIDTHS).value;
    var b1 := TakeFields(b, HEAD_WIDTHS).rest;
    FieldsArePrefix(b, HEAD_WIDTHS);
    PointsArePrefix(b1, v[6]);
    TakenPointsCount(b1, v[6]);
    HeadSize(s);
    PointsSize(s.points);
    HeadReadBack(v, s.points);
    FieldsSize(v, HEAD_WIDTHS);
    FieldsSize(HeadValues(s), HEAD_WIDTHS);
    BytesReadBack(b, Fields(v, HEAD_WIDTHS), Fields(HeadValues(s), HEAD_WIDTHS), EncodePoints(s.points), TakeStroke(b).rest);
  }

  lemma HeadReadBack(v: seq<nat>, points: seq<Point>)
    requires InWidths(v, HEAD_WIDTHS) && |points| == v[6]
    ensures
      var out := Fields(HeadValues(StrokeOf(v, points)), HEAD_WIDTHS);
      var in_ := Fields(v, HEAD_WIDTHS);
      && |out| == |in_| && |in_| > FINISHED_AT
      && forall k :: 0 <= k < |out| ==> out[k] == Rewritten(in_[k], k == FINISHED_AT)
  {
    PowersOf256();
    var w := HeadValues(StrokeOf(v, points));
    assert v[..5] == w[..5] && v[6..] == w[6..];
    HeadSplit(v);
    HeadSplit(w);
  }

  lemma BytesReadBack(b: seq<Byte>, in_: seq<Byte>, out: seq<Byte>, points: seq<Byte>, rest: seq<Byte>)
    requires b == in_ + (points + rest) && |out| == |in_| && FINISHED_AT < |in_|
    requires forall k :: 0 <= k < |out| ==> out[k] == Rewritten(in_[k], k == FINISHED_AT)
    ensures |out + points| <= |b| && b[|out + points|..] == rest
    ensures forall k :: 0 <= k < |out + points| ==> (out + points)[k] == Rewritten(b[k], k == FINISHED_AT)
  {
  }

  lemma ConsReadBack(b: seq<Byte>, s: RawStroke, tail: seq<RawStroke>, head: seq<Byte>, out: seq<Byte>)
    requires |head| == StrokeSize(s) <= |b| && |out| == Size(tail) <= |b| - |head|
    requires forall k :: 0 <= k < |head| ==> head[k] == Rewritten(b[k], k == FINISHED_AT)
    requires forall k :: 0 <= k < |out| ==> out[k] == Rewritten(b[|head|..][k], IsFinishedByte(tail, k))
    ensures Size([s] + tail) == |head + out|
    ensures forall k :: 0 <= k < |head + out| ==> (head + out)[k] == Rewritten(b[k], IsFinishedByte([s] + tail, k))
  {
    assert ([s] + tail)[1..] == tail;
    forall k | 0 <= k < |head + out| ensures (head + out)[k] == Rewritten(b[k], IsFinishedByte([s] + tail, k)) {
      if k >= |head| {
        assert b[k] == b[|head|..][k - |head|];
      }
    }
  }

  lemma {:induction false} StrokesCanonical(b: seq<Byte>, count: nat)
    requires TakeStrokes(b, count).Got?
    ensures
      var ss := TakeStrokes(b, count).value;
      && |EncodeStrokes(ss)| == Size(ss) <= |b|
      && TakeStrokes(b, count).rest == b[Size(ss)..]
      && forall k :: 0 <= k < Size(ss) ==> EncodeStrokes(ss)[k] == Rewritten(b[k], IsFinishedByte(ss, k))
    decreases count
  {
    if count > 0 {
      var first := TakeStroke(b);
      StrokeCanonical(b);
      StrokesCanonical(first.rest, count - 1);
      var tail := TakeStrokes(first.rest, count - 1).value;
      assert ([first.value] + tail)[1..] == tail;
      ConsReadBack(b, first.value, tail, EncodeStroke(first.value), EncodeStrokes(tail));
    }
  }

  lemma CanonicalParts(b: seq<Byte>, version: nat, b1: seq<Byte>, count: nat, b2: seq<Byte>, ss: seq<RawStroke>)
    requires TakeLE(b, 4) == Got(version, b1) && TakeLE(b1, 4) == Got(count, b2) && TakeStrokes(b2, count) == Got(ss, [])
    ensures |ss| == count < Pow256(4)
    ensures
      var whole := Blob(version, count, EncodeStrokes(ss));
      && |whole| == |b|
      && forall k :: 0 <= k < |b| ==> whole[k] == Rewritten(b[k], k >= 8 && IsFinishedByte(ss, k - 8))
  {
    TakenIsPrefix(b, 4);
    TakenIsPrefix(b1, 4);
    TakenStrokesFit(b2, count);
    StrokesCanonical(b2, count);
    BlobReadBack(b, LE(version, 4), LE(count, 4), b2, EncodeStrokes(ss), ss);
  }

  lemma AcceptedBlob(b: seq<Byte>, version: Parsed<nat>, count: Parsed<nat>)
    requires Decode(b).Strokes? && version == TakeLE(b, 4) && (version.Got? ==> count == TakeLE(version.rest, 4))
    ensures version.Got? && version.value == VERSION
    ensures count.Got? && TakeStrokes(count.rest, count.value) == Got(Decode(b).strokes, [])
  {
  }

  lemma EncodeParts(ss: seq<RawStroke>, version: nat, count: nat)
    requires version == VERSION && |ss| % U32_SIZE == count
    ensures Encode(ss) == Blob(version, count, EncodeStrokes(ss))
  {
  }

  /** Re-encoding an accepted blob reproduces it byte for byte, except that each nonzero `finished` byte becomes 1. */
  lemma Canonical(b: seq<Byte>)
    requires Decode(b).Strokes?
    ensures
      var ss := Decode(b).strokes;
      && |Encode(ss)| == |b|
      && forall k :: 0 <= k < |b| ==> Encode(ss)[k] == Rewritten(b[k], k >= 8 && IsFinishedByte(ss, k - 8))
  {
    var version := TakeLE(b, 4);
    var count := if version.Got? then TakeLE(version.rest, 4) else Short;
    var ss := Decode(b).strokes;
    AcceptedBlob(b, version, count);
    CanonicalParts(b, version.value, version.rest, count.value, count.rest, ss);
    DecodedFits(b);
    SmallCount(|ss|);
    EncodeParts(ss, version.value, count.value);
  }

  lemma BlobReadBack(b: seq<Byte>, version: seq<Byte>, count: seq<Byte>, body: seq<Byte>, out: seq<Byte>, ss: seq<RawStroke>)
    requires b == version + (count + body) && |version| == |count| == 4 && |out| == |body|
    requires forall k :: 0 <= k < |out| ==> out[k] == Rewritten(body[k], IsFinishedByte(ss, k))
    ensures
      var whole := version + (count + out);
      && |whole| == |b|
      && forall k :: 0 <= k < |b| ==> whole[k] == Rewritten(b[k], k >= 8 && IsFinishedByte(ss, k - 8))
  {
  }
}
