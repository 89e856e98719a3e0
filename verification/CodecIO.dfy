/** The encoder, which appends to a growing buffer, and the decoder, which advances a
    cursor; proved against the functions of Codec. */
module CodecIO {
  import opened Types
  import opened Codec

  class ByteBuffer {
    var bytes: seq<Byte>

    constructor ()
      ensures bytes == []
    {
      bytes := [];
    }

    /** Appends the `n` bytes of a fixed-width number. */
    method AppendLE(v: nat, n: nat)
      requires v < Pow256(n)
      modifies this
      ensures bytes == old(bytes) + LE(v, n)
    {
      var rest := v;
      var i := 0;
      while i < n
        invariant 0 <= i <= n
        invariant bytes + LE(rest, n - i) == old(bytes) + LE(v, n)
      {
        ghost var before := bytes;
        bytes := bytes + [(rest % 256) as Byte];
        assert before + LE(rest, n - i) == bytes + LE(rest / 256, n - i - 1);
        rest := rest / 256;
        i := i + 1;
      }
      assert bytes + LE(rest, 0) == bytes;
    }
  }

  /** A cursor over a blob: what is before `pos` has been read. */
  class Reader {
    const data: seq<Byte>
    var pos: nat

    ghost predicate Valid()
      reads this
    {
      pos <= |data|
    }

    ghost function Rest(): seq<Byte>
      requires Valid()
      reads this
    {
      data[pos..]
    }

    constructor (data: seq<Byte>)
      ensures Valid() && this.data == data && Rest() == data
    {
      this.data := data;
      pos := 0;
    }

    /** Reads a number of `n` bytes, or reports that fewer are left and reads nothing. */
    method ReadLE(n: nat) returns (v: Option<nat>)
      requires Valid()
      modifies this`pos
      ensures Valid()
      ensures match TakeLE(old(Rest()), n)
              case Got(value, rest) => v == Some(value) && Rest() == rest
              case Short => v == None && Rest() == old(Rest())
    {
      if |data| - pos < n {
        return None;
      }
      var value := 0;
      var i := n;
      while i > 0
        invariant 0 <= i <= n
        invariant pos + n <= |data|
        invariant value == FromLE(data[pos + i..pos + n])
      {
        i := i - 1;
        value := data[pos + i] as nat + 256 * value;
        assert data[pos + i..pos + n][1..] == data[pos + i + 1..pos + n];
      }
      assert data[pos..][..n] == data[pos..pos + n];
      assert data[pos..][n..] == data[pos + n..];
      pos := pos + n;
      v := Some(value);
    }
  }

  lemma {:induction false} StrokesAppend(ss: seq<RawStroke>, s: RawStroke)
    ensures EncodeStrokes(ss + [s]) == EncodeStrokes(ss) + EncodeStroke(s)
  {
    if ss == [] {
      assert [] + [s] == [s] && [s][1..] == [];
    } else {
      assert (ss + [s])[1..] == ss[1..] + [s];
      StrokesAppend(ss[1..], s);
    }
  }

  lemma {:induction false} PointsAppend(ps: seq<Point>, p: Point)
    ensures EncodePoints(ps + [p]) == EncodePoints(ps) + Fields(PointValues(p), POINT_WIDTHS)
  {
    if ps == [] {
      assert [] + [p] == [p] && [p][1..] == [];
    } else {
      assert (ps + [p])[1..] == ps[1..] + [p];
      PointsAppend(ps[1..], p);
    }
  }

  /** Appending the `i`-th field leaves those after it to be appended. */
  lemma FieldAppended(before: seq<Byte>, v: seq<nat>, w: seq<nat>, i: nat)
    requires |v| == |w| && i < |w|
    ensures before + Fields(v[i..], w[i..]) == before + LE(v[i], w[i]) + Fields(v[i + 1..], w[i + 1..])
  {
    assert v[i..][1..] == v[i + 1..] && w[i..][1..] == w[i + 1..];
  }

  lemma FourAppended(before: seq<Byte>, v: seq<nat>, w: seq<nat>)
    requires |v| == |w| >= 4
    ensures before + Fields(v, w) ==
            before + LE(v[0], w[0]) + LE(v[1], w[1]) + LE(v[2], w[2]) + LE(v[3], w[3]) + Fields(v[4..], w[4..])
  {
    assert v[0..] == v && w[0..] == w;
    var b1 := before + LE(v[0], w[0]);
    var b2 := b1 + LE(v[1], w[1]);
    var b3 := b2 + LE(v[2], w[2]);
    FieldAppended(before, v, w, 0);
    FieldAppended(b1, v, w, 1);
    FieldAppended(b2, v, w, 2);
    FieldAppended(b3, v, w, 3);
  }

  lemma ThreeAppended(before: seq<Byte>, v: seq<nat>, w: seq<nat>)
    requires |v| == |w| == 3
    ensures before + Fields(v, w) == before + LE(v[0], w[0]) + LE(v[1], w[1]) + LE(v[2], w[2])
  {
    assert v[0..] == v && w[0..] == w;
    var b1 := before + LE(v[0], w[0]);
    var b2 := b1 + LE(v[1], w[1]);
    FieldAppended(before, v, w, 0);
    FieldAppended(b1, v, w, 1);
    FieldAppended(b2, v, w, 2);
    assert b2 + LE(v[2], w[2]) + [] == b2 + LE(v[2], w[2]);
  }

  lemma PointAppended(before: seq<Byte>, p: Point)
    ensures before + Fields(PointValues(p), POINT_WIDTHS) == before + LE(p.x as nat, 4) + LE(p.y as nat, 4)
  {
    var v, w := PointValues(p), POINT_WIDTHS;
    assert v[0..] == v && w[0..] == w;
    var b1 := before + LE(v[0], w[0]);
    FieldAppended(before, v, w, 0);
    FieldAppended(b1, v, w, 1);
    assert b1 + LE(v[1], w[1]) + [] == b1 + LE(v[1], w[1]);
  }

  method AppendHead(buf: ByteBuffer, s: RawStroke)
    modifies buf
    ensures buf.bytes == old(buf.bytes) + Fields(HeadValues(s), HEAD_WIDTHS)
  {
    PowersOf256();
    ghost var v, w := HeadValues(s), HEAD_WIDTHS;
    FourAppended(buf.bytes, v, w);
    buf.AppendLE(s.id as nat, 8);
    buf.AppendLE(s.author as nat, 8);
    buf.AppendLE(s.color as nat, 1);
    buf.AppendLE(s.thickness as nat, 1);
    ThreeAppended(buf.bytes, v[4..], w[4..]);
    buf.AppendLE(s.strokeOrder as nat, 8);
    buf.AppendLE(if s.finished then 1 else 0, 1);
    buf.AppendLE(|s.points| % U32_SIZE, 4);
  }

  method AppendPoint(buf: ByteBuffer, p: Point)
    modifies buf
    ensures buf.bytes == old(buf.bytes) + Fields(PointValues(p), POINT_WIDTHS)
  {
    PowersOf256();
    PointAppended(buf.bytes, p);
    buf.AppendLE(p.x as nat, 4);
    buf.AppendLE(p.y as nat, 4);
  }

  method AppendStroke(buf: ByteBuffer, s: RawStroke)
    modifies buf
    ensures buf.bytes == old(buf.bytes) + EncodeStroke(s)
  {
    AppendHead(buf, s);
    ghost var head := buf.bytes;
    assert s.points[..0] == [];
    for j := 0 to |s.points|
      invariant buf.bytes == head + EncodePoints(s.points[..j])
    {
      AppendPoint(buf, s.points[j]);
      PointsAppend(s.points[..j], s.points[j]);
      assert s.points[..j + 1] == s.points[..j] + [s.points[j]];
    }
    assert s.points[..|s.points|] == s.points;
  }

  method AppendStrokes(buf: ByteBuffer, strokes: seq<RawStroke>)
    modifies buf
    ensures buf.bytes == old(buf.bytes) + EncodeStrokes(strokes)
  {
    assert strokes[..0] == [];
    for i := 0 to |strokes|
      invariant buf.bytes == old(buf.bytes) + EncodeStrokes(strokes[..i])
    {
      AppendStroke(buf, strokes[i]);
      StrokesAppend(strokes[..i], strokes[i]);
      assert strokes[..i + 1] == strokes[..i] + [strokes[i]];
    }
    assert strokes[..|strokes|] == strokes;
  }

  /** Counts are cast to 32 bits. */
  method SerializeStrokes(strokes: seq<RawStroke>) returns (blob: seq<Byte>)
    ensures blob == Encode(strokes)
  {
    var version := VERSION;
    var count := |strokes| % U32_SIZE;
    SmallCount(|strokes|);
    var buf := new ByteBuffer();
    buf.AppendLE(version, 4);
    buf.AppendLE(count, 4);
    AppendStrokes(buf, strokes);
    blob := buf.bytes;
    assert blob == Blob(version, count, EncodeStrokes(strokes));
    EncodeParts(strokes, version, count);
  }

  // ----- Reading back -----

  /** What reading on after `done` gives in all. */
  function Continued<T>(done: seq<T>, more: Parsed<seq<T>>): Parsed<seq<T>> {
    if more.Short? then Short else Got(done + more.value, more.rest)
  }

  lemma ContinuedFromStart<T>(more: Parsed<seq<T>>)
    ensures Continued([], more) == more
  {
    assert more.Got? ==> [] + more.value == more.value;
  }

  /** Reading the `i`-th field, those before it being `done`. */
  lemma FieldRead(all: Parsed<seq<nat>>, done: seq<nat>, b: seq<Byte>, w: seq<nat>, i: nat)
    requires i < |w| && all == Continued(done, TakeFields(b, w[i..]))
    ensures match TakeLE(b, w[i])
            case Short => all.Short?
            case Got(v, rest) => all == Continued(done + [v], TakeFields(rest, w[i + 1..]))
  {
    assert w[i..][1..] == w[i + 1..];
    var rest := TakeLE(b, w[i]);
    if rest.Got? && TakeFields(rest.rest, w[i + 1..]).Got? {
      var more := TakeFields(rest.rest, w[i + 1..]).value;
      assert done + ([rest.value] + more) == done + [rest.value] + more;
    }
  }

  /** One field read off the cursor on the way to `all`. */
  method ReadField(r: Reader, n: nat, ghost all: Parsed<seq<nat>>, ghost done: seq<nat>, ghost w: seq<nat>) returns (v: Option<nat>)
    requires r.Valid() && |done| < |w| && n == w[|done|]
    requires all == Continued(done, TakeFields(r.Rest(), w[|done|..]))
    modifies r`pos
    ensures r.Valid()
    ensures v.None? ==> all.Short?
    ensures v.Some? ==> v.value < Pow256(n) && all == Continued(done + [v.value], TakeFields(r.Rest(), w[|done| + 1..]))
  {
    FieldRead(all, done, r.Rest(), w, |done|);
    v := r.ReadLE(n);
  }

  /** Two fields in a row. */
  method ReadPair(r: Reader, n0: nat, n1: nat, ghost all: Parsed<seq<nat>>, ghost done: seq<nat>, ghost w: seq<nat>)
    returns (v: Option<(nat, nat)>)
    requires r.Valid() && |done| + 2 <= |w| && n0 == w[|done|] && n1 == w[|done| + 1]
    requires all == Continued(done, TakeFields(r.Rest(), w[|done|..]))
    modifies r`pos
    ensures r.Valid()
    ensures v.None? ==> all.Short?
    ensures v.Some? ==> v.value.0 < Pow256(n0) && v.value.1 < Pow256(n1)
    ensures v.Some? ==> all == Continued(done + [v.value.0] + [v.value.1], TakeFields(r.Rest(), w[|done| + 2..]))
  {
    var first := ReadField(r, n0, all, done, w);
    if first.None? {
      return None;
    }
    var second := ReadField(r, n1, all, done + [first.value], w);
    if second.None? {
      return None;
    }
    v := Some((first.value, second.value));
  }

  lemma PointRead(all: Parsed<seq<Point>>, points: seq<Point>, b: seq<Byte>, count: nat)
    requires count > 0 && all == Continued(points, TakePoints(b, count))
    ensures match TakeFields(b, POINT_WIDTHS)
            case Short => all.Short?
            case Got(v, rest) => all == Continued(points + [PointOf(v)], TakePoints(rest, count - 1))
  {
    var first := TakeFields(b, POINT_WIDTHS);
    if first.Got? && TakePoints(first.rest, count - 1).Got? {
      var more := TakePoints(first.rest, count - 1).value;
      assert points + ([PointOf(first.value)] + more) == points + [PointOf(first.value)] + more;
    }
  }

  lemma StrokeRead(all: Parsed<seq<RawStroke>>, strokes: seq<RawStroke>, b: seq<Byte>, count: nat)
    requires count > 0 && all == Continued(strokes, TakeStrokes(b, count))
    ensures match TakeStroke(b)
            case Short => all.Short?
            case Got(s, rest) => all == Continued(strokes + [s], TakeStrokes(rest, count - 1))
  {
    var first := TakeStroke(b);
    if first.Got? && TakeStrokes(first.rest, count - 1).Got? {
      var more := TakeStrokes(first.rest, count - 1).value;
      assert strokes + ([first.value] + more) == strokes + [first.value] + more;
    }
  }

  lemma FieldsStart(b: seq<Byte>, w: seq<nat>)
    ensures TakeFields(b, w) == Continued([], TakeFields(b, w[0..]))
  {
    assert w[0..] == w;
    ContinuedFromStart(TakeFields(b, w));
  }

  lemma FieldsEnd(all: Parsed<seq<nat>>, done: seq<nat>, b: seq<Byte>, w: seq<nat>)
    requires |done| == |w| && all == Continued(done, TakeFields(b, w[|w|..]))
    ensures all == Got(done, b)
  {
    assert w[|w|..] == [] && done + [] == done;
  }

  method ReadPoint(r: Reader) returns (p: Option<Point>)
    requires r.Valid()
    modifies r`pos
    ensures r.Valid()
    ensures match TakeFields(old(r.Rest()), POINT_WIDTHS)
            case Got(v, rest) => p == Some(PointOf(v)) && r.Rest() == rest
            case Short => p == None
  {
    ghost var w := POINT_WIDTHS;
    ghost var all := TakeFields(r.Rest(), w);
    ghost var done: seq<nat> :| |done| == 0;
    FieldsStart(r.Rest(), w);
    assert done == [];
    var xy := ReadPair(r, 4, 4, all, done, w);
    if xy.None? {
      return None;
    }
    FieldsEnd(all, done + [xy.value.0] + [xy.value.1], r.Rest(), w);
    PowersOf256();
    p := Some(Point(xy.value.0 as Bits32, xy.value.1 as Bits32));
  }

  /** id, author, colour and thickness. */
  method ReadIdentity(r: Reader, ghost all: Parsed<seq<nat>>, ghost w: seq<nat>) returns (v: Option<(nat, nat, nat, nat)>)
    requires r.Valid() && |w| >= 4 && w[0] == w[1] == 8 && w[2] == w[3] == 1
    requires all == TakeFields(r.Rest(), w)
    modifies r`pos
    ensures r.Valid()
    ensures v.None? ==> all.Short?
    ensures v.Some? ==> all == Continued([v.value.0, v.value.1, v.value.2, v.value.3], TakeFields(r.Rest(), w[4..]))
  {
    ghost var done: seq<nat> :| |done| == 0;
    FieldsStart(r.Rest(), w);
    assert done == [];
    var ids := ReadPair(r, 8, 8, all, done, w);
    if ids.None? {
      return None;
    }
    ghost var done' := done + [ids.value.0] + [ids.value.1];
    var style := ReadPair(r, 1, 1, all, done', w);
    if style.None? {
      return None;
    }
    v := Some((ids.value.0, ids.value.1, style.value.0, style.value.1));
    assert done' + [style.value.0] + [style.value.1] == [ids.value.0, ids.value.1, style.value.0, style.value.1];
  }

  /** strokeOrder, finished and the number of points. */
  method ReadState(r: Reader, ghost all: Parsed<seq<nat>>, ghost done: seq<nat>, ghost w: seq<nat>) returns (v: Option<(nat, nat, nat)>)
    requires r.Valid() && |w| == 7 && w[4] == 8 && w[5] == 1 && w[6] == 4
    requires |done| == 4 && all == Continued(done, TakeFields(r.Rest(), w[4..]))
    modifies r`pos
    ensures r.Valid()
    ensures v.None? ==> all.Short?
    ensures v.Some? ==> all == Got(done + [v.value.0] + [v.value.1] + [v.value.2], r.Rest())
  {
    var state := ReadPair(r, 8, 1, all, done, w);
    if state.None? {
      return None;
    }
    ghost var done' := done + [state.value.0] + [state.value.1];
    var count := ReadField(r, 4, all, done', w);
    if count.None? {
      return None;
    }
    FieldsEnd(all, done' + [count.value], r.Rest(), w);
    v := Some((state.value.0, state.value.1, count.value));
  }

  /** A stroke up to its points, and how many of those follow. */
  method ReadHead(r: Reader) returns (head: Option<(RawStroke, nat)>)
    requires r.Valid()
    modifies r`pos
    ensures r.Valid()
    ensures match TakeFields(old(r.Rest()), HEAD_WIDTHS)
            case Got(v, rest) => head == Some((StrokeOf(v, []), v[6])) && r.Rest() == rest
            case Short => head == None
  {
    ghost var w := HEAD_WIDTHS;
    ghost var all := TakeFields(r.Rest(), w);
    var a := ReadIdentity(r, all, w);
    if a.None? {
      return None;
    }
    ghost var done := [a.value.0, a.value.1, a.value.2, a.value.3];
    var b := ReadState(r, all, done, w);
    if b.None? {
      return None;
    }
    PowersOf256();
    assert InWidths(all.value, w);
    head := Some((RawStroke(a.value.0 as U64, a.value.1 as U64, a.value.2 as Byte, a.value.3 as Byte,
                            b.value.0 as U64, [], b.value.1 != 0), b.value.2));
  }

  method ReadPoints(r: Reader, count: nat) returns (points: Option<seq<Point>>)
    requires r.Valid()
    modifies r`pos
    ensures r.Valid()
    ensures match TakePoints(old(r.Rest()), count)
            case Got(ps, rest) => points == Some(ps) && r.Rest() == rest
            case Short => points == None
  {
    ghost var all := TakePoints(r.Rest(), count);
    var ps: seq<Point> := [];
    ContinuedFromStart(all);
    for j := 0 to count
      invariant r.Valid()
      invariant all == Continued(ps, TakePoints(r.Rest(), count - j))
    {
      PointRead(all, ps, r.Rest(), count - j);
      var p := ReadPoint(r);
      if p.None? {
        return None;
      }
      ps := ps + [p.value];
    }
    assert ps + [] == ps;
    points := Some(ps);
  }

  lemma StrokeTaken(b: seq<Byte>, v: seq<nat>, b1: seq<Byte>)
    requires TakeFields(b, HEAD_WIDTHS) == Got(v, b1)
    ensures match TakePoints(b1, v[6])
            case Got(ps, rest) => TakeStroke(b) == Got(StrokeOf(v, []).(points := ps), rest)
            case Short => TakeStroke(b) == Short
  {
  }

  method ReadStroke(r: Reader) returns (s: Option<RawStroke>)
    requires r.Valid()
    modifies r`pos
    ensures r.Valid()
    ensures match TakeStroke(old(r.Rest()))
            case Got(stroke, rest) => s == Some(stroke) && r.Rest() == rest
            case Short => s == None
  {
    ghost var fields := TakeFields(r.Rest(), HEAD_WIDTHS);
    var head := ReadHead(r);
    if head.None? {
      return None;
    }
    StrokeTaken(old(r.Rest()), fields.value, fields.rest);
    var points := ReadPoints(r, head.value.1);
    if points.None? {
      return None;
    }
    s := Some(head.value.0.(points := points.value));
  }

  method ReadStrokes(r: Reader, count: nat) returns (strokes: Option<seq<RawStroke>>)
    requires r.Valid()
    modifies r`pos
    ensures r.Valid()
    ensures match TakeStrokes(old(r.Rest()), count)
            case Got(ss, rest) => strokes == Some(ss) && r.Rest() == rest
            case Short => strokes == None
  {
    ghost var all := TakeStrokes(r.Rest(), count);
    var ss: seq<RawStroke> := [];
    ContinuedFromStart(all);
    for i := 0 to count
      invariant r.Valid()
      invariant all == Continued(ss, TakeStrokes(r.Rest(), count - i))
    {
      StrokeRead(all, ss, r.Rest(), count - i);
      var s := ReadStroke(r);
      if s.None? {
        return None;
      }
      ss := ss + [s.value];
    }
    assert ss + [] == ss;
    strokes := Some(ss);
  }

  lemma DecodeCases(b: seq<Byte>, version: Parsed<nat>, count: Parsed<nat>, body: Parsed<seq<RawStroke>>)
    requires version == TakeLE(b, 4)
    requires version.Got? ==> count == TakeLE(version.rest, 4)
    requires version.Got? && count.Got? ==> body == TakeStrokes(count.rest, count.value)
    ensures Decode(b) == if version.Short? then Failed(Corrupted)
                         else if version.value != VERSION then Failed(UnsupportedVersion)
                         else if count.Short? || body.Short? then Failed(Corrupted)
                         else if body.rest != [] then Failed(TrailingBytes)
                         else Strokes(body.value)
  {
  }

  method DeserializeStrokes(data: seq<Byte>) returns (decoded: Decoded)
    ensures decoded == Decode(data)
  {
    ghost var version' := TakeLE(data, 4);
    ghost var count' := if version'.Got? then TakeLE(version'.rest, 4) else Short;
    ghost var body := if count'.Got? then TakeStrokes(count'.rest, count'.value) else Short;
    DecodeCases(data, version', count', body);
    var r := new Reader(data);
    var version := r.ReadLE(4);
    if version.None? {
      return Failed(Corrupted);
    }
    if version.value != VERSION {
      return Failed(UnsupportedVersion);
    }
    var count := r.ReadLE(4);
    if count.None? {
      return Failed(Corrupted);
    }
    var strokes := ReadStrokes(r, count.value);
    if strokes.None? {
      return Failed(Corrupted);
    }
    if r.pos != |data| {
      return Failed(TrailingBytes);
    }
    decoded := Strokes(strokes.value);
  }
}
