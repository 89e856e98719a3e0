/** The messages a client sees: how board and events are put into them, and that a client that
    works on messages alone ends up with the message image of the board. */
module Wire {
  import opened Types
  import opened Codec
  import opened RoomSpec
  import opened Replica
  import opened Convergence
  import opened Rooms

  datatype PointDto = PointDto(x: Bits32, y: Bits32)

  datatype CursorDto = CursorDto(client: ClientId, point: PointDto)

  datatype StrokeDto = StrokeDto(id: StrokeId, author: ClientId, color: Byte, thickness: Byte, strokeOrder: Seq,
                                 points: seq<PointDto>, finished: bool)

  datatype SnapshotMessage = SnapshotMessage(room: RoomId, lastSeq: Seq, members: seq<ClientId>, strokes: seq<StrokeDto>,
                                             cursors: seq<CursorDto>)

  datatype EventMessage =
    | StrokeBeginEvent(room: RoomId, seqNo: Seq, author: ClientId, id: StrokeId, strokeOrder: Seq, color: Byte, thickness: Byte,
                       start: PointDto)
    | StrokePointEvent(room: RoomId, seqNo: Seq, author: ClientId, id: StrokeId, point: PointDto)
    | StrokeEndEvent(room: RoomId, seqNo: Seq, author: ClientId, id: StrokeId)
    | CursorMoveEvent(room: RoomId, seqNo: Seq, author: ClientId, point: PointDto)
    | ClearEvent(room: RoomId, seqNo: Seq, author: ClientId)
    | MemberLeftEvent(room: RoomId, seqNo: Seq, client: ClientId)

  function FromCorePoint(p: Point): PointDto {
    PointDto(p.x, p.y)
  }

  function Points(ps: seq<Point>): (r: seq<PointDto>)
    ensures |r| == |ps|
    ensures forall i :: 0 <= i < |r| ==> r[i] == FromCorePoint(ps[i])
  {
    seq(|ps|, i requires 0 <= i < |ps| => FromCorePoint(ps[i]))
  }

  function StrokeImage(s: Stroke): StrokeDto {
    StrokeDto(s.id, s.author, ColorByte(s.color), ThicknessByte(s.thickness), s.strokeOrder, Points(s.points), s.finished)
  }

  function StrokeImages(ss: seq<Stroke>): (r: seq<StrokeDto>)
    ensures |r| == |ss|
    ensures forall i :: 0 <= i < |r| ==> r[i] == StrokeImage(ss[i])
  {
    seq(|ss|, i requires 0 <= i < |ss| => StrokeImage(ss[i]))
  }

  function ToServerMessage(ev: OutgoingEvent): EventMessage {
    match ev.payload
    case StrokeBeginOut(author, id, strokeOrder, color, thickness, start) =>
      StrokeBeginEvent(ev.room, ev.seqNo, author, id, strokeOrder, ColorByte(color), ThicknessByte(thickness), FromCorePoint(start))
    case StrokePointOut(author, id, p) => StrokePointEvent(ev.room, ev.seqNo, author, id, FromCorePoint(p))
    case StrokeEndOut(author, id) => StrokeEndEvent(ev.room, ev.seqNo, author, id)
    case CursorMoveOut(author, p) => CursorMoveEvent(ev.room, ev.seqNo, author, FromCorePoint(p))
    case ClearOut(author) => ClearEvent(ev.room, ev.seqNo, author)
    case MemberLeftOut(client) => MemberLeftEvent(ev.room, ev.seqNo, client)
  }

  // ----- Requests -----

  function ToColor(b: Byte): Expected<Color> {
    if b == 0 then Ok(Black) else if b == 1 then Ok(Red) else if b == 2 then Ok(Green) else if b == 3 then Ok(Blue)
    else Err(InvalidParams)
  }

  function ToThickness(b: Byte): Expected<Thickness> {
    if b == 0 then Ok(Thin) else if b == 1 then Ok(Medium) else if b == 2 then Ok(Thick) else Err(InvalidParams)
  }

  function ReadPoint(p: PointDto): Point {
    Point(p.x, p.y)
  }

  /** What a client takes out of an event message posted to it. */
  function FromServerMessage(msg: EventMessage, to: ClientId): Expected<OutgoingEvent> {
    match msg
    case StrokeBeginEvent(room, seqNo, author, id, strokeOrder, color, thickness, start) =>
      (match (ToColor(color), ToThickness(thickness))
       case (Ok(c), Ok(t)) => Ok(OutgoingEvent(room, to, seqNo, StrokeBeginOut(author, id, strokeOrder, c, t, ReadPoint(start))))
       case _ => Err(InvalidParams))
    case StrokePointEvent(room, seqNo, author, id, point) =>
      Ok(OutgoingEvent(room, to, seqNo, StrokePointOut(author, id, ReadPoint(point))))
    case StrokeEndEvent(room, seqNo, author, id) => Ok(OutgoingEvent(room, to, seqNo, StrokeEndOut(author, id)))
    case CursorMoveEvent(room, seqNo, author, point) => Ok(OutgoingEvent(room, to, seqNo, CursorMoveOut(author, ReadPoint(point))))
    case ClearEvent(room, seqNo, author) => Ok(OutgoingEvent(room, to, seqNo, ClearOut(author)))
    case MemberLeftEvent(room, seqNo, client) => Ok(OutgoingEvent(room, to, seqNo, MemberLeftOut(client)))
  }

  /** A message carries its event whole: room, number and author, and everything else. */
  lemma MessageReadsBack(ev: OutgoingEvent)
    ensures FromServerMessage(ToServerMessage(ev), ev.to) == Ok(ev)
    ensures ToServerMessage(ev).room == ev.room && ToServerMessage(ev).seqNo == ev.seqNo
  {
    match ev.payload
    case StrokeBeginOut(_, _, _, color, thickness, _) => BytesReadBack(color, thickness);
    case _ =>
  }

  /** The bytes of colours and thicknesses, and what they are read as. */
  lemma BytesReadBack(color: Color, thickness: Thickness)
    ensures ToColor(ColorByte(color)) == Ok(color) && ToThickness(ThicknessByte(thickness)) == Ok(thickness)
    ensures ColorByte(color) == (if color == Black then 0 else if color == Red then 1 else if color == Green then 2 else 3)
    ensures ThicknessByte(thickness) == (if thickness == Thin then 0 else if thickness == Medium then 1 else 2)
  {
  }

  /** What a stroke-begin request asks the room; a bad colour is reported before a bad thickness. */
  function ToStrokeBegin(color: Byte, thickness: Byte, start: PointDto): Expected<Event> {
    match ToColor(color)
    case Err(e) => Err(e)
    case Ok(c) =>
      match ToThickness(thickness)
      case Err(e) => Err(e)
      case Ok(t) => Ok(StrokeBegin(c, t, Point(start.x, start.y)))
  }

  datatype DrawRequest =
    | StrokeBeginRequest(color: Byte, thickness: Byte, start: PointDto)
    | StrokePointRequest(point: PointDto)
    | StrokeEndRequest
    | CursorMoveRequest(point: PointDto)
    | ClearRequest

  function ToCoreEvent(request: DrawRequest): Expected<Event> {
    match request
    case StrokeBeginRequest(color, thickness, start) => ToStrokeBegin(color, thickness, start)
    case StrokePointRequest(p) => Ok(StrokePoint(Point(p.x, p.y)))
    case StrokeEndRequest => Ok(StrokeEnd)
    case CursorMoveRequest(p) => Ok(CursorMove(Point(p.x, p.y)))
    case ClearRequest => Ok(Clear)
  }

  /** The request by which a client asks for an event. */
  function RequestFor(event: Event): DrawRequest {
    match event
    case StrokeBegin(c, t, start) => StrokeBeginRequest(ColorByte(c), ThicknessByte(t), FromCorePoint(start))
    case StrokePoint(p) => StrokePointRequest(FromCorePoint(p))
    case StrokeEnd => StrokeEndRequest
    case CursorMove(p) => CursorMoveRequest(FromCorePoint(p))
    case Clear => ClearRequest
  }

  /** A request is taken exactly when it is the one for some event, and as that event; else its parameters are invalid. */
  lemma RequestsRoundTrip(request: DrawRequest)
    ensures ToCoreEvent(request).Ok? ==> RequestFor(ToCoreEvent(request).value) == request
    ensures forall event :: RequestFor(event) == request ==> ToCoreEvent(request) == Ok(event)
    ensures ToCoreEvent(request).Err? ==> ToCoreEvent(request).error == InvalidParams
  {
    if request.StrokeBeginRequest? {
      RequestsInvertEvents(request.color, request.thickness, request.start);
    }
  }

  /** Exactly the bytes the server itself sends are accepted, and they come back as what they stood for. */
  lemma RequestsInvertEvents(color: Byte, thickness: Byte, start: PointDto)
    ensures ToStrokeBegin(color, thickness, start).Ok? <==>
            exists c, t :: color == ColorByte(c) && thickness == ThicknessByte(t)
    ensures forall c, t, p :: color == ColorByte(c) && thickness == ThicknessByte(t) && start == FromCorePoint(p) ==>
              ToStrokeBegin(color, thickness, start) == Ok(StrokeBegin(c, t, p))
    ensures ToStrokeBegin(color, thickness, start).Err? ==> ToStrokeBegin(color, thickness, start).error == InvalidParams
  {
    if ToColor(color).Ok? && ToThickness(thickness).Ok? {
      assert color == ColorByte(ToColor(color).value) && thickness == ThicknessByte(ToThickness(thickness).value);
    }
  }

  // ----- Sorted lists -----

  ghost predicate Ascending(xs: seq<ClientId>) {
    forall i, j :: 0 <= i < j < |xs| ==> xs[i] < xs[j]
  }

  ghost predicate AscendingCursors(cs: seq<CursorDto>) {
    forall i, j :: 0 <= i < j < |cs| ==> cs[i].client < cs[j].client
  }

  /** The cursors of a board, in client order. */
  ghost predicate ListsCursors(cs: seq<CursorDto>, cursors: map<ClientId, Point>) {
    && AscendingCursors(cs)
    && (forall i :: 0 <= i < |cs| ==> cs[i].client in cursors && cs[i].point == FromCorePoint(cursors[cs[i].client]))
    && (forall c :: c in cursors ==> HasClient(cs, c))
  }

  predicate HasClient(cs: seq<CursorDto>, c: ClientId) {
    exists i :: 0 <= i < |cs| && cs[i].client == c
  }

  lemma NothingIn(xs: seq<ClientId>)
    ensures (forall x :: x !in xs) ==> xs == []
  {
    if xs != [] {
      assert xs[0] in xs;
    }
  }

  lemma {:induction false} AscendingUnique(xs: seq<ClientId>, ys: seq<ClientId>)
    requires Ascending(xs) && Ascending(ys) && forall x :: x in xs <==> x in ys
    ensures xs == ys
    decreases |xs|
  {
    if xs == [] {
      NothingIn(ys);
    } else {
      var n, k := |xs| - 1, |ys| - 1;
      assert xs[n] in ys;
      assert ys[k] in ys && ys[k] in xs;
      assert xs[n] == ys[k];
      forall x ensures x in xs[..n] <==> x in ys[..k] {
        assert x in xs[..n] <==> x in xs && x != xs[n];
        assert x in ys[..k] <==> x in ys && x != ys[k];
      }
      AscendingUnique(xs[..n], ys[..k]);
      assert xs == xs[..n] + [xs[n]] && ys == ys[..k] + [ys[k]];
    }
  }

  function Clients(cs: seq<CursorDto>): (r: seq<ClientId>)
    ensures |r| == |cs| && forall i :: 0 <= i < |r| ==> r[i] == cs[i].client
  {
    seq(|cs|, i requires 0 <= i < |cs| => cs[i].client)
  }

  lemma CursorListUnique(cs: seq<CursorDto>, ds: seq<CursorDto>, cursors: map<ClientId, Point>)
    requires ListsCursors(cs, cursors) && ListsCursors(ds, cursors)
    ensures cs == ds
  {
    forall x ensures x in Clients(cs) <==> x in cursors {
      ClientsAreKeys(cs, cursors, x);
    }
    forall x ensures x in Clients(ds) <==> x in cursors {
      ClientsAreKeys(ds, cursors, x);
    }
    AscendingUnique(Clients(cs), Clients(ds));
    forall i | 0 <= i < |cs| ensures cs[i] == ds[i] {
      assert Clients(cs)[i] == Clients(ds)[i];
    }
  }

  lemma ClientsAreKeys(cs: seq<CursorDto>, cursors: map<ClientId, Point>, x: ClientId)
    requires ListsCursors(cs, cursors)
    ensures x in Clients(cs) <==> x in cursors
  {
    if x in cursors {
      var i :| 0 <= i < |cs| && cs[i].client == x;
      assert Clients(cs)[i] == x;
    }
  }

  // ----- Snapshot messages -----

  /** What a snapshot message must say; it does not mention the order in which sets and maps are walked. */
  ghost predicate Depicts(msg: SnapshotMessage, room: RoomId, lastSeq: Seq, board: Board, members: set<ClientId>) {
    && msg.room == room && msg.lastSeq == lastSeq
    && msg.strokes == StrokeImages(board.strokes)
    && ListsCursors(msg.cursors, board.cursors)
    && Ascending(msg.members) && forall c :: c in msg.members <==> c in members
  }

  /** There is only one such message. */
  lemma SnapshotMessageCanonical(msg: SnapshotMessage, msg': SnapshotMessage, room: RoomId, lastSeq: Seq, board: Board,
                                 members: set<ClientId>)
    requires Depicts(msg, room, lastSeq, board, members) && Depicts(msg', room, lastSeq, board, members)
    ensures msg == msg'
  {
    AscendingUnique(msg.members, msg'.members);
    CursorListUnique(msg.cursors, msg'.cursors, board.cursors);
  }

  function ReadPoints(ps: seq<PointDto>): (r: seq<Point>)
    ensures |r| == |ps| && forall i :: 0 <= i < |r| ==> r[i] == ReadPoint(ps[i])
  {
    seq(|ps|, i requires 0 <= i < |ps| => ReadPoint(ps[i]))
  }

  /** What a client takes out of a stroke in a snapshot message. */
  function ReadStroke(d: StrokeDto): Expected<Stroke> {
    match (ToColor(d.color), ToThickness(d.thickness))
    case (Ok(c), Ok(t)) => Ok(Stroke(d.id, d.author, c, t, d.strokeOrder, ReadPoints(d.points), d.finished))
    case _ => Err(InvalidParams)
  }

  function ReadCursors(cs: seq<CursorDto>): map<ClientId, Point> {
    map c | c in Clients(cs) :: ReadPoint(CursorIn(cs, c))
  }

  function CursorIn(cs: seq<CursorDto>, c: ClientId): PointDto
    requires c in Clients(cs)
  {
    if cs[|cs| - 1].client == c then cs[|cs| - 1].point else CursorIn(cs[..|cs| - 1], c)
  }

  lemma {:induction false} CursorFound(cs: seq<CursorDto>, c: ClientId)
    requires c in Clients(cs)
    ensures exists i :: 0 <= i < |cs| && cs[i].client == c && cs[i].point == CursorIn(cs, c)
  {
    var n := |cs| - 1;
    if cs[n].client != c {
      assert Clients(cs)[..n] == Clients(cs[..n]);
      CursorFound(cs[..n], c);
      var i :| 0 <= i < n && cs[..n][i].client == c && cs[..n][i].point == CursorIn(cs[..n], c);
      assert cs[i] == cs[..n][i];
    }
  }

  lemma StrokeReadsBack(s: Stroke)
    ensures ReadStroke(StrokeImage(s)) == Ok(s)
  {
    BytesReadBack(s.color, s.thickness);
    assert ReadPoints(Points(s.points)) == s.points;
  }

  /** A snapshot message gives everything back: room, number, strokes, cursors and members. */
  lemma {:induction false} SnapshotReadsBack(msg: SnapshotMessage, room: RoomId, lastSeq: Seq, board: Board, members: set<ClientId>)
    requires Depicts(msg, room, lastSeq, board, members)
    ensures msg.room == room && msg.lastSeq == lastSeq && (set m | m in msg.members) == members
    ensures |msg.strokes| == |board.strokes| && forall i :: 0 <= i < |board.strokes| ==> ReadStroke(msg.strokes[i]) == Ok(board.strokes[i])
    ensures ReadCursors(msg.cursors) == board.cursors
  {
    forall i | 0 <= i < |board.strokes| ensures ReadStroke(msg.strokes[i]) == Ok(board.strokes[i]) {
      StrokeReadsBack(board.strokes[i]);
    }
    forall c ensures c in Clients(msg.cursors) <==> c in board.cursors {
      ClientsAreKeys(msg.cursors, board.cursors, c);
    }
    forall c | c in board.cursors ensures ReadPoint(CursorIn(msg.cursors, c)) == board.cursors[c] {
      CursorFound(msg.cursors, c);
    }
  }

  method FromCoreStroke(stroke: Stroke) returns (dto: StrokeDto)
    ensures dto == StrokeImage(stroke)
  {
    var points: seq<PointDto> := [];
    for i := 0 to |stroke.points|
      invariant points == Points(stroke.points[..i])
    {
      points := points + [FromCorePoint(stroke.points[i])];
    }
    assert stroke.points[..|stroke.points|] == stroke.points;
    dto := StrokeDto(stroke.id, stroke.author, ColorByte(stroke.color), ThicknessByte(stroke.thickness), stroke.strokeOrder,
                     points, stroke.finished);
  }

  /** Sorts distinct ids. */
  method SortIds(ids: seq<ClientId>) returns (sorted: seq<ClientId>)
    requires forall i, j :: 0 <= i < j < |ids| ==> ids[i] != ids[j]
    ensures Ascending(sorted) && forall x :: x in sorted <==> x in ids
  {
    sorted := [];
    for n := 0 to |ids|
      invariant Ascending(sorted) && forall x :: x in sorted <==> x in ids[..n]
    {
      var k := |sorted|;
      while k > 0 && sorted[k - 1] > ids[n]
        invariant 0 <= k <= |sorted| && forall i :: k <= i < |sorted| ==> sorted[i] > ids[n]
      {
        k := k - 1;
      }
      NotBefore(ids, n);
      InsertId(sorted, k, ids[n], ids[..n]);
      assert ids[..n + 1] == ids[..n] + [ids[n]];
      sorted := sorted[..k] + [ids[n]] + sorted[k..];
    }
    assert ids[..|ids|] == ids;
  }

  lemma InsertAscending(low: seq<ClientId>, x: ClientId, high: seq<ClientId>)
    requires Ascending(low) && Ascending(high)
    requires (forall i :: 0 <= i < |low| ==> low[i] < x) && (forall i :: 0 <= i < |high| ==> x < high[i])
    ensures Ascending(low + [x] + high)
  {
    assert Ascending(low + [x]);
    assert forall i :: 0 <= i < |low + [x]| ==> (low + [x])[i] <= x;
  }

  lemma InsertId(sorted: seq<ClientId>, k: nat, x: ClientId, ids: seq<ClientId>)
    requires k <= |sorted| && Ascending(sorted) && x !in sorted
    requires forall y :: y in sorted <==> y in ids
    requires (forall i :: k <= i < |sorted| ==> sorted[i] > x) && (k > 0 ==> sorted[k - 1] <= x)
    ensures Ascending(sorted[..k] + [x] + sorted[k..])
    ensures forall y :: y in sorted[..k] + [x] + sorted[k..] <==> y in ids + [x]
  {
    var low, high := sorted[..k], sorted[k..];
    forall i | 0 <= i < k ensures low[i] < x {
      assert sorted[i] <= sorted[k - 1] && sorted[i] != x;
    }
    InsertAscending(low, x, high);
    assert sorted == low + high;
    InsertMembers(low, x, high, ids);
  }

  lemma NotBefore(ids: seq<ClientId>, n: nat)
    requires n < |ids| && forall i, j :: 0 <= i < j < |ids| ==> ids[i] != ids[j]
    ensures ids[n] !in ids[..n]
  {
  }

  lemma InsertMembers(low: seq<ClientId>, x: ClientId, high: seq<ClientId>, ids: seq<ClientId>)
    requires forall y :: y in low + high <==> y in ids
    ensures forall y :: y in low + [x] + high <==> y in ids + [x]
  {
    forall y ensures y in low + [x] + high <==> y in ids + [x] {
      assert y in low + high <==> y in low || y in high;
      assert y in low + [x] + high <==> y in low + [x] || y in high;
    }
  }

  /** Puts one cursor at its place in client order, replacing the client's old one. */
  function Place(cs: seq<CursorDto>, x: CursorDto): (r: seq<CursorDto>)
    decreases |cs|
  {
    if cs == [] then [x]
    else if cs[0].client < x.client then [cs[0]] + Place(cs[1..], x)
    else if cs[0].client == x.client then [x] + cs[1..]
    else [x] + cs
  }

  lemma {:induction false} PlaceLists(cs: seq<CursorDto>, cursors: map<ClientId, Point>, c: ClientId, p: Point)
    requires ListsCursors(cs, cursors)
    ensures ListsCursors(Place(cs, CursorDto(c, FromCorePoint(p))), cursors[c := p])
    decreases |cs|
  {
    var x := CursorDto(c, FromCorePoint(p));
    var placed := Place(cs, x);
    if cs == [] {
      assert placed[0].client == c;
    } else if cs[0].client < c {
      ListsTail(cs, cursors);
      PlaceLists(cs[1..], cursors - {cs[0].client}, c, p);
      ListsConsUpdate(cs[0], Place(cs[1..], x), cursors, c, p);
    } else if cs[0].client == c {
      ListsTail(cs, cursors);
      ListsConsNew(x, cs[1..], cursors, c, p);
    } else {
      AboveAll(cs, cursors, c);
      ListsConsNew(x, cs, cursors, c, p);
    }
  }

  lemma AboveAll(cs: seq<CursorDto>, cursors: map<ClientId, Point>, c: ClientId)
    requires ListsCursors(cs, cursors) && (cs != [] ==> c < cs[0].client)
    ensures c !in cursors && cursors - {c} == cursors
    ensures forall d :: d in cursors ==> c < d
  {
    forall d | d in cursors ensures c < d {
      assert HasClient(cs, d);
    }
  }

  lemma ListsConsUpdate(x: CursorDto, rest: seq<CursorDto>, cursors: map<ClientId, Point>, c: ClientId, p: Point)
    requires x.client in cursors && x.client < c && x.point == FromCorePoint(cursors[x.client])
    requires ListsCursors(rest, (cursors - {x.client})[c := p])
    requires forall d :: d in cursors - {x.client} ==> x.client < d
    ensures ListsCursors([x] + rest, cursors[c := p])
  {
    assert (cursors - {x.client})[c := p] == cursors[c := p] - {x.client};
    ListsCons(x, rest, cursors[c := p]);
  }

  lemma ListsConsNew(x: CursorDto, rest: seq<CursorDto>, cursors: map<ClientId, Point>, c: ClientId, p: Point)
    requires x == CursorDto(c, FromCorePoint(p)) && ListsCursors(rest, cursors - {c})
    requires forall d :: d in cursors - {c} ==> c < d
    ensures ListsCursors([x] + rest, cursors[c := p])
  {
    assert cursors[c := p] - {c} == cursors - {c};
    ListsCons(x, rest, cursors[c := p]);
  }

  lemma ListsTail(cs: seq<CursorDto>, cursors: map<ClientId, Point>)
    requires ListsCursors(cs, cursors) && cs != []
    ensures ListsCursors(cs[1..], cursors - {cs[0].client})
    ensures forall c :: c in cursors - {cs[0].client} ==> cs[0].client < c
  {
    var rest := cursors - {cs[0].client};
    forall c | c in rest ensures HasClient(cs[1..], c) && cs[0].client < c {
      var i :| 0 <= i < |cs| && cs[i].client == c;
      assert cs[1..][i - 1].client == c;
    }
  }

  lemma ListsCons(x: CursorDto, cs: seq<CursorDto>, cursors: map<ClientId, Point>)
    requires x.client in cursors && x.point == FromCorePoint(cursors[x.client])
    requires ListsCursors(cs, cursors - {x.client})
    requires forall c :: c in cursors - {x.client} ==> x.client < c
    ensures ListsCursors([x] + cs, cursors)
  {
    var all := [x] + cs;
    forall c | c in cursors ensures HasClient(all, c) {
      if c == x.client {
        assert all[0].client == c;
      } else {
        assert c in cursors - {x.client};
        var i :| 0 <= i < |cs| && cs[i].client == c;
        assert all[i + 1].client == c;
      }
    }
  }

  /** `leave` and the wire: a client's cursor taken off the list. */
  function Without(cs: seq<CursorDto>, c: ClientId): seq<CursorDto>
    decreases |cs|
  {
    if cs == [] then []
    else if cs[0].client == c then Without(cs[1..], c)
    else [cs[0]] + Without(cs[1..], c)
  }

  lemma {:induction false} WithoutLists(cs: seq<CursorDto>, cursors: map<ClientId, Point>, c: ClientId)
    requires ListsCursors(cs, cursors)
    ensures ListsCursors(Without(cs, c), cursors - {c})
    decreases |cs|
  {
    if cs == [] {
      assert cursors == map[] && cursors - {c} == cursors by {
        forall d ensures d !in cursors {
          assert d in cursors ==> HasClient(cs, d);
        }
      }
    } else {
      var head := cs[0].client;
      ListsTail(cs, cursors);
      WithoutLists(cs[1..], cursors - {head}, c);
      if head == c {
        assert cursors - {head} - {c} == cursors - {c};
      } else {
        assert cursors - {head} - {c} == cursors - {c} - {head};
        ListsCons(cs[0], Without(cs[1..], c), cursors - {c});
      }
    }
  }

  method SortedCursors(cursors: map<ClientId, Point>) returns (cs: seq<CursorDto>)
    ensures ListsCursors(cs, cursors)
  {
    cs := [];
    var rest := cursors.Keys;
    ghost var done: map<ClientId, Point> := map[];
    while rest != {}
      invariant rest <= cursors.Keys && done == cursors - rest
      invariant ListsCursors(cs, done)
    {
      var c :| c in rest;
      PlaceLists(cs, done, c, cursors[c]);
      cs := Place(cs, CursorDto(c, FromCorePoint(cursors[c])));
      rest := rest - {c};
      done := done[c := cursors[c]];
    }
    assert done == cursors;
  }

  /** Whatever order the members come in and the cursor map is walked in. */
  method ToSnapshotMessage(snapshot: RoomSnapshot) returns (msg: SnapshotMessage)
    requires forall i, j :: 0 <= i < j < |snapshot.members| ==> snapshot.members[i] != snapshot.members[j]
    ensures Depicts(msg, snapshot.room, snapshot.lastSeq, snapshot.state, set m | m in snapshot.members)
  {
    var strokes: seq<StrokeDto> := [];
    for i := 0 to |snapshot.state.strokes|
      invariant strokes == StrokeImages(snapshot.state.strokes[..i])
    {
      var dto := FromCoreStroke(snapshot.state.strokes[i]);
      strokes := strokes + [dto];
    }
    assert snapshot.state.strokes[..|snapshot.state.strokes|] == snapshot.state.strokes;
    var cursors := SortedCursors(snapshot.state.cursors);
    var members := SortIds(snapshot.members);
    msg := SnapshotMessage(snapshot.room, snapshot.lastSeq, members, strokes, cursors);
  }

  // ----- A client that works on messages -----

  datatype WireBoard = WireBoard(strokes: seq<StrokeDto>, cursors: seq<CursorDto>)

  ghost predicate Images(w: WireBoard, b: Board) {
    w.strokes == StrokeImages(b.strokes) && ListsCursors(w.cursors, b.cursors)
  }

  function ShowOne(w: WireBoard, e: EventMessage): WireBoard {
    match e
    case StrokeBeginEvent(_, _, author, id, order, color, thickness, start) =>
      w.(strokes := w.strokes + [StrokeDto(id, author, color, thickness, order, [start], false)])
    case StrokePointEvent(_, _, _, id, p) =>
      w.(strokes := seq(|w.strokes|, i requires 0 <= i < |w.strokes| =>
           if w.strokes[i].id == id then w.strokes[i].(points := w.strokes[i].points + [p]) else w.strokes[i]))
    case StrokeEndEvent(_, _, _, id) =>
      w.(strokes := seq(|w.strokes|, i requires 0 <= i < |w.strokes| =>
           if w.strokes[i].id == id then w.strokes[i].(finished := true) else w.strokes[i]))
    case CursorMoveEvent(_, _, author, p) => w.(cursors := Place(w.cursors, CursorDto(author, p)))
    case ClearEvent(_, _, _) => w.(strokes := [])
    case MemberLeftEvent(_, _, client) => w.(cursors := Without(w.cursors, client))
  }

  function Show(w: WireBoard, es: seq<EventMessage>): WireBoard
    decreases |es|
  {
    if es == [] then w else Show(ShowOne(w, es[0]), es[1..])
  }

  lemma PointsAppended(ps: seq<Point>, p: Point)
    ensures Points(ps + [p]) == Points(ps) + [FromCorePoint(p)]
  {
  }

  lemma BegunImage(w: WireBoard, b: Board, ev: OutgoingEvent)
    requires w.strokes == StrokeImages(b.strokes) && ev.payload.StrokeBeginOut?
    ensures ShowOne(w, ToServerMessage(ev)).strokes == StrokeImages(ReplayOne(b, ev.payload).strokes)
  {
    var p := ev.payload;
    assert Points([p.start]) == [FromCorePoint(p.start)];
    var t := BegunStroke(p);
    assert StrokeImages(b.strokes + [t]) == StrokeImages(b.strokes) + [StrokeImage(t)];
  }

  lemma PointImage(w: WireBoard, b: Board, ev: OutgoingEvent)
    requires w.strokes == StrokeImages(b.strokes) && ev.payload.StrokePointOut?
    ensures ShowOne(w, ToServerMessage(ev)).strokes == StrokeImages(ReplayOne(b, ev.payload).strokes)
  {
    var xs, ys := ShowOne(w, ToServerMessage(ev)).strokes, StrokeImages(ReplayOne(b, ev.payload).strokes);
    forall i | 0 <= i < |xs| ensures xs[i] == ys[i] {
      PointsAppended(b.strokes[i].points, ev.payload.p);
    }
  }

  lemma EndImage(w: WireBoard, b: Board, ev: OutgoingEvent)
    requires w.strokes == StrokeImages(b.strokes) && ev.payload.StrokeEndOut?
    ensures ShowOne(w, ToServerMessage(ev)).strokes == StrokeImages(ReplayOne(b, ev.payload).strokes)
  {
    var xs, ys := ShowOne(w, ToServerMessage(ev)).strokes, StrokeImages(ReplayOne(b, ev.payload).strokes);
    forall i | 0 <= i < |xs| ensures xs[i] == ys[i] {
    }
  }

  /** Showing the message of an event on the image of a board gives the image of the board after the event. */
  lemma ShowOneCommutes(w: WireBoard, b: Board, ev: OutgoingEvent)
    requires Images(w, b)
    ensures Images(ShowOne(w, ToServerMessage(ev)), ReplayOne(b, ev.payload))
  {
    match ev.payload
    case StrokeBeginOut(_, _, _, _, _, _) => BegunImage(w, b, ev);
    case StrokePointOut(_, _, _) => PointImage(w, b, ev);
    case StrokeEndOut(_, _) => EndImage(w, b, ev);
    case CursorMoveOut(author, p) => PlaceLists(w.cursors, b.cursors, author, p);
    case ClearOut(_) =>
    case MemberLeftOut(client) => WithoutLists(w.cursors, b.cursors, client);
  }

  /** Messages that carry these payloads, whatever their numbers. */
  ghost predicate Carry(es: seq<EventMessage>, room: RoomId, ps: seq<Payload>) {
    |es| == |ps| && forall i :: 0 <= i < |es| ==> IsMessageOf(es[i], room, ps[i])
  }

  ghost predicate IsMessageOf(e: EventMessage, room: RoomId, p: Payload) {
    exists ev: OutgoingEvent :: ev.room == room && ev.payload == p && e == ToServerMessage(ev)
  }

  lemma {:induction false} ShowCommutes(w: WireBoard, b: Board, es: seq<EventMessage>, room: RoomId, ps: seq<Payload>)
    requires Images(w, b) && Carry(es, room, ps)
    ensures Images(Show(w, es), Replay(b, ps))
    decreases |es|
  {
    if es != [] {
      assert IsMessageOf(es[0], room, ps[0]);
      var ev: OutgoingEvent :| ev.room == room && ev.payload == ps[0] && es[0] == ToServerMessage(ev);
      ShowOneCommutes(w, b, ev);
      ShowCommutes(ShowOne(w, es[0]), ReplayOne(b, ps[0]), es[1..], room, ps[1..]);
    }
  }

  /** A member that starts from its join's snapshot message and shows the messages of the events it hears of, in order,
      shows what a snapshot message of the room as it is now would show. */
  lemma ClientShowsBoard(before: seq<Command>, after: seq<Command>, m: ClientId, room: RoomId, first: SnapshotMessage,
                         es: seq<EventMessage>, latest: SnapshotMessage)
    requires NeverLeaves(after, m)
    requires
      var joined := Run(NEW_ROOM, before + [Join(m)]).room;
      var now := Run(NEW_ROOM, before + [Join(m)] + after);
      && Depicts(first, room, joined.LastSeq(), joined.board, joined.members)
      && Carry(es, room, Heard(now.log, m, joined.LastSeq()))
      && Depicts(latest, room, now.room.LastSeq(), now.room.board, now.room.members)
    ensures Show(WireBoard(first.strokes, first.cursors), es) == WireBoard(latest.strokes, latest.cursors)
  {
    var joined := Run(NEW_ROOM, before + [Join(m)]).room;
    var now := Run(NEW_ROOM, before + [Join(m)] + after);
    var w := WireBoard(first.strokes, first.cursors);
    ShowCommutes(w, joined.board, es, room, Heard(now.log, m, joined.LastSeq()));
    InOrderConvergence(before, after, m);
    CursorListUnique(Show(w, es).cursors, latest.cursors, now.room.board.cursors);
  }
}
