/** A replica keyed by stroke id, and what it ends up with when events arrive in another
    order than the room numbered them, each author's own order being kept. */
module Reordering {
  import opened Types
  import opened Replica

  datatype Keyed = Keyed(strokes: map<StrokeId, Stroke>, cursors: map<ClientId, Point>)

  function KeyedOne(k: Keyed, p: Payload): Keyed {
    match p
    case StrokeBeginOut(_, id, _, _, _, _) => k.(strokes := k.strokes[id := BegunStroke(p)])
    case StrokePointOut(_, id, point) =>
      if id in k.strokes then
        k.(strokes := k.strokes[id := k.strokes[id].(points := k.strokes[id].points + [point])])
      else k
    case StrokeEndOut(_, id) =>
      if id in k.strokes then k.(strokes := k.strokes[id := k.strokes[id].(finished := true)]) else k
    case CursorMoveOut(author, point) => k.(cursors := k.cursors[author := point])
    case ClearOut(_) => k.(strokes := map[])
    case MemberLeftOut(client) => k.(cursors := k.cursors - {client})
  }

  function KeyedFold(k: Keyed, ps: seq<Payload>): Keyed {
    if ps == [] then k else KeyedOne(KeyedFold(k, ps[..|ps| - 1]), ps[|ps| - 1])
  }

  /** The payloads that satisfy `f`, in order. */
  function Select(ps: seq<Payload>, f: Payload -> bool): seq<Payload> {
    if ps == [] then []
    else Select(ps[..|ps| - 1], f) + if f(ps[|ps| - 1]) then [ps[|ps| - 1]] else []
  }

  function HasAuthor(a: ClientId): Payload -> bool {
    (p: Payload) => p.Author() == a
  }

  function NotAuthor(a: ClientId): Payload -> bool {
    (p: Payload) => p.Author() != a
  }

  /** What can change the stroke named `x`. */
  function ForStroke(x: StrokeId): Payload -> bool {
    (p: Payload) => p.Touches(x) || p.ClearOut?
  }

  function ForCursor(c: ClientId): Payload -> bool {
    (p: Payload) => (p.CursorMoveOut? || p.MemberLeftOut?) && p.Author() == c
  }

  function By(ps: seq<Payload>, a: ClientId): seq<Payload> {
    Select(ps, HasAuthor(a))
  }

  /** `arrived` holds the same events as `sent`, and every author's in the author's own order. */
  ghost predicate KeepsAuthorOrder(sent: seq<Payload>, arrived: seq<Payload>) {
    forall a :: By(arrived, a) == By(sent, a)
  }

  /** No stroke id is used by two authors. */
  ghost predicate IdsByAuthor(ps: seq<Payload>) {
    forall i, j :: 0 <= i < |ps| && 0 <= j < |ps| && ps[i].OnStroke() && ps[j].OnStroke() && ps[i].id == ps[j].id ==>
      ps[i].Author() == ps[j].Author()
  }

  ghost predicate ClearedLaterBy(ps: seq<Payload>, i: nat, a: ClientId) {
    exists j :: i < j < |ps| && ps[j] == ClearOut(a)
  }

  /** Every stroke begun is either wiped later by its own author or safe from other authors' clears. */
  ghost predicate ClearsHarmless(ps: seq<Payload>) {
    forall i :: 0 <= i < |ps| && ps[i].StrokeBeginOut? ==>
      || ClearedLaterBy(ps, i, ps[i].author)
      || (forall j :: 0 <= j < |ps| && ps[j].ClearOut? ==> ps[j].author == ps[i].author)
  }

  // ----- Selecting -----

  lemma {:induction false} SelectConcat(ps: seq<Payload>, qs: seq<Payload>, f: Payload -> bool)
    ensures Select(ps + qs, f) == Select(ps, f) + Select(qs, f)
  {
    if qs == [] {
      assert ps + qs == ps;
    } else {
      var n := |qs| - 1;
      assert (ps + qs)[..|ps + qs| - 1] == ps + qs[..n];
      SelectConcat(ps, qs[..n], f);
    }
  }

  lemma {:induction false} SelectedIn(ps: seq<Payload>, f: Payload -> bool, p: Payload)
    ensures p in Select(ps, f) <==> p in ps && f(p)
  {
    if ps != [] {
      var n := |ps| - 1;
      SelectedIn(ps[..n], f, p);
      assert ps == ps[..n] + [ps[n]];
    }
  }

  /** When `f` implies `g` on the payloads, selecting `g` first makes no difference. */
  lemma {:induction false} SelectTwice(ps: seq<Payload>, f: Payload -> bool, g: Payload -> bool)
    requires forall p :: p in ps && f(p) ==> g(p)
    ensures Select(Select(ps, g), f) == Select(ps, f)
  {
    if ps != [] {
      var n := |ps| - 1;
      SelectTwice(ps[..n], f, g);
      var last := if g(ps[n]) then [ps[n]] else [];
      SelectConcat(Select(ps[..n], g), last, f);
      assert ps[n] in ps;
      if g(ps[n]) {
        assert [ps[n]][..0] == [];
        assert Select([ps[n]], f) == if f(ps[n]) then [ps[n]] else [];
      }
    }
  }

  lemma {:induction false} SelectNone(ps: seq<Payload>, f: Payload -> bool)
    requires forall p :: p in ps ==> !f(p)
    ensures Select(ps, f) == []
  {
    if ps != [] {
      var n := |ps| - 1;
      assert ps == ps[..n] + [ps[n]];
      SelectNone(ps[..n], f);
    }
  }

  lemma ArrivalSameMembers(sent: seq<Payload>, arrived: seq<Payload>, p: Payload)
    requires KeepsAuthorOrder(sent, arrived)
    ensures p in arrived <==> p in sent
  {
    SelectedIn(sent, HasAuthor(p.Author()), p);
    SelectedIn(arrived, HasAuthor(p.Author()), p);
    assert By(arrived, p.Author()) == By(sent, p.Author());
  }

  // ----- One stroke, one cursor -----

  function Lookup<K, V>(m: map<K, V>, x: K): Option<V> {
    if x in m then Some(m[x]) else None
  }

  /** The fate of the stroke named `x`, every other one left out. */
  function StrokeOne(v: Option<Stroke>, p: Payload, x: StrokeId): Option<Stroke> {
    if p.ClearOut? then None
    else if !p.Touches(x) then v
    else if p.StrokeBeginOut? then Some(BegunStroke(p))
    else if v.None? then None
    else if p.StrokePointOut? then Some(v.value.(points := v.value.points + [p.p]))
    else Some(v.value.(finished := true))
  }

  function StrokeFold(v: Option<Stroke>, ps: seq<Payload>, x: StrokeId): Option<Stroke> {
    if ps == [] then v else StrokeOne(StrokeFold(v, ps[..|ps| - 1], x), ps[|ps| - 1], x)
  }

  function CursorOne(v: Option<Point>, p: Payload, c: ClientId): Option<Point> {
    if p.CursorMoveOut? && p.author == c then Some(p.p)
    else if p == MemberLeftOut(c) then None
    else v
  }

  function CursorFold(v: Option<Point>, ps: seq<Payload>, c: ClientId): Option<Point> {
    if ps == [] then v else CursorOne(CursorFold(v, ps[..|ps| - 1], c), ps[|ps| - 1], c)
  }

  lemma {:induction false} KeyedFoldProjects(k: Keyed, ps: seq<Payload>, x: StrokeId, c: ClientId)
    ensures Lookup(KeyedFold(k, ps).strokes, x) == StrokeFold(Lookup(k.strokes, x), ps, x)
    ensures Lookup(KeyedFold(k, ps).cursors, c) == CursorFold(Lookup(k.cursors, c), ps, c)
  {
    if ps != [] {
      KeyedFoldProjects(k, ps[..|ps| - 1], x, c);
    }
  }

  lemma {:induction false} StrokeFoldSelects(v: Option<Stroke>, ps: seq<Payload>, x: StrokeId)
    ensures StrokeFold(v, Select(ps, ForStroke(x)), x) == StrokeFold(v, ps, x)
  {
    if ps != [] {
      var n := |ps| - 1;
      StrokeFoldSelects(v, ps[..n], x);
      var a := Select(ps[..n], ForStroke(x));
      assert (a + [ps[n]])[..|a|] == a && a + [] == a;
    }
  }

  lemma {:induction false} CursorFoldSelects(w: Option<Point>, ps: seq<Payload>, c: ClientId)
    ensures CursorFold(w, Select(ps, ForCursor(c)), c) == CursorFold(w, ps, c)
  {
    if ps != [] {
      var n := |ps| - 1;
      CursorFoldSelects(w, ps[..n], c);
      var b := Select(ps[..n], ForCursor(c));
      assert (b + [ps[n]])[..|b|] == b && b + [] == b;
    }
  }

  /** If one author sent all that concerns `x`, the stroke's fate does not depend on the arrival order. */
  lemma OneAuthorSameFate(v: Option<Stroke>, sent: seq<Payload>, arrived: seq<Payload>, x: StrokeId, b: ClientId)
    requires KeepsAuthorOrder(sent, arrived)
    requires forall p :: p in sent && ForStroke(x)(p) ==> p.Author() == b
    ensures StrokeFold(v, arrived, x) == StrokeFold(v, sent, x)
  {
    forall p | p in arrived && ForStroke(x)(p) ensures p.Author() == b {
      ArrivalSameMembers(sent, arrived, p);
    }
    SelectTwice(sent, ForStroke(x), HasAuthor(b));
    SelectTwice(arrived, ForStroke(x), HasAuthor(b));
    assert By(arrived, b) == By(sent, b);
    StrokeFoldSelects(v, sent, x);
    StrokeFoldSelects(v, arrived, x);
  }

  lemma CursorSameFate(w: Option<Point>, sent: seq<Payload>, arrived: seq<Payload>, c: ClientId)
    requires KeepsAuthorOrder(sent, arrived)
    ensures CursorFold(w, arrived, c) == CursorFold(w, sent, c)
  {
    SelectTwice(sent, ForCursor(c), HasAuthor(c));
    SelectTwice(arrived, ForCursor(c), HasAuthor(c));
    assert By(arrived, c) == By(sent, c);
    CursorFoldSelects(w, sent, c);
    CursorFoldSelects(w, arrived, c);
  }

  predicate Begins(p: Payload, x: StrokeId) {
    p.StrokeBeginOut? && p.id == x
  }

  /** `x` is not begun after the last clear by `b`. */
  predicate Wiped(ps: seq<Payload>, x: StrokeId, b: ClientId) {
    ps == [] || ps[|ps| - 1] == ClearOut(b) || (!Begins(ps[|ps| - 1], x) && Wiped(ps[..|ps| - 1], x, b))
  }

  lemma {:induction false} WipedIsGone(v: Option<Stroke>, ps: seq<Payload>, x: StrokeId, b: ClientId)
    requires Wiped(ps, x, b)
    requires exists i :: 0 <= i < |ps| && ps[i].ClearOut?
    ensures StrokeFold(v, ps, x) == None
  {
    var n := |ps| - 1;
    if !ps[n].ClearOut? {
      var i :| 0 <= i < |ps| && ps[i].ClearOut?;
      assert ps[..n][i].ClearOut?;
      WipedIsGone(v, ps[..n], x, b);
    }
  }

  lemma {:induction false} WipedIfClearedLater(ps: seq<Payload>, x: StrokeId, b: ClientId)
    requires forall i :: 0 <= i < |ps| && Begins(ps[i], x) ==> ClearedLaterBy(ps, i, b)
    ensures Wiped(ps, x, b)
  {
    if ps != [] && ps[|ps| - 1] != ClearOut(b) {
      var n := |ps| - 1;
      forall i | 0 <= i < n && Begins(ps[..n][i], x) ensures ClearedLaterBy(ps[..n], i, b) {
        assert Begins(ps[i], x);
        var j :| i < j < |ps| && ps[j] == ClearOut(b);
        assert ps[..n][j] == ClearOut(b);
      }
      WipedIfClearedLater(ps[..n], x, b);
    }
  }

  lemma {:induction false} WipedByOwnEvents(ps: seq<Payload>, x: StrokeId, b: ClientId)
    requires forall p :: p in ps && Begins(p, x) ==> p.Author() == b
    ensures Wiped(By(ps, b), x, b) <==> Wiped(ps, x, b)
  {
    if ps != [] {
      var n := |ps| - 1;
      assert ps == ps[..n] + [ps[n]];
      WipedByOwnEvents(ps[..n], x, b);
      var a := By(ps[..n], b);
      assert (a + [ps[n]])[..|a|] == a && a + [] == a;
    }
  }

  /** If clears are harmless but another author cleared, the stroke is gone in every arrival order. */
  lemma ForeignClearSameFate(v: Option<Stroke>, sent: seq<Payload>, arrived: seq<Payload>, x: StrokeId, b: ClientId, clear: Payload)
    requires KeepsAuthorOrder(sent, arrived) && ClearsHarmless(sent)
    requires forall p :: p in sent && p.Touches(x) ==> p.Author() == b
    requires clear in sent && clear.ClearOut? && clear.author != b
    ensures StrokeFold(v, sent, x) == StrokeFold(v, arrived, x) == None
  {
    forall i | 0 <= i < |sent| && Begins(sent[i], x) ensures ClearedLaterBy(sent, i, b) {
      assert sent[i] in sent && sent[i].Touches(x);
      var j :| 0 <= j < |sent| && sent[j] == clear;
    }
    WipedIfClearedLater(sent, x, b);
    WipedIsGone(v, sent, x, b);
    WipedByOwnEvents(sent, x, b);
    ArrivalSameMembers(sent, arrived, clear);
    forall p | p in arrived && Begins(p, x) ensures p.Author() == b {
      ArrivalSameMembers(sent, arrived, p);
    }
    WipedByOwnEvents(arrived, x, b);
    assert By(arrived, b) == By(sent, b);
    WipedIsGone(v, arrived, x, b);
  }

  lemma StrokeSameFate(v: Option<Stroke>, sent: seq<Payload>, arrived: seq<Payload>, x: StrokeId)
    requires KeepsAuthorOrder(sent, arrived) && IdsByAuthor(sent) && ClearsHarmless(sent)
    ensures StrokeFold(v, arrived, x) == StrokeFold(v, sent, x)
  {
    var b := if exists p :: p in sent && p.Touches(x) then (var p :| p in sent && p.Touches(x); p.Author())
             else if exists p :: p in sent && p.ClearOut? then (var p :| p in sent && p.ClearOut?; p.Author())
             else 0;
    assert forall p :: p in sent && p.Touches(x) ==> p.Author() == b;
    if clear :| clear in sent && clear.ClearOut? && clear.author != b {
      ForeignClearSameFate(v, sent, arrived, x, b, clear);
    } else {
      forall p | p in sent && ForStroke(x)(p) ensures p.Author() == b {
      }
      OneAuthorSameFate(v, sent, arrived, x, b);
    }
  }

  /** If clears are harmless, every arrival order that keeps each author's own order gives the same replica. */
  lemma HarmlessOrderIrrelevant(k: Keyed, sent: seq<Payload>, arrived: seq<Payload>)
    requires KeepsAuthorOrder(sent, arrived) && IdsByAuthor(sent) && ClearsHarmless(sent)
    ensures KeyedFold(k, arrived) == KeyedFold(k, sent)
  {
    var a, b := KeyedFold(k, arrived), KeyedFold(k, sent);
    forall x: StrokeId ensures Lookup(a.strokes, x) == Lookup(b.strokes, x) {
      KeyedFoldProjects(k, arrived, x, 0);
      KeyedFoldProjects(k, sent, x, 0);
      StrokeSameFate(Lookup(k.strokes, x), sent, arrived, x);
    }
    forall c: ClientId ensures Lookup(a.cursors, c) == Lookup(b.cursors, c) {
      KeyedFoldProjects(k, arrived, 0, c);
      KeyedFoldProjects(k, sent, 0, c);
      CursorSameFate(Lookup(k.cursors, c), sent, arrived, c);
    }
    SameLookups(a.strokes, b.strokes);
    SameLookups(a.cursors, b.cursors);
  }

  lemma SameLookups<K(!new), V>(m: map<K, V>, m': map<K, V>)
    requires forall x :: Lookup(m, x) == Lookup(m', x)
    ensures m == m'
  {
    forall x ensures x in m <==> x in m' {
      assert Lookup(m, x) == Lookup(m', x);
    }
    forall x | x in m ensures m[x] == m'[x] {
      assert Lookup(m, x) == Lookup(m', x);
    }
  }

  // ----- When a clear does harm -----

  lemma {:induction false} BegunSurvives(v: Option<Stroke>, ps: seq<Payload>, i: nat, x: StrokeId)
    requires i < |ps| && Begins(ps[i], x)
    requires forall j :: i < j < |ps| ==> !ps[j].ClearOut?
    ensures StrokeFold(v, ps, x).Some?
  {
    var n := |ps| - 1;
    if i < n {
      assert Begins(ps[..n][i], x);
      BegunSurvives(v, ps[..n], i, x);
    }
  }

  lemma {:induction false} WipedByTail(ps: seq<Payload>, qs: seq<Payload>, x: StrokeId, c: ClientId)
    requires ClearOut(c) in qs
    requires forall p :: p in qs ==> !Begins(p, x)
    ensures Wiped(ps + qs, x, c)
  {
    var n := |qs| - 1;
    assert (ps + qs)[|ps + qs| - 1] == qs[n] && qs[n] in qs;
    if qs[n] != ClearOut(c) {
      assert qs == qs[..n] + [qs[n]];
      assert (ps + qs)[..|ps + qs| - 1] == ps + qs[..n];
      WipedByTail(ps, qs[..n], x, c);
    }
  }

  /** Sending one author's events before or after all the others' is an arrival order. */
  lemma SplitByAuthor(sent: seq<Payload>, b: ClientId)
    ensures KeepsAuthorOrder(sent, By(sent, b) + Select(sent, NotAuthor(b)))
    ensures KeepsAuthorOrder(sent, Select(sent, NotAuthor(b)) + By(sent, b))
  {
    var own, others := By(sent, b), Select(sent, NotAuthor(b));
    forall a
      ensures By(own + others, a) == By(sent, a)
      ensures By(others + own, a) == By(sent, a)
    {
      SelectConcat(own, others, HasAuthor(a));
      SelectConcat(others, own, HasAuthor(a));
      if a == b {
        SelectTwice(sent, HasAuthor(b), HasAuthor(b));
        forall p | p in others ensures p.Author() != b { SelectedIn(sent, NotAuthor(b), p); }
        SelectNone(others, HasAuthor(b));
      } else {
        SelectTwice(sent, HasAuthor(a), NotAuthor(b));
        forall p | p in own ensures p.Author() == b { SelectedIn(sent, HasAuthor(b), p); }
        SelectNone(own, HasAuthor(a));
      }
    }
  }

  lemma WipedWhenOwnFirst(v: Option<Stroke>, sent: seq<Payload>, x: StrokeId, b: ClientId, clear: Payload)
    requires forall p :: p in sent && p.Touches(x) ==> p.Author() == b
    requires clear in sent && clear.ClearOut? && clear.author != b
    ensures StrokeFold(v, By(sent, b) + Select(sent, NotAuthor(b)), x) == None
  {
    var own, others := By(sent, b), Select(sent, NotAuthor(b));
    SelectedIn(sent, NotAuthor(b), clear);
    forall p | p in others ensures !Begins(p, x) {
      SelectedIn(sent, NotAuthor(b), p);
    }
    WipedByTail(own, others, x, clear.author);
    var j :| 0 <= j < |others| && others[j] == clear;
    assert (own + others)[|own| + j].ClearOut?;
    WipedIsGone(v, own + others, x, clear.author);
  }

  lemma AliveWhenOwnLast(v: Option<Stroke>, sent: seq<Payload>, i: nat, x: StrokeId, b: ClientId)
    requires i < |sent| && Begins(sent[i], x) && sent[i].author == b && !ClearedLaterBy(sent, i, b)
    ensures StrokeFold(v, Select(sent, NotAuthor(b)) + By(sent, b), x).Some?
  {
    var before, after := sent[..i], sent[i + 1..];
    assert sent == before + [sent[i]] + after;
    SelectConcat(before + [sent[i]], after, HasAuthor(b));
    SelectConcat(before, [sent[i]], HasAuthor(b));
    assert [sent[i]][..0] == [];
    assert By(sent, b) == By(before, b) + [sent[i]] + By(after, b);
    var arrived := Select(sent, NotAuthor(b)) + By(sent, b);
    var at := |Select(sent, NotAuthor(b))| + |By(before, b)|;
    forall j | at < j < |arrived| ensures !arrived[j].ClearOut? {
      var p := arrived[j];
      assert p == By(after, b)[j - at - 1];
      SelectedIn(after, HasAuthor(b), p);
      var m :| 0 <= m < |after| && after[m] == p;
      assert sent[i + 1 + m] == p;
    }
    BegunSurvives(v, arrived, at, x);
  }

  /** Otherwise some arrival order that keeps each author's own order gives another replica. */
  lemma HarmfulClearDiverges(k: Keyed, sent: seq<Payload>)
    requires IdsByAuthor(sent) && !ClearsHarmless(sent)
    ensures exists arrived :: KeepsAuthorOrder(sent, arrived) && KeyedFold(k, arrived) != KeyedFold(k, sent)
  {
    var i :| 0 <= i < |sent| && sent[i].StrokeBeginOut? && !ClearedLaterBy(sent, i, sent[i].author)
             && exists j :: 0 <= j < |sent| && sent[j].ClearOut? && sent[j].author != sent[i].author;
    var x, b := sent[i].id, sent[i].author;
    var j :| 0 <= j < |sent| && sent[j].ClearOut? && sent[j].author != b;
    assert sent[j] in sent;
    var ownFirst := By(sent, b) + Select(sent, NotAuthor(b));
    var ownLast := Select(sent, NotAuthor(b)) + By(sent, b);
    var v := Lookup(k.strokes, x);
    SplitByAuthor(sent, b);
    WipedWhenOwnFirst(v, sent, x, b, sent[j]);
    AliveWhenOwnLast(v, sent, i, x, b);
    KeyedFoldProjects(k, ownFirst, x, 0);
    KeyedFoldProjects(k, ownLast, x, 0);
    assert KeyedFold(k, ownFirst) != KeyedFold(k, ownLast);
  }

  /** Arrival order does not matter exactly when every clear is harmless. */
  lemma OrderIrrelevantIff(k: Keyed, sent: seq<Payload>)
    requires IdsByAuthor(sent)
    ensures (forall arrived :: KeepsAuthorOrder(sent, arrived) ==> KeyedFold(k, arrived) == KeyedFold(k, sent)) <==> ClearsHarmless(sent)
  {
    if ClearsHarmless(sent) {
      forall arrived | KeepsAuthorOrder(sent, arrived) ensures KeyedFold(k, arrived) == KeyedFold(k, sent) {
        HarmlessOrderIrrelevant(k, sent, arrived);
      }
    } else {
      HarmfulClearDiverges(k, sent);
    }
  }

  // ----- One arrival order -----

  function OfStroke(x: StrokeId): Payload -> bool {
    (p: Payload) => p.Touches(x)
  }

  /** A stroke that is there in the end was not cleared meanwhile: its own events alone make it. */
  lemma {:induction false} AliveFromOwn(v: Option<Stroke>, ps: seq<Payload>, x: StrokeId)
    ensures StrokeFold(v, ps, x).Some? ==> StrokeFold(v, ps, x) == StrokeFold(v, Select(ps, OfStroke(x)), x)
  {
    if ps != [] {
      var n := |ps| - 1;
      AliveFromOwn(v, ps[..n], x);
      var own := Select(ps[..n], OfStroke(x));
      assert (own + [ps[n]])[..|own|] == own && own + [] == own;
    }
  }

  lemma AliveSame(v: Option<Stroke>, sent: seq<Payload>, arrived: seq<Payload>, x: StrokeId)
    requires KeepsAuthorOrder(sent, arrived) && IdsByAuthor(sent)
    requires StrokeFold(v, sent, x).Some? && StrokeFold(v, arrived, x).Some?
    ensures StrokeFold(v, sent, x) == StrokeFold(v, arrived, x)
  {
    AliveFromOwn(v, sent, x);
    AliveFromOwn(v, arrived, x);
    OwnSame(sent, arrived, x);
  }

  lemma OwnSame(sent: seq<Payload>, arrived: seq<Payload>, x: StrokeId)
    requires KeepsAuthorOrder(sent, arrived) && IdsByAuthor(sent)
    ensures Select(sent, OfStroke(x)) == Select(arrived, OfStroke(x))
  {
    if p :| p in sent && p.Touches(x) {
      var b := p.Author();
      forall q | q in sent && q.Touches(x) ensures q.Author() == b {
        var i :| 0 <= i < |sent| && sent[i] == p;
        var j :| 0 <= j < |sent| && sent[j] == q;
        assert sent[i].Author() == sent[j].Author();
      }
      forall q | q in arrived && q.Touches(x) ensures q.Author() == b {
        ArrivalSameMembers(sent, arrived, q);
      }
      SelectTwice(sent, OfStroke(x), HasAuthor(b));
      SelectTwice(arrived, OfStroke(x), HasAuthor(b));
      assert By(arrived, b) == By(sent, b);
    } else {
      forall q | q in arrived ensures !q.Touches(x) {
        ArrivalSameMembers(sent, arrived, q);
      }
      SelectNone(sent, OfStroke(x));
      SelectNone(arrived, OfStroke(x));
    }
  }

  /** For one arrival order that keeps each author's own, the replicas agree as soon as they hold the same strokes by name. */
  lemma NamesDecide(k: Keyed, sent: seq<Payload>, arrived: seq<Payload>)
    requires KeepsAuthorOrder(sent, arrived) && IdsByAuthor(sent)
    requires KeyedFold(k, arrived).strokes.Keys == KeyedFold(k, sent).strokes.Keys
    ensures KeyedFold(k, arrived) == KeyedFold(k, sent)
  {
    var a, b := KeyedFold(k, arrived), KeyedFold(k, sent);
    forall x: StrokeId ensures Lookup(a.strokes, x) == Lookup(b.strokes, x) {
      KeyedFoldProjects(k, arrived, x, 0);
      KeyedFoldProjects(k, sent, x, 0);
      if x in a.strokes {
        AliveSame(Lookup(k.strokes, x), sent, arrived, x);
      }
    }
    forall c: ClientId ensures Lookup(a.cursors, c) == Lookup(b.cursors, c) {
      KeyedFoldProjects(k, arrived, 0, c);
      KeyedFoldProjects(k, sent, 0, c);
      CursorSameFate(Lookup(k.cursors, c), sent, arrived, c);
    }
    SameLookups(a.strokes, b.strokes);
    SameLookups(a.cursors, b.cursors);
  }

  lemma {:induction false} KeyedFoldConcat(k: Keyed, ps: seq<Payload>, qs: seq<Payload>)
    ensures KeyedFold(k, ps + qs) == KeyedFold(KeyedFold(k, ps), qs)
  {
    if qs == [] {
      assert ps + qs == ps;
    } else {
      var n := |qs| - 1;
      assert (ps + qs)[..|ps + qs| - 1] == ps + qs[..n];
      KeyedFoldConcat(k, ps, qs[..n]);
    }
  }

  lemma KeyedFoldOne(k: Keyed, p: Payload)
    ensures KeyedFold(k, [p]) == KeyedOne(k, p)
  {
    assert [p][..0] == [];
    assert KeyedFold(k, []) == k;
  }
}
