/**
 What commands write, field by field. Objects and frames are described here by the values
 they hold, apart from the functions that compute them.
 */
module BoardFields {
  import opened Basics
  import opened BoardDocument
  import opened BoardCommands
  import opened BoardEffects

  /** The value supplied, or another one if none was. */
  function Given<T>(value: Option<T>, otherwise: T): T {
    match value
    case Some(v) => v
    case None => otherwise
  }

  // ---------- the extent of a path ----------

  function At(ps: seq<Point>, i: nat, vertical: bool): real
    requires i < |ps|
  {
    if vertical then ps[i].y else ps[i].x
  }

  /** The points lie at most this far apart, and two of them do. */
  predicate Spans(ps: seq<Point>, vertical: bool, extent: real) {
    && (exists i, j :: 0 <= i < |ps| && 0 <= j < |ps| && At(ps, i, vertical) - At(ps, j, vertical) == extent)
    && forall i, j :: 0 <= i < |ps| && 0 <= j < |ps| ==> At(ps, i, vertical) - At(ps, j, vertical) <= extent
  }

  lemma {:induction false} LeastIsLeast(ps: seq<Point>, vertical: bool)
    requires ps != []
    ensures exists i :: 0 <= i < |ps| && At(ps, i, vertical) == Least(ps, vertical)
    ensures exists i :: 0 <= i < |ps| && At(ps, i, vertical) == Greatest(ps, vertical)
    ensures forall i :: 0 <= i < |ps| ==> Least(ps, vertical) <= At(ps, i, vertical) <= Greatest(ps, vertical)
  {
    assert At(ps, 0, vertical) == if vertical then ps[0].y else ps[0].x;
    if |ps| > 1 {
      LeastIsLeast(ps[1..], vertical);
      forall i | 1 <= i < |ps| ensures At(ps, i, vertical) == At(ps[1..], i - 1, vertical) {}
      var i :| 0 <= i < |ps[1..]| && At(ps[1..], i, vertical) == Least(ps[1..], vertical);
      var j :| 0 <= j < |ps[1..]| && At(ps[1..], j, vertical) == Greatest(ps[1..], vertical);
      assert At(ps, i + 1, vertical) == Least(ps[1..], vertical);
      assert At(ps, j + 1, vertical) == Greatest(ps[1..], vertical);
    }
  }

  /** The extent computed in one pass is the greatest distance between two points. */
  lemma ExtentSpans(ps: seq<Point>, vertical: bool)
    requires ps != []
    ensures Spans(ps, vertical, Extent(ps, vertical))
  {
    hide Least, Greatest, At;
    LeastIsLeast(ps, vertical);
  }

  // ---------- objects ----------

  function WholeTurns(n: int): real { 360.0 * n as real }

  /** The same direction, in degrees from 0 up to 360. */
  ghost predicate Reduced(from: real, to: real) { 0.0 <= to < 360.0 && exists n: int :: from - to == WholeTurns(n) }

  lemma AngleReduces(v: real)
    ensures Reduced(v, Angle(v))
  {
    AngleInRange(v);
    assert v - Angle(v) == WholeTurns((v / 360.0).Floor);
  }

  predicate WritesText(kind: Kind) { kind in {Text, Note, Bubble} }

  /**
   n holds the values v. Its rotation is reduced; a path lies where its points do; points
   belong to paths, text and font size to texts and cards.
   */
  ghost predicate HasValues(n: Object, v: Object) {
    && n.id == v.id && n.kind == v.kind && n.stroke == v.stroke && n.fill == v.fill && n.strokeWidth == v.strokeWidth
    && Reduced(v.rotation, n.rotation)
    && (if n.kind == Path then
          && n.x == 0.0 && n.y == 0.0 && n.points == v.points
          && Spans(n.points, false, n.width) && Spans(n.points, true, n.height)
        else n.x == v.x && n.y == v.y && n.width == v.width && n.height == v.height && n.points == [])
    && (if WritesText(n.kind) then n.text == v.text && n.fontSize == v.fontSize else n.text == "" && n.fontSize == 0.0)
  }

  predicate OnBoard(v: real) { -1000000.0 <= v <= 1000000.0 }

  predicate SizeAllowed(kind: Kind, v: real) {
    v <= 1000000.0
      && match kind case Line => -1000000.0 <= v case Note => 1.0 <= v case Bubble => 1.0 <= v case _ => 0.0 <= v
  }

  /** The points of a path are on the board and nowhere further apart than the board is wide. */
  predicate PointsAllowed(ps: seq<Point>) {
    && 1 <= |ps| <= 100000 && (forall i :: 0 <= i < |ps| ==> OnBoard(ps[i].x) && OnBoard(ps[i].y))
    && forall i, j, vertical ::
       0 <= i < |ps| && 0 <= j < |ps| ==> At(ps, i, vertical) - At(ps, j, vertical) <= 1000000.0
  }

  /** The limits every object is held to. */
  predicate Allowed(v: Object) {
    && Identifier(v.id) && Color(v.stroke) && Color(v.fill)
    && OnBoard(v.x) && OnBoard(v.y) && SizeAllowed(v.kind, v.width) && SizeAllowed(v.kind, v.height)
    && 0.0 <= v.strokeWidth <= 256.0 && OnBoard(v.rotation)
    && (v.kind == Path ==> PointsAllowed(v.points))
    && (WritesText(v.kind) ==> |v.text| <= 10000 && 1.0 <= v.fontSize <= 512.0)
  }

  /** The values asked for: those supplied, and the documented ones for what is missing. */
  function Asked(input: ObjectInput, kind: Kind, id: string): Object {
    var card := kind == Note || kind == Bubble;
    Object(
      id := id, kind := kind, x := Given(input.x, 0.0), y := Given(input.y, 0.0),
      width := Given(input.width, if card then 220.0 else 0.0),
      height := Given(input.height, if card then 140.0 else 0.0),
      stroke := Given(input.stroke, "#1f2937"), fill := Given(input.fill, "transparent"),
      strokeWidth := Given(input.strokeWidth, 3.0), rotation := Given(input.rotation, 0.0),
      points := Given(input.points, []), text := Given(input.text, ""), fontSize := Given(input.fontSize, 24.0))
  }

  lemma PointsAllowedIff(ps: seq<Point>)
    ensures PointsAllowed(ps) <==>
            PointsOk(ps) && Extent(ps, false) <= MAX_COORDINATE && Extent(ps, true) <= MAX_COORDINATE
  {
    hide Extent;
    if ps != [] {
      ExtentSpans(ps, false);
      ExtentSpans(ps, true);
    }
  }

  lemma AllowedIff(v: Object)
    ensures Allowed(v) <==>
            && FieldsOk(v) && (v.kind == Path ==> PointsAllowed(v.points))
            && (HasText(v.kind) ==> |v.text| <= 10000 && InRange(v.fontSize, 1.0, 512.0))
  {
    hide Identifier, Color, PointsAllowed;
  }

  /**
   An object is taken exactly when it has a supported type, an id, points if it is a path,
   and keeps the limits; it then holds the values asked for.
   */
  lemma ObjectTaken(input: ObjectInput, generated: Option<string>)
    ensures var r := NormalizeObject(input, generated);
            && (r.Ok? <==>
                && input.kind.Some? && (input.id.Some? || generated.Some?)
                && (input.kind.value == Path ==> input.points.Some?)
                && Allowed(Asked(input, input.kind.value, if input.id.Some? then input.id.value else generated.value)))
            && (r.Ok? ==>
                HasValues(r.value,
                      Asked(input, input.kind.value, if input.id.Some? then input.id.value else generated.value)))
            && (r.Err? ==> r.error == InvalidInput)
  {
    hide Identifier, Color, Allowed, PointsAllowed, PointsOk, Extent, Spans, Angle, Reduced, FieldsOk;
    if input.kind.Some? && (input.id.Some? || generated.Some?) {
      var v := Asked(input, input.kind.value, if input.id.Some? then input.id.value else generated.value);
      FilledAsAsked(input, v.kind, v.id);
      AllowedIff(v);
      AngleReduces(v.rotation);
      if v.points != [] {
        PointsAllowedIff(v.points);
        ExtentSpans(v.points, false);
        ExtentSpans(v.points, true);
      } else {
        NoPoints();
      }
    }
  }

  lemma NoPoints()
    ensures !PointsAllowed([]) && !PointsOk([])
  {}

  lemma FilledAsAsked(input: ObjectInput, kind: Kind, id: string)
    ensures var v, f := Asked(input, kind, id), Filled(input, kind, id);
            && f == v.(points := [], text := "", fontSize := 0.0) && (FieldsOk(f) <==> FieldsOk(v))
            && (input.points.Some? ==> v.points == input.points.value)
            && v.text == Or(input.text, "") && v.fontSize == Or(input.fontSize, 24.0)
  {
    hide Identifier, Color;
  }

  // ---------- one object for the values ----------

  lemma ReducedOnce(v: real, a: real, b: real)
    requires Reduced(v, a) && Reduced(v, b)
    ensures a == b
  {
    hide WholeTurns;
    var m: int :| v - a == WholeTurns(m);
    var n: int :| v - b == WholeTurns(n);
    TurnsApart(m, n);
    TurnsApart(n, m);
  }

  lemma TurnsApart(m: int, n: int)
    ensures m < n ==> WholeTurns(n) - WholeTurns(m) >= 360.0
  {}

  lemma SpansOnce(ps: seq<Point>, vertical: bool, a: real, b: real)
    requires Spans(ps, vertical, a) && Spans(ps, vertical, b)
    ensures a == b
  {}

  /** The values an object holds determine it. */
  lemma OneForValues(a: Object, b: Object, v: Object)
    requires HasValues(a, v) && HasValues(b, v)
    ensures a == b
  {
    hide Reduced, Spans;
    ReducedOnce(v.rotation, a.rotation, b.rotation);
    if v.kind == Path {
      SpansOnce(v.points, false, a.width, b.width);
      SpansOnce(v.points, true, a.height, b.height);
    }
  }

  /** An object is as validation leaves it exactly when it keeps the limits and holds its own values. */
  lemma NormalIffAllowed(o: Object)
    ensures NormalObject(o) <==> Allowed(o) && HasValues(o, o)
  {
    hide NormalizeObject, Allowed, HasValues, Asked;
    var v := Asked(AsInput(o), o.kind, o.id);
    ObjectTaken(AsInput(o), None);
    SameLimits(o);
    if NormalizeObject(AsInput(o), None).Ok? {
      var n := NormalizeObject(AsInput(o), None).value;
      if HasValues(o, v) { OneForValues(o, n, v); }
    }
  }

  lemma SameLimits(o: Object)
    ensures var v := Asked(AsInput(o), o.kind, o.id);
            && (Allowed(v) <==> Allowed(o)) && (HasValues(o, v) <==> HasValues(o, o))
            && AsInput(o).kind == Some(o.kind) && AsInput(o).id == Some(o.id)
            && (o.kind == Path ==> AsInput(o).points.Some?)
  {
    hide Identifier, Color, PointsAllowed, Spans, Reduced;
  }

  // ---------- creating ----------

  /** The limits on the commands of one execution and on their nesting. */
  predicate Counted(d: Draft, depth: nat) { d.commandCount < 2000 && depth <= 5 }

  /** The id an object gets: its own, or a generated one. */
  function IdOf(input: ObjectInput, generated: string): string { Given(input.id, generated) }

  predicate Takes(input: ObjectInput, generated: string) {
    && input.kind.Some? && (input.kind.value == Path ==> input.points.Some?)
    && Allowed(Asked(input, input.kind.value, IdOf(input, generated)))
  }

  function PointsOf(v: Object): nat { if v.kind == Path then |v.points| else 0 }

  lemma HeldPoints(n: Object, v: Object)
    requires HasValues(n, v)
    ensures |n.points| == PointsOf(v) && n.id == v.id
  {
    hide Reduced, Spans;
  }

  /** The board has room for one more object with these values. */
  predicate Spare(d: Draft, v: Object) {
    && |d.doc.objects| < 3000 && d.totalPoints + PointsOf(v) <= 100000
    && forall i :: 0 <= i < |d.doc.objects| ==> d.doc.objects[i].id != v.id
  }

  lemma AddObjectWrites(input: ObjectInput, generated: string, d: Draft)
    ensures var r := AddObject(input, generated, d);
            && (r.Ok? <==>
                Takes(input, generated) && Spare(d, Asked(input, input.kind.value, IdOf(input, generated))))
            && (r.Err? ==> r.error == InvalidInput)
            && (r.Ok? ==>
                var v := Asked(input, input.kind.value, IdOf(input, generated));
                && |r.value.doc.objects| == |d.doc.objects| + 1 && HasValues(r.value.doc.objects[|d.doc.objects|], v)
                && r.value == Draft(d.doc.(objects := d.doc.objects + [r.value.doc.objects[|d.doc.objects|]]),
                                    d.totalPoints + PointsOf(v), d.commandCount))
  {
    hide NormalizeObject, Allowed, Asked, Find, HasValues, PointsOf;
    ObjectTaken(input, Some(generated));
    if NormalizeObject(input, Some(generated)).Ok? {
      HeldPoints(NormalizeObject(input, Some(generated)).value,
                 Asked(input, input.kind.value, IdOf(input, generated)));
      assert Takes(input, generated);
    }
  }

  /** When an object is created, and what it then holds. */
  lemma CreateWrites(h: Host, input: ObjectInput, generated: string, d: Draft, depth: nat)
    ensures var r := Run(h, Create(input, generated), d, depth);
            && (r.Ok? <==>
                && Counted(d, depth) && Takes(input, generated)
                && Spare(d, Asked(input, input.kind.value, IdOf(input, generated))))
            && (r.Err? ==> r.error == InvalidInput)
    ensures var r := Run(h, Create(input, generated), d, depth);
            r.Ok? ==>
              var v := Asked(input, input.kind.value, IdOf(input, generated));
              && |r.value.doc.objects| == |d.doc.objects| + 1 && HasValues(r.value.doc.objects[|d.doc.objects|], v)
              && r.value == Draft(d.doc.(objects := d.doc.objects + [r.value.doc.objects[|d.doc.objects|]]),
                                  d.totalPoints + PointsOf(v), d.commandCount + 1)
  {
    hide AddObject, Asked, HasValues, Takes, Spare, PointsOf;
    AddObjectWrites(input, generated, d.(commandCount := d.commandCount + 1));
    SpareCounted(d, d.(commandCount := d.commandCount + 1));
  }

  lemma SpareCounted(d: Draft, e: Draft)
    requires e == d.(commandCount := e.commandCount)
    ensures forall v :: Spare(d, v) == Spare(e, v)
  {}

  // ---------- naming objects ----------

  predicate NamesAllowed(ids: seq<string>) {
    1 <= |ids| <= 3000 && forall k :: 0 <= k < |ids| ==> Identifier(ids[k])
  }

  predicate AllThere(objects: seq<Object>, ids: seq<string>) {
    forall id :: id in ids ==> exists i :: 0 <= i < |objects| && objects[i].id == id
  }

  lemma {:induction false} IndicesOutcome(objects: seq<Object>, ids: seq<string>)
    ensures Indices(objects, ids).Ok? <==> AllThere(objects, ids)
    ensures Indices(objects, ids).Err? ==> Indices(objects, ids).error == NotFound
  {
    hide Find;
    if ids != [] {
      IndicesOutcome(objects, ids[1..]);
      var i := Find(objects, ids[0]);
      assert ids[0] in ids && forall id :: id in ids <==> id == ids[0] || id in ids[1..];
      assert i < |objects| ==> objects[i].id == ids[0];
    }
  }

  /** Which lists of names are accepted, and which error the others get. */
  lemma NamesOutcome(objects: seq<Object>, ids: seq<string>)
    ensures var r := IndexFor(objects, ids);
            && (r.Ok? <==> NamesAllowed(ids) && AllThere(objects, ids))
            && (r.Err? ==> r.error == if NamesAllowed(ids) then NotFound else InvalidInput)
  {
    hide Identifier, Indices;
    UniqueHolds(ids);
    IndicesOutcome(objects, Unique(ids));
  }

  // ---------- updating ----------

  /** The object with the values of the changes where some are given, and its own elsewhere. */
  function Changed(o: Object, c: Changes): Object {
    o.(x := Given(c.x, o.x), y := Given(c.y, o.y), width := Given(c.width, o.width),
      height := Given(c.height, o.height),
       stroke := Given(c.stroke, o.stroke), fill := Given(c.fill, o.fill),
       strokeWidth := Given(c.strokeWidth, o.strokeWidth), rotation := Given(c.rotation, o.rotation),
       points := Given(c.points, o.points), text := Given(c.text, o.text), fontSize := Given(c.fontSize, o.fontSize))
  }

  /** A path is not given another place: its points are where it lies. */
  predicate Updatable(o: Object, c: Changes) {
    && (o.kind == Path ==> Given(c.x, 0.0) == 0.0 && Given(c.y, 0.0) == 0.0)
    && Allowed(Changed(o, c))
  }

  lemma OverlayTaken(o: Object, c: Changes)
    ensures var r := NormalizeObject(Overlay(o, c), None);
            && (r.Ok? <==> Allowed(Changed(o, c)))
            && (r.Ok? ==> HasValues(r.value, Changed(o, c)))
            && (r.Err? ==> r.error == InvalidInput)
  {
    hide Identifier, Color, PointsAllowed, Spans, Reduced, NormalizeObject;
    ObjectTaken(Overlay(o, c), None);
    var v := Asked(Overlay(o, c), o.kind, o.id);
    OverlayAsked(o, c);
  }

  lemma OverlayAsked(o: Object, c: Changes)
    ensures var v, w := Asked(Overlay(o, c), o.kind, o.id), Changed(o, c);
            && Overlay(o, c).kind == Some(o.kind) && Overlay(o, c).id == Some(o.id)
            && (o.kind == Path ==> Overlay(o, c).points.Some? && v.points == w.points)
            && (WritesText(o.kind) ==> v.text == w.text && v.fontSize == w.fontSize)
            && w == v.(points := w.points, text := w.text, fontSize := w.fontSize)
  {}

  /** How many points an update adds. */
  function Growth(o: Object, c: Changes): int { PointsOf(Changed(o, c)) - |o.points| }

  lemma UpdateAtIs(index: nat, c: Changes, d: Draft)
    requires index < |d.doc.objects|
    ensures var o, r := d.doc.objects[index], UpdateAt(index, c, d);
            && (r.Ok? <==> Updatable(o, c) && d.totalPoints + Growth(o, c) <= 100000)
            && (r.Ok? ==>
                && |r.value.doc.objects| == |d.doc.objects| && HasValues(r.value.doc.objects[index], Changed(o, c))
                && r.value == d.(doc := d.doc.(objects := d.doc.objects[index := r.value.doc.objects[index]]),
                                 totalPoints := d.totalPoints + Growth(o, c)))
            && (r.Err? ==> r.error == InvalidInput)
  {
    hide NormalizeObject, Allowed, Changed, Overlay, Reduced, Spans;
    OverlayTaken(d.doc.objects[index], c);
  }

  /** The points stay within their limit after each update in turn. */
  predicate Room(total: int, objects: seq<Object>, indices: seq<nat>, c: Changes)
    requires forall k :: 0 <= k < |indices| ==> indices[k] < |objects|
    decreases |indices|
  {
    indices == [] ||
    var after := total + Growth(objects[indices[0]], c);
    after <= 100000 && Room(after, objects, indices[1..], c)
  }

  lemma {:induction false} RoomElsewhere(
    total: int, a: seq<Object>, b: seq<Object>, indices: seq<nat>, c: Changes)
    requires |a| == |b| && forall k :: 0 <= k < |indices| ==> indices[k] < |a| && a[indices[k]] == b[indices[k]]
    ensures Room(total, a, indices, c) == Room(total, b, indices, c)
    decreases |indices|
  {
    if indices != [] { RoomElsewhere(total + Growth(a[indices[0]], c), a, b, indices[1..], c); }
  }

  lemma {:induction false} UpdateEachOutcome(indices: seq<nat>, c: Changes, d: Draft)
    requires Distinct(indices) && forall k :: 0 <= k < |indices| ==> indices[k] < |d.doc.objects|
    ensures var r := UpdateEach(indices, c, d);
            && (r.Ok? <==>
                && (forall i :: 0 <= i < |d.doc.objects| && i in indices ==> Updatable(d.doc.objects[i], c))
                && Room(d.totalPoints, d.doc.objects, indices, c))
            && (r.Err? ==> r.error == InvalidInput)
    decreases |indices|
  {
    hide UpdateAt, Updatable, Growth, HasValues, Changed;
    if indices != [] {
      var first, rest := indices[0], indices[1..];
      assert indices == [first] + rest && first !in rest;
      UpdateAtIs(first, c, d);
      var r := UpdateAt(first, c, d);
      if r.Ok? {
        UpdateEachOutcome(rest, c, r.value);
        RoomElsewhere(r.value.totalPoints, d.doc.objects, r.value.doc.objects, rest, c);
        assert forall i :: i in indices <==> i == first || i in rest;
      }
    }
  }

  lemma UpdateEachWrites(indices: seq<nat>, c: Changes, d: Draft)
    requires Distinct(indices) && (forall k :: 0 <= k < |indices| ==> indices[k] < |d.doc.objects|)
    requires UpdateEach(indices, c, d).Ok?
    ensures var e := UpdateEach(indices, c, d).value;
            && |e.doc.objects| == |d.doc.objects| && e.doc == d.doc.(objects := e.doc.objects)
            && forall i :: 0 <= i < |d.doc.objects| ==>
                 if i in indices then HasValues(e.doc.objects[i], Changed(d.doc.objects[i], c))
                 else e.doc.objects[i] == d.doc.objects[i]
  {
    hide UpdateEach, HasValues, Changed, NormalizeObject, Overlay, Allowed;
    UpdateEachIs(indices, c, d);
    forall i | 0 <= i < |d.doc.objects| && i in indices
      ensures HasValues(UpdateEach(indices, c, d).value.doc.objects[i], Changed(d.doc.objects[i], c))
    {
      OverlayTaken(d.doc.objects[i], c);
    }
  }

  /**
   When objects are updated, and what each then holds: every value given, and its own elsewhere.
   The others are left alone.
   */
  lemma UpdateWrites(h: Host, ids: seq<string>, c: Changes, d: Draft, depth: nat)
    requires DistinctObjects(d.doc.objects)
    ensures var r := Run(h, Update(ids, c), d, depth);
            && (r.Ok? <==>
                && Counted(d, depth) && !c.unsupported && NamesAllowed(ids) && AllThere(d.doc.objects, ids)
                && (forall i :: 0 <= i < |d.doc.objects| && d.doc.objects[i].id in ids ==>
                      Updatable(d.doc.objects[i], c))
                && IndexFor(d.doc.objects, ids).Ok?
                && Room(d.totalPoints, d.doc.objects, IndexFor(d.doc.objects, ids).value, c))
    ensures var r := Run(h, Update(ids, c), d, depth);
            r.Ok? ==>
              && |r.value.doc.objects| == |d.doc.objects| && r.value.doc == d.doc.(objects := r.value.doc.objects)
              && forall i :: 0 <= i < |d.doc.objects| ==>
                   if d.doc.objects[i].id in ids then HasValues(r.value.doc.objects[i], Changed(d.doc.objects[i], c))
                   else r.value.doc.objects[i] == d.doc.objects[i]
  {
    hide IndexFor, UpdateEach, Updatable, HasValues, Changed, DistinctObjects, NamesAllowed, AllThere, Room;
    NamesOutcome(d.doc.objects, ids);
    if Counted(d, depth) && IndexFor(d.doc.objects, ids).Ok? {
      IndexForAre(d.doc.objects, ids);
      var e := d.(commandCount := d.commandCount + 1);
      UpdateEachOutcome(IndexFor(d.doc.objects, ids).value, c, e);
      if UpdateEach(IndexFor(d.doc.objects, ids).value, c, e).Ok? {
        UpdateEachWrites(IndexFor(d.doc.objects, ids).value, c, e);
      }
    }
  }

  /** Without new points there is always room. */
  lemma {:induction false} RoomWithoutPoints(total: int, objects: seq<Object>, indices: seq<nat>, c: Changes)
    requires forall k :: 0 <= k < |indices| ==> indices[k] < |objects|
    requires total <= 100000 && c.points.None?
    ensures Room(total, objects, indices, c)
    decreases |indices|
  {
    if indices != [] {
      assert Growth(objects[indices[0]], c) <= 0;
      RoomWithoutPoints(total + Growth(objects[indices[0]], c), objects, indices[1..], c);
    }
  }

  // ---------- frames ----------

  /** The limits every frame is held to. */
  predicate FrameAllowed(v: Frame) {
    && Identifier(v.id) && |v.title| <= 200 && |v.description| <= 2000 && OnBoard(v.x) && OnBoard(v.y)
    && 1.0 <= v.width <= 1000000.0 && 1.0 <= v.height <= 1000000.0
  }

  /** Whether a frame is supplied with a place and a size, which have no values of their own. */
  predicate HasPlace(input: FrameInput) {
    input.x.Some? && input.y.Some? && input.width.Some? && input.height.Some?
  }

  /** The frame asked for. */
  function AskedFrame(input: FrameInput, id: string): Frame
    requires HasPlace(input)
  {
    Frame(
      id := id, title := Given(input.title, "Untitled frame"), description := Given(input.description, ""),
      x := input.x.value, y := input.y.value, width := input.width.value, height := input.height.value)
  }

  /** A frame is taken exactly when it has an id, a place and a size, and keeps the limits. */
  lemma FrameTaken(input: FrameInput, generated: Option<string>)
    ensures NormalizeFrame(input, generated)
            == if (input.id.None? && generated.None?) || !HasPlace(input) then Err(InvalidInput)
               else
                 var v := AskedFrame(input, if input.id.Some? then input.id.value else generated.value);
                 if FrameAllowed(v) then Ok(v) else Err(InvalidInput)
  {
    hide Identifier;
  }

  /** When a frame is added, and which. */
  lemma FrameAddWrites(h: Host, input: FrameInput, generated: string, d: Draft, depth: nat)
    ensures var r := Run(h, FrameAdd(input, generated), d, depth);
            && (r.Ok? <==>
                && Counted(d, depth) && |d.doc.frames| < 30 && HasPlace(input)
                && FrameAllowed(AskedFrame(input, Given(input.id, generated)))
                && forall i :: 0 <= i < |d.doc.frames| ==> d.doc.frames[i].id != Given(input.id, generated))
            && (r.Ok? ==>
                var v := AskedFrame(input, Given(input.id, generated));
                r.value == Draft(d.doc.(frames := d.doc.frames + [v]), d.totalPoints, d.commandCount + 1))
            && (r.Err? ==> r.error == InvalidInput)
  {
    hide NormalizeFrame, FrameAllowed, FindFrame;
    FrameTaken(input, Some(generated));
  }

  /** The frame with the values of the changes where some are given, and its own elsewhere. */
  function ChangedFrame(f: Frame, c: FrameChanges): Frame {
    f.(title := Given(c.title, f.title), description := Given(c.description, f.description),
       x := Given(c.x, f.x), y := Given(c.y, f.y), width := Given(c.width, f.width), height :=
         Given(c.height, f.height))
  }

  /** When a frame is updated, and what it then holds; the other frames are left alone. */
  lemma FrameUpdateWrites(h: Host, id: string, c: FrameChanges, d: Draft, depth: nat, i: nat)
    requires DistinctFrames(d.doc.frames) && i < |d.doc.frames| && d.doc.frames[i].id == id
    ensures var v := ChangedFrame(d.doc.frames[i], c);
            Run(h, FrameUpdate(id, c), d, depth)
            == if Counted(d, depth) && Identifier(id) && !c.unsupported && FrameAllowed(v) then
                 Ok(Draft(d.doc.(frames := d.doc.frames[i := v]), d.totalPoints, d.commandCount + 1))
               else Err(InvalidInput)
  {
    hide Identifier, NormalizeFrame, FrameAllowed;
    FrameTaken(FrameOverlay(d.doc.frames[i], c), None);
    FrameIs(d.doc.frames, i);
  }

  lemma FrameIs(frames: seq<Frame>, i: nat)
    requires DistinctFrames(frames) && i < |frames|
    ensures FindFrame(frames, frames[i].id) == i
  {}

  /** Deleting a frame takes out that frame and leaves the others in their order. */
  lemma FrameDeleteWrites(h: Host, id: string, d: Draft, depth: nat, i: nat)
    requires DistinctFrames(d.doc.frames) && i < |d.doc.frames| && d.doc.frames[i].id == id
    ensures Run(h, FrameDelete(id), d, depth)
            == if Counted(d, depth) && Identifier(id) then
                 Ok(Draft(d.doc.(frames := d.doc.frames[..i] + d.doc.frames[i + 1..]), d.totalPoints,
                          d.commandCount + 1))
               else Err(InvalidInput)
  {
    hide Identifier, FindFrame;
    FrameIs(d.doc.frames, i);
  }

  /** A frame that is not there is neither updated nor deleted. */
  lemma FrameMissing(h: Host, id: string, c: FrameChanges, d: Draft, depth: nat)
    requires forall i :: 0 <= i < |d.doc.frames| ==> d.doc.frames[i].id != id
    ensures var e := Err(if Counted(d, depth) && Identifier(id) then NotFound else InvalidInput);
            Run(h, FrameUpdate(id, c), d, depth) == e && Run(h, FrameDelete(id), d, depth) == e
  {
    hide Identifier, NormalizeFrame, FindFrame;
  }

  // ---------- the drawing agent ----------

  /** Where a command sends the agent. */
  function Destination(a: Agent, x: Option<real>, y: Option<real>, byX: Option<real>, byY: Option<real>): Point {
    Point(if byX.None? && byY.None? then Given(x, a.x) else a.x + Given(byX, 0.0),
          if byX.None? && byY.None? then Given(y, a.y) else a.y + Given(byY, 0.0))
  }

  /** A place or a distance is given, but not both, and they lie on the board. */
  predicate Sendable(a: Agent, x: Option<real>, y: Option<real>, byX: Option<real>, byY: Option<real>) {
    && (x.Some? || y.Some?) != (byX.Some? || byY.Some?)
    && OnBoard(Given(byX, 0.0)) && OnBoard(Given(byY, 0.0))
    && OnBoard(Destination(a, x, y, byX, byY).x) && OnBoard(Destination(a, x, y, byX, byY).y)
  }

  lemma AgentTargetIs(a: Agent, x: Option<real>, y: Option<real>, byX: Option<real>, byY: Option<real>)
    ensures AgentTarget(a, x, y, byX, byY)
            == if Sendable(a, x, y, byX, byY) then Some(Destination(a, x, y, byX, byY)) else None
  {}

  /** The line drawn behind the agent: from where it was to where it goes, in its own colour and width. */
  function Trail(a: Agent, to: Point, id: string): Object {
    Object(
      id := id, kind := Path, x := 0.0, y := 0.0, width := 0.0, height := 0.0, stroke := a.color, fill := "transparent",
      strokeWidth := a.width, rotation := 0.0, points := [Point(a.x, a.y), to], text := "", fontSize := 24.0)
  }

  /** The way from a place to another as the host turns it into degrees. */
  function Bearing(h: Host, a: Agent, to: Point): real { h.direction(to.y - a.y, to.x - a.x) }

  /** The agent faces where it went. */
  ghost predicate Faces(h: Host, before: Agent, to: Point, after: Agent) {
    after == before.(x := to.x, y := to.y, heading := after.heading) && Reduced(Bearing(h, before, to), after.heading)
  }

  /** When the agent moves, where it then is and faces, and the line it leaves if its pen is down. */
  lemma AgentMoves(
    h: Host, x: Option<real>, y: Option<real>, byX: Option<real>, byY: Option<real>, generated: string, d: Draft,
    depth: nat)
    ensures var r, a := Run(h, AgentMove(x, y, byX, byY, generated), d, depth), d.doc.agent;
            var to := Destination(a, x, y, byX, byY);
            && (r.Ok? <==>
                && Counted(d, depth) && Sendable(a, x, y, byX, byY)
                && (to != Point(a.x, a.y) ==>
                    && OnBoard(Bearing(h, a, to))
                    && (a.penDown ==> Allowed(Trail(a, to, generated)) && Spare(d, Trail(a, to, generated)))))
            && (r.Err? ==> r.error == InvalidInput)
    ensures var r, a := Run(h, AgentMove(x, y, byX, byY, generated), d, depth), d.doc.agent;
            var to := Destination(a, x, y, byX, byY);
            r.Ok? ==>
              var e := r.value;
              && e.doc == d.doc.(objects := e.doc.objects, agent := e.doc.agent) && e.commandCount == d.commandCount + 1
              && (to == Point(a.x, a.y) ==> e.doc == d.doc && e.totalPoints == d.totalPoints)
              && (to != Point(a.x, a.y) ==>
                  && Faces(h, a, to, e.doc.agent)
                  && if a.penDown then
                       && e.totalPoints == d.totalPoints + 2 && |e.doc.objects| == |d.doc.objects| + 1
                       && e.doc.objects[..|d.doc.objects|] == d.doc.objects
                       && HasValues(e.doc.objects[|d.doc.objects|], Trail(a, to, generated))
                     else e.doc.objects == d.doc.objects && e.totalPoints == d.totalPoints)
  {
    hide AgentTarget, MoveAgent, Sendable, Allowed, Trail, Faces, HasValues, Bearing;
    AgentTargetIs(d.doc.agent, x, y, byX, byY);
    if Sendable(d.doc.agent, x, y, byX, byY) {
      var to := Destination(d.doc.agent, x, y, byX, byY);
      MoveAgentIs(h, to, generated, d.(commandCount := d.commandCount + 1));
      SpareCounted(d, d.(commandCount := d.commandCount + 1));
    }
  }

  lemma TrailAsked(a: Agent, to: Point, generated: string)
    ensures var input := PathInput(Point(a.x, a.y), to, a.color, a.width);
            && Asked(input, Path, IdOf(input, generated)) == Trail(a, to, generated)
            && input.kind == Some(Path) && input.points.Some? && PointsOf(Trail(a, to, generated)) == 2
  {}

  lemma MoveAgentIs(h: Host, to: Point, generated: string, d: Draft)
    ensures var r, a := MoveAgent(h, to, generated, d), d.doc.agent;
            && (r.Ok? <==>
                (to != Point(a.x, a.y) ==>
                   && OnBoard(Bearing(h, a, to))
                   && (a.penDown ==> Allowed(Trail(a, to, generated)) && Spare(d, Trail(a, to, generated)))))
            && (r.Err? ==> r.error == InvalidInput)
    ensures var r, a := MoveAgent(h, to, generated, d), d.doc.agent;
            r.Ok? ==>
              var e := r.value;
              && e.doc == d.doc.(objects := e.doc.objects, agent := e.doc.agent) && e.commandCount == d.commandCount
              && (to == Point(a.x, a.y) ==> e == d)
              && (to != Point(a.x, a.y) ==>
                  && Faces(h, a, to, e.doc.agent)
                  && if a.penDown then
                       && e.totalPoints == d.totalPoints + 2 && |e.doc.objects| == |d.doc.objects| + 1
                       && e.doc.objects[..|d.doc.objects|] == d.doc.objects
                       && HasValues(e.doc.objects[|d.doc.objects|], Trail(a, to, generated))
                     else e.doc.objects == d.doc.objects && e.totalPoints == d.totalPoints)
  {
    hide AddObject, Allowed, Trail, HasValues, Spare, Asked, Angle, Reduced, PointsOf, PathInput;
    var a := d.doc.agent;
    TrailAsked(a, to, generated);
    AddObjectWrites(PathInput(Point(a.x, a.y), to, a.color, a.width), generated, d);
    AngleReduces(Bearing(h, a, to));
  }

  /** The agent turns to the angle given and keeps all else. */
  lemma AgentTurns(h: Host, angle: real, d: Draft, depth: nat)
    ensures var r := Run(h, AgentTurn(angle), d, depth);
            && (r.Ok? <==> Counted(d, depth) && OnBoard(angle))
            && (r.Err? ==> r.error == InvalidInput)
            && (r.Ok? ==>
                && Reduced(angle, r.value.doc.agent.heading)
                && r.value == Draft(d.doc.(agent := d.doc.agent.(heading := r.value.doc.agent.heading)), d.totalPoints,
                                    d.commandCount + 1))
  {
    hide Reduced, Angle;
    AngleReduces(angle);
  }

  /** The pen is lowered or lifted, and keeps its colour and width unless others are given. */
  lemma PenIsSet(h: Host, down: bool, color: Option<string>, width: Option<real>, d: Draft, depth: nat)
    ensures var a := d.doc.agent;
            var pen := a.(penDown := down, color := Given(color, a.color), width := Given(width, a.width));
            Run(h, AgentPen(down, color, width), d, depth)
            == if Counted(d, depth) && (color.None? || Color(color.value)) && 0.1 <= Given(width, 1.0) <= 256.0 then
                 Ok(Draft(d.doc.(agent := pen), d.totalPoints, d.commandCount + 1))
               else Err(InvalidInput)
  {
    hide Color;
  }

  /** Title and author are kept unless others are given. */
  lemma HeaderIsSet(h: Host, title: Option<string>, author: Option<string>, d: Draft, depth: nat)
    ensures var doc := d.doc.(title := Given(title, d.doc.title), author := Given(author, d.doc.author));
            Run(h, Metadata(title, author), d, depth)
            == if Counted(d, depth) && |Given(title, "")| <= 200 && |Given(author, "")| <= 100 then
                 Ok(Draft(doc, d.totalPoints, d.commandCount + 1))
               else Err(InvalidInput)
  {}

  /** Clearing takes away all objects and their points, and nothing else. */
  lemma BoardIsCleared(h: Host, d: Draft, depth: nat)
    ensures Run(h, Clear, d, depth)
            == if Counted(d, depth) then Ok(Draft(d.doc.(objects := []), 0, d.commandCount + 1)) else Err(InvalidInput)
  {}

  /** How degrees are counted along the axes: to the right, down, to the left and up. */
  ghost predicate Compass(h: Host) { forall r: real :: r > 0.0 ==> PointsAlongAxes(h, r) }

  predicate PointsAlongAxes(h: Host, r: real) {
    && h.direction(0.0, r) == 0.0 && h.direction(r, 0.0) == 90.0
    && h.direction(0.0, -r) == 180.0 && h.direction(-r, 0.0) == -90.0
  }

  /** Along the axes the agent faces 0 to the right, 90 down, 180 to the left and 270 up. */
  lemma FacesAlongAxes(h: Host, before: Agent, to: Point, after: Agent)
    requires Compass(h) && Faces(h, before, to, after)
    ensures to.y == before.y && to.x > before.x ==> after.heading == 0.0
    ensures to.x == before.x && to.y > before.y ==> after.heading == 90.0
    ensures to.y == before.y && to.x < before.x ==> after.heading == 180.0
    ensures to.x == before.x && to.y < before.y ==> after.heading == 270.0
  {
    var dx, dy := to.x - before.x, to.y - before.y;
    assert dx > 0.0 ==> PointsAlongAxes(h, dx);
    assert dy > 0.0 ==> PointsAlongAxes(h, dy);
    assert -dx > 0.0 ==> PointsAlongAxes(h, -dx) && -(-dx) == dx;
    assert -dy > 0.0 ==> PointsAlongAxes(h, -dy) && -(-dy) == dy;
    var n: int :| Bearing(h, before, to) - after.heading == WholeTurns(n);
  }

  // ---------- moving, deleting, reacting ----------

  /** When objects are moved, and where they then are. */
  lemma MoveWrites(h: Host, ids: seq<string>, dx: real, dy: real, d: Draft, depth: nat)
    requires DistinctObjects(d.doc.objects)
    ensures var r := Run(h, Move(ids, dx, dy), d, depth);
            && (r.Ok? <==>
                && Counted(d, depth) && OnBoard(dx) && OnBoard(dy)
                && NamesAllowed(ids) && AllThere(d.doc.objects, ids)
                && forall i :: 0 <= i < |d.doc.objects| && d.doc.objects[i].id in ids ==>
                     Placeable(Moved(d.doc.objects[i], dx, dy)))
    ensures var r := Run(h, Move(ids, dx, dy), d, depth);
            r.Ok? ==>
              && |r.value.doc.objects| == |d.doc.objects|
              && r.value == Draft(d.doc.(objects := r.value.doc.objects), d.totalPoints, d.commandCount + 1)
              && forall i :: 0 <= i < |d.doc.objects| ==>
                   r.value.doc.objects[i]
                   == if d.doc.objects[i].id in ids then Moved(d.doc.objects[i], dx, dy) else d.doc.objects[i]
  {
    hide IndexFor, MoveEach, Moved, Placeable, DistinctObjects, NamesAllowed, AllThere;
    NamesOutcome(d.doc.objects, ids);
    if Counted(d, depth) && IndexFor(d.doc.objects, ids).Ok? {
      IndexForAre(d.doc.objects, ids);
      MoveEachIs(IndexFor(d.doc.objects, ids).value, dx, dy, d.(commandCount := d.commandCount + 1));
    }
  }

  /** When objects are deleted, and which stay. */
  lemma DeleteWrites(h: Host, ids: seq<string>, d: Draft, depth: nat)
    requires DistinctObjects(d.doc.objects)
    ensures var r := Run(h, Delete(ids), d, depth);
            && (r.Ok? <==> Counted(d, depth) && NamesAllowed(ids) && AllThere(d.doc.objects, ids))
            && (r.Ok? ==> r.value.doc == d.doc.(objects := Unnamed(d.doc.objects, ids)))
            && (r.Err? ==> r.error == if Counted(d, depth) && NamesAllowed(ids) then NotFound else InvalidInput)
  {
    hide IndexFor, Keep, DroppedPoints, DistinctObjects, NamesAllowed, AllThere, Unnamed;
    NamesOutcome(d.doc.objects, ids);
    if Run(h, Delete(ids), d, depth).Ok? { DeleteLeavesUnnamed(h, ids, d, depth); }
  }

  /** When a reaction is toggled, for whom, and what is taken out or put in. */
  lemma ReactionWrites(
    h: Host, emoji: string, author: Option<string>, now: string, d: Draft, depth: nat, present: bool, i: nat)
    requires present ==>
               i < |d.doc.reactions| && d.doc.reactions[i].emoji == emoji
               && d.doc.reactions[i].author == Given(author, d.doc.author)
    requires forall k :: 0 <= k < (if present then i else |d.doc.reactions|) ==>
               (d.doc.reactions[k].emoji, d.doc.reactions[k].author) != (emoji, Given(author, d.doc.author))
    ensures var who := Given(author, d.doc.author);
            var after := if present then d.doc.reactions[..i] + d.doc.reactions[i + 1..]
                         else d.doc.reactions + [Reaction(emoji, who, now)];
            Run(h, ReactionToggle(emoji, author, now), d, depth)
            == if Counted(d, depth) && emoji in REACTIONS && |who| <= 100
                  && (present || (|d.doc.reactions| < 256 && Timestamp(h, now))) then
                 Ok(Draft(d.doc.(reactions := after), d.totalPoints, d.commandCount + 1))
               else Err(InvalidInput)
  {
    hide Timestamp, FindReaction;
    if present { FindReactionAt(d.doc.reactions, emoji, Given(author, d.doc.author), i); }
  }
}
