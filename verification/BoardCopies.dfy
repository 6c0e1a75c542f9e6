/** What forks and quotations copy, and where to. */
module BoardCopies {
  import opened Basics
  import opened BoardDocument
  import opened BoardCommands
  import opened BoardValidity
  import opened BoardEffects
  import opened BoardFields
  import opened BoardShare
  import opened BoardHistory
  import opened BoardProvenance
  import opened BoardQuote

  // ---------- what is selected ----------

  /** The places up to n that are wanted, in order. */
  ghost predicate Picks(at: seq<nat>, n: nat, wanted: nat -> bool) {
    && (forall j, k :: 0 <= j < k < |at| ==> at[j] < at[k])
    && (forall k :: 0 <= k < |at| ==> at[k] < n && wanted(at[k]))
    && forall i: nat :: i < n && wanted(i) ==> i in at
  }

  /** An object is selected if nothing is said or its id is listed. */
  function WantedObjects(source: Document, ids: Option<seq<string>>): nat -> bool {
    (i: nat) => ids.None? || (i < |source.objects| && source.objects[i].id in ids.value)
  }

  function PickedOut<T>(items: seq<T>, at: seq<nat>): (r: seq<T>)
    requires forall k :: 0 <= k < |at| ==> at[k] < |items|
    ensures |r| == |at| && forall k :: 0 <= k < |at| ==> r[k] == items[at[k]]
  {
    seq(|at|, k requires 0 <= k < |at| => items[at[k]])
  }

  /** A frame is selected if nothing is said, or if the objects selected enclose it. */
  function WantedFrames(h: Host, source: Document, ids: Option<seq<string>>, objects: seq<Object>): nat -> bool {
    (j: nat) => ids.None? || (objects != [] && j < |source.frames| && h.encloses(objects, source.frames[j]))
  }

  // ---------- where it goes ----------

  /** The copy of an object under a new id, all of it the same but for the distance it is moved. */
  predicate Copied(o: Object, copy: Object, id: string, dx: real, dy: real) {
    && copy == o.(id := id, x := copy.x, y := copy.y, points := copy.points)
    && if o.kind == Path then
         && copy.x == o.x && copy.y == o.y && |copy.points| == |o.points|
         && forall i :: 0 <= i < |o.points| ==>
              copy.points[i].x == o.points[i].x + dx && copy.points[i].y == o.points[i].y + dy
       else copy.points == o.points && copy.x == o.x + dx && copy.y == o.y + dy
  }

  predicate CopiedFrame(f: Frame, copy: Frame, id: string, dx: real, dy: real) {
    copy == f.(id := id, x := copy.x, y := copy.y) && copy.x == f.x + dx && copy.y == f.y + dy
  }

  ghost predicate ObjectsCopied(
    source: Document, at: seq<nat>, ids: FreshIds, dx: real, dy: real, copies: seq<Object>)
  {
    |copies| == |at| && forall k :: 0 <= k < |at| ==>
      at[k] < |source.objects| && Copied(source.objects[at[k]], copies[k], ids.objectId(k), dx, dy)
  }

  ghost predicate FramesCopied(
    source: Document, at: seq<nat>, ids: FreshIds, dx: real, dy: real, copies: seq<Frame>)
  {
    |copies| == |at| && forall k :: 0 <= k < |at| ==>
      at[k] < |source.frames| && CopiedFrame(source.frames[at[k]], copies[k], ids.frameId(k), dx, dy)
  }

  /** The places up to n that are wanted. */
  function PlacesOf(n: nat, wanted: nat -> bool): (at: seq<nat>)
    ensures Picks(at, n, wanted)
    ensures forall k :: 0 <= k < |at| ==> at[k] < n
  {
    if n == 0 then [] else PlacesOf(n - 1, wanted) + if wanted(n - 1) then [n - 1] else []
  }

  function PlacesOfObjects(source: Document, ids: Option<seq<string>>): seq<nat> {
    PlacesOf(|source.objects|, WantedObjects(source, ids))
  }

  function PlacesOfFrames(h: Host, source: Document, ids: Option<seq<string>>): seq<nat> {
    var objects := PickedOut(source.objects, PlacesOfObjects(source, ids));
    PlacesOf(|source.frames|, WantedFrames(h, source, ids, objects))
  }

  /** The copies are those of exactly the objects and frames selected, in the order of the source. */
  ghost predicate CopiesOf(
    h: Host, source: Document, selection: Option<seq<string>>, ids: FreshIds, dx: real, dy: real, copies: Selection)
  {
    && ObjectsCopied(source, PlacesOfObjects(source, selection), ids, dx, dy, copies.objects)
    && FramesCopied(source, PlacesOfFrames(h, source, selection), ids, dx, dy, copies.frames)
  }

  // ---------- the selection is that of the places ----------

  predicate Known(source: Document, ids: seq<string>) {
    |ids| <= 3000 && forall k :: 0 <= k < |ids| ==> HasObject(source, ids[k])
  }

  predicate HasObject(source: Document, id: string) {
    exists i :: 0 <= i < |source.objects| && source.objects[i].id == id
  }

  lemma {:induction false} ChosenAre(objects: seq<Object>, ids: seq<string>, wanted: nat -> bool, n: nat)
    requires n <= |objects| && forall i: nat :: i < |objects| ==> wanted(i) == (objects[i].id in ids)
    ensures Chosen(objects[..n], ids) == PickedOut(objects, PlacesOf(n, wanted))
  {
    hide Picks;
    if n > 0 {
      ChosenAre(objects, ids, wanted, n - 1);
      assert objects[..n] == objects[..n - 1] + [objects[n - 1]];
      ChosenSnoc(objects[..n - 1], objects[n - 1], ids);
    }
  }

  lemma {:induction false} ChosenSnoc(objects: seq<Object>, last: Object, ids: seq<string>)
    ensures Chosen(objects + [last], ids) == Chosen(objects, ids) + if last.id in ids then [last] else []
  {
    if objects == [] {
      assert objects + [last] == [last];
      assert [last][1..] == [];
    } else {
      ChosenSnoc(objects[1..], last, ids);
      assert (objects + [last])[1..] == objects[1..] + [last];
    }
  }

  lemma {:induction false} EnclosedAre(
    h: Host, objects: seq<Object>, frames: seq<Frame>, wanted: nat -> bool, n: nat)
    requires n <= |frames| && forall i: nat :: i < |frames| ==> wanted(i) == h.encloses(objects, frames[i])
    ensures Enclosed(h, objects, frames[..n]) == PickedOut(frames, PlacesOf(n, wanted))
  {
    hide Picks;
    if n > 0 {
      EnclosedAre(h, objects, frames, wanted, n - 1);
      assert frames[..n] == frames[..n - 1] + [frames[n - 1]];
      EnclosedSnoc(h, objects, frames[..n - 1], frames[n - 1]);
    }
  }

  lemma {:induction false} EnclosedSnoc(h: Host, objects: seq<Object>, frames: seq<Frame>, last: Frame)
    ensures Enclosed(h, objects, frames + [last])
            == Enclosed(h, objects, frames) + if h.encloses(objects, last) then [last] else []
  {
    if frames == [] {
      assert frames + [last] == [last];
      assert [last][1..] == [];
    } else {
      EnclosedSnoc(h, objects, frames[1..], last);
      assert (frames + [last])[1..] == frames[1..] + [last];
    }
  }

  lemma {:induction false} AllPlaces(n: nat, wanted: nat -> bool)
    requires forall i: nat :: i < n ==> wanted(i)
    ensures |PlacesOf(n, wanted)| == n && forall i :: 0 <= i < n ==> PlacesOf(n, wanted)[i] == i
  {
    hide Picks;
    if n > 0 { AllPlaces(n - 1, wanted); }
  }

  lemma {:induction false} NoPlaces(n: nat, wanted: nat -> bool)
    requires forall i: nat :: i < n ==> !wanted(i)
    ensures PlacesOf(n, wanted) == []
  {
    hide Picks;
    if n > 0 { NoPlaces(n - 1, wanted); }
  }

  /** Selecting fails exactly for ids that are too many or unknown, and else gives the places wanted. */
  lemma SelectIs(h: Host, source: Document, ids: Option<seq<string>>)
    ensures Select(h, source, ids)
            == if ids.Some? && !Known(source, ids.value) then Err(InvalidSnapshot)
               else Ok(Selection(PickedOut(source.objects, PlacesOfObjects(source, ids)),
                                 PickedOut(source.frames, PlacesOfFrames(h, source, ids))))
  {
    hide Picks, PlacesOf, Known, Find, Chosen, Enclosed;
    if ids.None? {
      SelectAll(h, source);
    } else {
      KnownIff(source, ids.value);
      SelectListed(h, source, ids.value);
    }
  }

  lemma SelectAll(h: Host, source: Document)
    ensures source.objects == PickedOut(source.objects, PlacesOfObjects(source, None))
    ensures source.frames == PickedOut(source.frames, PlacesOfFrames(h, source, None))
  {
    hide Picks, PlacesOf;
    var picked := PickedOut(source.objects, PlacesOfObjects(source, None));
    AllPlaces(|source.objects|, WantedObjects(source, None));
    AllPlaces(|source.frames|, WantedFrames(h, source, None, picked));
  }

  lemma SelectListed(h: Host, source: Document, ids: seq<string>)
    ensures var objects := Chosen(source.objects, ids);
            && objects == PickedOut(source.objects, PlacesOfObjects(source, Some(ids)))
            && PickedOut(source.frames, PlacesOfFrames(h, source, Some(ids)))
               == if objects == [] then [] else Enclosed(h, objects, source.frames)
  {
    hide Picks, PlacesOf, Chosen, Enclosed;
    var objects, frames := source.objects, source.frames;
    var picked := PickedOut(objects, PlacesOfObjects(source, Some(ids)));
    ChosenAre(objects, ids, WantedObjects(source, Some(ids)), |objects|);
    assert objects[..|objects|] == objects && frames[..|frames|] == frames;
    if picked == [] {
      NoPlaces(|frames|, WantedFrames(h, source, Some(ids), picked));
    } else {
      EnclosedAre(h, picked, frames, WantedFrames(h, source, Some(ids), picked), |frames|);
    }
  }

  lemma KnownIff(source: Document, ids: seq<string>)
    ensures Known(source, ids) <==>
            !(|ids| > MAX_OBJECTS || exists i :: 0 <= i < |ids| && Find(source.objects, ids[i]) == |source.objects|)
  {
    forall k | 0 <= k < |ids|
      ensures Find(source.objects, ids[k]) < |source.objects| <==>
              HasObject(source, ids[k])
    {
      var n := Find(source.objects, ids[k]);
      assert n < |source.objects| ==> source.objects[n].id == ids[k];
    }
  }

  lemma PlacedIsCopy(o: Object, id: string, dx: real, dy: real)
    ensures Copied(o, Placed(o, id, dx, dy), id, dx, dy)
  {}

  /** What is copied from a source: exactly the selection, moved by the distance given. */
  lemma ContentCopied(h: Host, source: Document, selection: Option<seq<string>>, ids: FreshIds, dx: real, dy: real)
    ensures var chosen := Select(h, source, selection);
            && (chosen.Ok? <==> selection.Some? ==> Known(source, selection.value))
            && (chosen.Ok? ==>
                var r := CopyContent(chosen.value, ids, dx, dy);
                && (r.Ok? <==> OnBoard(dx) && OnBoard(dy))
                && (r.Ok? ==> CopiesOf(h, source, selection, ids, dx, dy, r.value)))
            && (chosen.Err? ==> chosen.error == InvalidSnapshot)
  {
    hide Select, Picks, PlacesOf, Known, Placed, Copied;
    SelectIs(h, source, selection);
    var objects, frames := PlacesOfObjects(source, selection), PlacesOfFrames(h, source, selection);
    forall k | 0 <= k < |objects|
      ensures Copied(source.objects[objects[k]], Placed(source.objects[objects[k]], ids.objectId(k), dx, dy),
                     ids.objectId(k), dx, dy)
    {
      PlacedIsCopy(source.objects[objects[k]], ids.objectId(k), dx, dy);
    }
  }

  // ---------- copies are as valid as what they copy ----------

  lemma SpansMoved(ps: seq<Point>, qs: seq<Point>, vertical: bool, shift: real, extent: real)
    requires |qs| == |ps| && forall i :: 0 <= i < |ps| ==> At(qs, i, vertical) == At(ps, i, vertical) + shift
    requires Spans(ps, vertical, extent)
    ensures Spans(qs, vertical, extent)
  {
    hide At;
    var i, j :| 0 <= i < |ps| && 0 <= j < |ps| && At(ps, i, vertical) - At(ps, j, vertical) == extent;
    assert At(qs, i, vertical) - At(qs, j, vertical) == extent;
  }

  /** A copy of a normal object holds its own values. */
  lemma CopyHasValues(o: Object, copy: Object, id: string, dx: real, dy: real)
    requires HasValues(o, o) && Copied(o, copy, id, dx, dy)
    ensures HasValues(copy, copy)
  {
    hide Reduced, Spans;
    if o.kind == Path {
      SpansMoved(o.points, copy.points, false, dx, o.width);
      SpansMoved(o.points, copy.points, true, dy, o.height);
    }
  }

  /** What validation makes of a copy, if it takes it, is the copy itself. */
  lemma CopyStays(o: Object, copy: Object, id: string, dx: real, dy: real)
    requires NormalObject(o) && Copied(o, copy, id, dx, dy) && NormalizeObject(AsInput(copy), None).Ok?
    ensures NormalizeObject(AsInput(copy), None) == Ok(copy)
  {
    hide NormalizeObject, HasValues, Allowed, Copied, Asked;
    NormalIffAllowed(o);
    CopyHasValues(o, copy, id, dx, dy);
    SameLimits(copy);
    ObjectTaken(AsInput(copy), None);
    OneForValues(NormalizeObject(AsInput(copy), None).value, copy, Asked(AsInput(copy), copy.kind, copy.id));
  }

  lemma {:induction false} CopiesStay(objects: seq<Object>)
    requires NormalizeObjects(objects).Ok?
    requires forall k :: 0 <= k < |objects| ==>
               NormalizeObject(AsInput(objects[k]), None).Ok? ==>
                 NormalizeObject(AsInput(objects[k]), None) == Ok(objects[k])
    ensures NormalizeObjects(objects) == Ok(objects)
  {
    hide NormalizeObject, AsInput;
    if objects != [] {
      var n := |objects| - 1;
      CopiesStay(objects[..n]);
      assert objects == objects[..n] + [objects[n]];
    }
  }

  lemma ContentStays(source: Document, at: seq<nat>, ids: FreshIds, dx: real, dy: real, copies: seq<Object>)
    requires forall i :: 0 <= i < |source.objects| ==> NormalObject(source.objects[i])
    requires ObjectsCopied(source, at, ids, dx, dy, copies) && NormalizeObjects(copies).Ok?
    ensures NormalizeObjects(copies) == Ok(copies)
  {
    hide NormalizeObject, NormalizeObjects, Copied, NormalObject;
    forall k | 0 <= k < |copies| && NormalizeObject(AsInput(copies[k]), None).Ok?
      ensures NormalizeObject(AsInput(copies[k]), None) == Ok(copies[k])
    {
      CopyStays(source.objects[at[k]], copies[k], ids.objectId(k), dx, dy);
    }
    CopiesStay(copies);
  }

  lemma SoundObjects(h: Host, d: Document)
    requires Sound(h, d, true)
    ensures forall i :: 0 <= i < |d.objects| ==> NormalObject(d.objects[i])
  {
    hide NormalObject, NormalEntry, NormalFrame, NormalReaction, HeaderOk, PointSum;
  }

  // ---------- quotations ----------

  /** A prepared quotation copies exactly what is selected, moved by the distance given. */
  lemma QuotationCopies(h: Host, targetInput: Document, sourceInput: Document, o: QuoteOptions)
    requires PrepareQuote(h, targetInput, sourceInput, o).Ok?
    ensures Validate(h, sourceInput).Ok?
    ensures CopiesOf(h, Validate(h, sourceInput).value, o.selection, o.ids, o.dx, o.dy,
                     PrepareQuote(h, targetInput, sourceInput, o).value.content)
  {
    hide Validate, Select, CopyContent, CopiesOf, SourceEntries, VerifySources, MergeEntries;
    ContentCopied(h, Validate(h, sourceInput).value, o.selection, o.ids, o.dx, o.dy);
  }

  /** Run on the board it was prepared for, a quotation adds those copies at the end and nothing else but sources. */
  lemma QuotePlaces(h: Host, target: Document, source: Document, o: QuoteOptions, all: iset<Document>)
    requires StableURLs(h) && Verified(h, target) && Verified(h, source)
    requires CollisionFree(h, all) && Covered(all, target) && Covered(all, source)
    requires QuoteInto(h, target, source, o).Ok?
    requires h.bytes(SourcesOnly(target, QuoteInto(h, target, source, o).value.provenance)) <= MAX_BYTES
    ensures var q := QuoteInto(h, target, source, o).value;
            var r := Run(h, AsCommand(q), StartDraft(target), 0);
            && r.Ok? && CopiesOf(h, source, o.selection, o.ids, o.dx, o.dy, q.content)
            && MergeEntries(target.provenance, q.provenance).Ok?
            && r.value.doc == target.(objects := target.objects + q.content.objects,
                                      frames := target.frames + q.content.frames,
                                      provenance := MergeEntries(target.provenance, q.provenance).value)
  {
    hide CheckDocument, Verified, Brings, CollisionFree, Genuine, Sound, NormalEntry, MergeEntries, SourcesOnly, Quoted,
      Covered, Run, Gather, NormalizeObjects, NormalObject, PointSum, NormalFrame;
    var q := QuoteInto(h, target, source, o).value;
    IntoChecked(h, target, source, o);
    GatherBrings(h, source, o);
    QuoteRuns(h, target, source, q, all);
    GatherCopies(h, source, o);
    VerifiedIsGenuine(h, target);
    VerifiedIsGenuine(h, source);
    var merged := MergeEntries(target.provenance, q.provenance).value;
    QuoteSourcesSucceeds(h, target, source, q, all);
    QuotedParts(h, target, q.content, merged);
    SoundObjects(h, source);
    ContentStays(source, PlacesOfObjects(source, o.selection), o.ids, o.dx, o.dy, q.content.objects);
  }

  lemma GatherCopies(h: Host, source: Document, o: QuoteOptions)
    requires Gather(h, source, o).Ok?
    ensures CopiesOf(h, source, o.selection, o.ids, o.dx, o.dy, Gather(h, source, o).value.content)
  {
    hide Select, CopyContent, CopiesOf, SourceEntries;
    ContentCopied(h, source, o.selection, o.ids, o.dx, o.dy);
  }

  lemma IntoChecked(h: Host, target: Document, source: Document, o: QuoteOptions)
    requires QuoteInto(h, target, source, o).Ok?
    ensures var q := QuoteInto(h, target, source, o).value;
            && Gather(h, source, o) == Ok(q) && MergeEntries(target.provenance, q.provenance).Ok?
            && CheckDocument(h, Quoted(target, q.content, MergeEntries(target.provenance, q.provenance).value),
               true).Ok?
  {
    hide CheckDocument, Gather, MergeEntries, Quoted;
  }

  /** The names of the objects. */
  function Names(objects: seq<Object>): (ids: seq<string>)
    ensures |ids| == |objects| && forall k :: 0 <= k < |objects| ==> ids[k] == objects[k].id
  {
    seq(|objects|, k requires 0 <= k < |objects| => objects[k].id)
  }

  /** The copy at a distance is the copy in place, moved by that distance. */
  lemma CopyIsMoved(o: Object, here: Object, there: Object, id: string, dx: real, dy: real)
    requires Copied(o, here, id, 0.0, 0.0) && Copied(o, there, id, dx, dy)
    ensures there == Moved(here, dx, dy) && here.id == id == there.id
  {
    if o.kind == Path { assert there.points == Shifted(here.points, dx, dy); }
  }

  lemma NormalHasId(o: Object)
    requires NormalObject(o)
    ensures Identifier(o.id) && Placeable(o)
  {
    hide HasValues;
    NormalIffAllowed(o);
    NormalIsPlaceable(o);
  }

  /**
   Quoting at a distance is the same as quoting in place and then moving the copies by that
   distance: the objects on the board are the same.
   */
  lemma QuoteThenMove(
    h: Host, target: Document, source: Document, o: QuoteOptions, here: QuoteOptions, all: iset<Document>)
    requires StableURLs(h) && Verified(h, target) && Verified(h, source)
    requires CollisionFree(h, all) && Covered(all, target) && Covered(all, source)
    requires here == o.(dx := 0.0, dy := 0.0)
    requires QuoteInto(h, target, source, o).Ok? && QuoteInto(h, target, source, here).Ok?
    requires h.bytes(SourcesOnly(target, QuoteInto(h, target, source, o).value.provenance)) <= MAX_BYTES
    requires QuoteInto(h, target, source, o).value.content.objects != []
    ensures var q, q0 := QuoteInto(h, target, source, o).value, QuoteInto(h, target, source, here).value;
            var there := Run(h, AsCommand(q), StartDraft(target), 0);
            var placed := Run(h, AsCommand(q0), StartDraft(target), 0);
            && there.Ok? && placed.Ok?
            && var moved := Run(h, Move(Names(q0.content.objects), o.dx, o.dy), StartDraft(placed.value.doc), 0);
            moved.Ok? && moved.value.doc.objects == there.value.doc.objects
  {
    hide Verified, CollisionFree, Covered, Run, QuoteInto, SourcesOnly, MergeEntries, AsCommand, CopiesOf, Moved,
      NormalObject;
    var q, q0 := QuoteInto(h, target, source, o).value, QuoteInto(h, target, source, here).value;
    SameSources(h, target, source, o, here);
    QuotePlaces(h, target, source, o, all);
    QuotePlaces(h, target, source, here, all);
    var placed := Run(h, AsCommand(q0), StartDraft(target), 0).value.doc;
    var there := Run(h, AsCommand(q), StartDraft(target), 0).value.doc;
    BoardStaysSound(h, target, AsCommand(q));
    BoardStaysSound(h, target, AsCommand(q0));
    EachIsMoved(h, source, o, q.content, q0.content);
    MovedCopies(h, target.objects, q0.content.objects, q.content.objects, o.dx, o.dy, placed, there);
  }

  lemma SameSources(h: Host, target: Document, source: Document, o: QuoteOptions, here: QuoteOptions)
    requires here == o.(dx := 0.0, dy := 0.0)
    requires QuoteInto(h, target, source, o).Ok? && QuoteInto(h, target, source, here).Ok?
    ensures QuoteInto(h, target, source, here).value.provenance == QuoteInto(h, target, source, o).value.provenance
    ensures OnBoard(o.dx) && OnBoard(o.dy)
  {
    hide Validate, Select, SourceEntries, MergeEntries, Quoted;
  }

  lemma BoardStaysSound(h: Host, target: Document, c: Command)
    requires StableURLs(h) && Verified(h, target) && Run(h, c, StartDraft(target), 0).Ok?
    ensures var d := Run(h, c, StartDraft(target), 0).value.doc;
            && DistinctObjects(d.objects) && |d.objects| <= MAX_OBJECTS
            && forall i :: 0 <= i < |d.objects| ==> NormalObject(d.objects[i])
  {
    hide Run, Verified, NormalObject, Sound;
    VerifiedIsGenuine(h, target);
    SoundStart(h, target);
    RunKeeps(h, c, StartDraft(target), 0);
    DraftObjects(h, Run(h, c, StartDraft(target), 0).value);
    DraftIsSound(h, Run(h, c, StartDraft(target), 0).value);
    FewObjects(h, Run(h, c, StartDraft(target), 0).value.doc);
  }

  lemma FewObjects(h: Host, d: Document)
    requires Sound(h, d, true)
    ensures |d.objects| <= MAX_OBJECTS
  {
    hide NormalObject, NormalEntry, NormalFrame, NormalReaction, HeaderOk, PointSum;
  }

  lemma EachIsMoved(h: Host, source: Document, o: QuoteOptions, there: Selection, here: Selection)
    requires CopiesOf(h, source, o.selection, o.ids, o.dx, o.dy, there)
    requires CopiesOf(h, source, o.selection, o.ids, 0.0, 0.0, here)
    ensures |there.objects| == |here.objects|
    ensures forall k :: 0 <= k < |here.objects| ==> there.objects[k] == Moved(here.objects[k], o.dx, o.dy)
  {
    hide PlacesOf, Picks, FramesCopied, Copied, Moved;
    var at := PlacesOfObjects(source, o.selection);
    forall k | 0 <= k < |at| ensures there.objects[k] == Moved(here.objects[k], o.dx, o.dy) {
      CopyIsMoved(source.objects[at[k]], here.objects[k], there.objects[k], o.ids.objectId(k), o.dx, o.dy);
    }
  }

  lemma MovedCopies(
    h: Host, base: seq<Object>, here: seq<Object>, there: seq<Object>, dx: real, dy: real, d: Document, e: Document)
    requires d.objects == base + here && e.objects == base + there && here != [] && OnBoard(dx) && OnBoard(dy)
    requires |here| == |there| && forall k :: 0 <= k < |here| ==> there[k] == Moved(here[k], dx, dy)
    requires DistinctObjects(d.objects) && |d.objects| <= MAX_OBJECTS
    requires forall i :: 0 <= i < |d.objects| ==> NormalObject(d.objects[i])
    requires forall i :: 0 <= i < |e.objects| ==> NormalObject(e.objects[i])
    ensures var moved := Run(h, Move(Names(here), dx, dy), StartDraft(d), 0);
            moved.Ok? && moved.value.doc.objects == e.objects
  {
    hide Run, Moved, NormalObject, Identifier, Placeable, DistinctObjects, PointSum;
    var ids, n := Names(here), |base|;
    MoveWrites(h, ids, dx, dy, StartDraft(d), 0);
    forall k | 0 <= k < |here|
      ensures Identifier(ids[k]) && d.objects[n + k] == here[k] && Placeable(Moved(here[k], dx, dy))
    {
      assert d.objects[n + k] == here[k] && e.objects[n + k] == there[k];
      NormalHasId(here[k]);
      NormalHasId(there[k]);
    }
    forall i | 0 <= i < n ensures d.objects[i].id !in ids { OwnName(d.objects, n, i, ids); }
    AllNamed(d.objects, n, ids);
  }

  lemma OwnName(objects: seq<Object>, n: nat, i: nat, ids: seq<string>)
    requires DistinctObjects(objects) && i < n <= |objects| && ids == Names(objects[n..])
    ensures objects[i].id !in ids
  {}

  lemma AllNamed(objects: seq<Object>, n: nat, ids: seq<string>)
    requires n <= |objects| && ids == Names(objects[n..])
    ensures AllThere(objects, ids)
  {
    forall id | id in ids ensures exists i :: 0 <= i < |objects| && objects[i].id == id {
      var k :| 0 <= k < |ids| && ids[k] == id;
      assert objects[n + k].id == id;
    }
  }

  // ---------- forks ----------

  /**
   A fork holds exactly what is selected where it was, the reactions if everything is, and the
   agent of its source, under a header of its own.
   */
  lemma ForkCopies(h: Host, input: Document, o: ForkOptions)
    requires StableURLs(h) && Fork(h, input, o).Ok?
    ensures Validate(h, input).Ok?
    ensures var source, fork := Validate(h, input).value, Fork(h, input, o).value;
            && CopiesOf(h, source, o.selection, o.ids, 0.0, 0.0, Selection(fork.objects, fork.frames))
            && fork.reactions == (if o.selection.None? then source.reactions else []) && fork.agent == source.agent
            && fork.id == o.id && fork.revision == 0 && fork.createdAt == o.now == fork.updatedAt
            && fork.author == Given(o.author, source.author)
            && (o.title.Some? ==> fork.title == o.title.value)
            && (o.title.None? && |source.title| <= 190 ==> fork.title == source.title + " · fork")
            && (o.title.None? && |source.title| > 190 ==> fork.title == source.title[..190] + " · fork")
  {
    hide CheckDocument, Sound, ForkDraft, VerifySources, CopiesOf, NormalObject, ForkTitle;
    var source := Validate(h, input).value;
    DocumentNormalized(h, input, true);
    var draft := ForkDraft(h, source, o).value;
    ForkIsChecked(h, source, draft, Fork(h, input, o).value);
    DraftCopies(h, source, o);
    TitleOfFork(source, o.title);
    SoundObjects(h, source);
    HeadingKept(h, source);
    CopiedObjects(h, source, o, draft);
    ContentStays(source, PlacesOfObjects(source, o.selection), o.ids, 0.0, 0.0, draft.objects);
  }

  /** The draft of a fork, before it is validated. */
  lemma DraftCopies(h: Host, source: Document, o: ForkOptions)
    requires ForkDraft(h, source, o).Ok?
    ensures var draft := ForkDraft(h, source, o).value;
            && CopiesOf(h, source, o.selection, o.ids, 0.0, 0.0, Selection(draft.objects, draft.frames))
            && draft.reactions == (if o.selection.None? then source.reactions else []) && draft.agent == source.agent
            && draft.id == o.id && draft.revision == 0 && draft.createdAt == o.now == draft.updatedAt
            && draft.author == Given(o.author, source.author) && draft.title == ForkTitle(source, o.title)
  {
    hide Select, CopyContent, SourceEntries, CopiesOf, NewDocument, ForkTitle;
    ContentCopied(h, source, o.selection, o.ids, 0.0, 0.0);
    BlankIs(h, o.id, ForkTitle(source, o.title), Given(o.author, source.author), o.now);
    assert Selection(ForkDraft(h, source, o).value.objects, ForkDraft(h, source, o).value.frames)
      == CopyContent(Select(h, source, o.selection).value, o.ids, 0.0, 0.0).value;
  }

  /** Validation keeps all of the draft but what it normalizes. */
  lemma ForkIsChecked(h: Host, source: Document, draft: Document, fork: Document)
    requires ValidAndVerified(h, draft) == Ok(fork)
    ensures NormalizeObjects(draft.objects).Ok?
    ensures fork == draft.(objects := NormalizeObjects(draft.objects).value, provenance := fork.provenance,
                           agent := draft.agent.(heading := Angle(draft.agent.heading)))
  {
    hide CheckDocument, VerifySources, NormalizeObjects;
    CheckedParts(h, draft);
  }

  lemma TitleOfFork(source: Document, title: Option<string>)
    ensures var t := ForkTitle(source, title);
            && (title.Some? ==> t == title.value)
            && (title.None? && |source.title| <= 190 ==> t == source.title + " · fork")
            && (title.None? && |source.title| > 190 ==> t == source.title[..190] + " · fork")
  {}

  lemma CopiedObjects(h: Host, source: Document, o: ForkOptions, d: Document)
    requires CopiesOf(h, source, o.selection, o.ids, 0.0, 0.0, Selection(d.objects, d.frames))
    ensures ObjectsCopied(source, PlacesOfObjects(source, o.selection), o.ids, 0.0, 0.0, d.objects)
  {
    hide PlacesOfObjects, PlacesOfFrames, ObjectsCopied, FramesCopied;
  }

  lemma BlankIs(h: Host, id: string, title: string, author: string, now: string)
    ensures var r := NewDocument(h, id, title, author, now);
            r.Ok? ==>
              && r.value.id == id && r.value.title == title && r.value.author == author && r.value.revision == 0
              && r.value.createdAt == now == r.value.updatedAt
  {
    hide CheckDocument;
    var blank := Document(id, title, author, 0, now, now, [], [], [], Agent(160.0, 160.0, 0.0, false, "#2563eb", 4.0),
      []);
    if Validate(h, blank).Ok? { CheckedParts(h, blank); }
  }

  lemma CheckedParts(h: Host, d: Document)
    requires CheckDocument(h, d, true).Ok?
    ensures NormalizeObjects(d.objects).Ok?
    ensures var n := CheckDocument(h, d, true).value;
            n == d.(objects := NormalizeObjects(d.objects).value, provenance := n.provenance,
                    agent := d.agent.(heading := Angle(d.agent.heading)))
  {
    hide NormalizeObjects, NormalizeEntries, PartsOk, DistinctReactions, DistinctEntries;
  }

  lemma HeadingKept(h: Host, d: Document)
    requires Sound(h, d, true)
    ensures Angle(d.agent.heading) == d.agent.heading
  {
    hide NormalObject, NormalEntry, NormalFrame, NormalReaction, HeaderOk, PointSum;
    AngleInRange(d.agent.heading);
  }
}
