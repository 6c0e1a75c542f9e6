/** What single commands do to a board, and which commands undo one another. */
module BoardEffects {
  import opened Basics
  import opened BoardDocument
  import opened BoardCommands
  import opened BoardValidity

  // ---------- naming objects ----------

  lemma FindAt(objects: seq<Object>, id: string, n: nat)
    requires n < |objects| && objects[n].id == id && forall k :: 0 <= k < n ==> objects[k].id != id
    ensures Find(objects, id) == n
  {}

  lemma FindReactionAt(reactions: seq<Reaction>, emoji: string, author: string, n: nat)
    requires n < |reactions| && (reactions[n].emoji, reactions[n].author) == (emoji, author)
    requires forall k :: 0 <= k < n ==> (reactions[k].emoji, reactions[k].author) != (emoji, author)
    ensures FindReaction(reactions, emoji, author) == n
  {}

  lemma FindIs(objects: seq<Object>, i: nat)
    requires DistinctObjects(objects) && i < |objects|
    ensures Find(objects, objects[i].id) == i
  {}

  /** The indices lead to the objects named, in order. */
  predicate Lead(objects: seq<Object>, found: seq<nat>, ids: seq<string>) {
    |found| == |ids| && forall k :: 0 <= k < |ids| ==> found[k] < |objects| && objects[found[k]].id == ids[k]
  }

  lemma {:induction false} IndicesLead(objects: seq<Object>, ids: seq<string>)
    requires Indices(objects, ids).Ok?
    ensures Lead(objects, Indices(objects, ids).value, ids)
  {
    hide Indices, Find;
    IndicesUnfold(objects, ids);
    if ids != [] {
      IndicesLead(objects, ids[1..]);
      var found, rest := Indices(objects, ids).value, Indices(objects, ids[1..]).value;
      forall k | 0 <= k < |ids| ensures found[k] < |objects| && objects[found[k]].id == ids[k] {
        if k > 0 { assert found[k] == rest[k - 1] && ids[k] == ids[1..][k - 1]; }
      }
    }
  }

  /** The indices found are those of the objects named, each once. */
  lemma IndicesAre(objects: seq<Object>, ids: seq<string>)
    requires DistinctObjects(objects) && Distinct(ids) && Indices(objects, ids).Ok?
    ensures var found := Indices(objects, ids).value;
            && |found| == |ids| && Distinct(found) && (forall k :: 0 <= k < |ids| ==> objects[found[k]].id == ids[k])
            && (forall i :: 0 <= i < |objects| ==> (i in found <==> objects[i].id in ids))
  {
    hide DistinctObjects, Indices, Find;
    IndicesLead(objects, ids);
    var found := Indices(objects, ids).value;
    assert forall k :: 0 <= k < |ids| ==> objects[found[k]].id == ids[k];
    forall i | 0 <= i < |objects| ensures i in found <==> objects[i].id in ids {
      if objects[i].id in ids {
        var k :| 0 <= k < |ids| && ids[k] == objects[i].id;
        FindIs(objects, i);
        FindIs(objects, found[k]);
        assert found[k] == i;
      }
    }
  }

  lemma IndicesUnfold(objects: seq<Object>, ids: seq<string>)
    requires Indices(objects, ids).Ok?
    ensures if ids == [] then Indices(objects, ids).value == []
            else && Indices(objects, ids[1..]).Ok? && Find(objects, ids[0]) < |objects|
                 && objects[Find(objects, ids[0])].id == ids[0]
                 && Indices(objects, ids).value == [Find(objects, ids[0])] + Indices(objects, ids[1..]).value
  {}

  lemma IndexForAre(objects: seq<Object>, ids: seq<string>)
    requires DistinctObjects(objects) && IndexFor(objects, ids).Ok?
    ensures Distinct(IndexFor(objects, ids).value)
    ensures forall i :: 0 <= i < |objects| ==> (i in IndexFor(objects, ids).value <==> objects[i].id in ids)
  {
    hide Identifier;
    UniqueHolds(ids);
    IndicesAre(objects, Unique(ids));
  }

  // ---------- deleting ----------

  /** The objects that are not named, in their order. */
  function Unnamed(objects: seq<Object>, ids: seq<string>): seq<Object> {
    if objects == [] then []
    else
      var n := |objects| - 1;
      Unnamed(objects[..n], ids) + if objects[n].id in ids then [] else [objects[n]]
  }

  lemma {:induction false} KeepIsUnnamed(objects: seq<Object>, drop: seq<nat>, ids: seq<string>)
    requires forall i :: 0 <= i < |objects| ==> (i in drop <==> objects[i].id in ids)
    ensures Keep(objects, drop) == Unnamed(objects, ids)
  {
    if objects != [] { KeepIsUnnamed(objects[..|objects| - 1], drop, ids); }
  }

  /** Deleting leaves exactly the objects that were not named and nothing else changed. */
  lemma DeleteLeavesUnnamed(h: Host, ids: seq<string>, d: Draft, depth: nat)
    requires DistinctObjects(d.doc.objects) && Run(h, Delete(ids), d, depth).Ok?
    ensures Run(h, Delete(ids), d, depth).value.doc == d.doc.(objects := Unnamed(d.doc.objects, ids))
  {
    hide IndexFor, Keep, DroppedPoints, DistinctObjects;
    IndexForAre(d.doc.objects, ids);
    KeepIsUnnamed(d.doc.objects, IndexFor(d.doc.objects, ids).value, ids);
  }

  lemma {:induction false} KeepAll(objects: seq<Object>, drop: seq<nat>)
    requires forall k :: 0 <= k < |drop| ==> drop[k] >= |objects|
    ensures Keep(objects, drop) == objects && DroppedPoints(objects, drop) == 0
  {
    if objects != [] {
      KeepAll(objects[..|objects| - 1], drop);
      assert objects == objects[..|objects| - 1] + [objects[|objects| - 1]];
    }
  }

  /** Creating an object and deleting it again leaves the draft as it was. */
  lemma CreateThenDelete(h: Host, input: ObjectInput, generated: string, d: Draft, depth: nat)
    requires d.commandCount + 2 <= MAX_COMMANDS && Run(h, Create(input, generated), d, depth).Ok?
    ensures var created := Run(h, Create(input, generated), d, depth).value;
            && created.doc.objects != []
            && Run(h, Delete([created.doc.objects[|created.doc.objects| - 1].id]), created, depth)
               == Ok(d.(commandCount := d.commandCount + 2))
  {
    hide NormalizeObject, Identifier;
    var n := |d.doc.objects|;
    var created := Run(h, Create(input, generated), d, depth).value;
    var o := NormalizeObject(input, Some(generated)).value;
    NormalizedId(input, generated);
    assert created.doc.objects == d.doc.objects + [o];
    FindAt(created.doc.objects, o.id, n);
    OneIndex(created.doc.objects, o.id);
    assert created.doc.objects[..n] == d.doc.objects;
    KeepAll(d.doc.objects, [n]);
    assert Keep(created.doc.objects, [n]) == d.doc.objects;
  }

  lemma NormalizedId(input: ObjectInput, generated: string)
    requires NormalizeObject(input, Some(generated)).Ok?
    ensures Identifier(NormalizeObject(input, Some(generated)).value.id)
  {
    hide Identifier, Color, Extent, Angle;
  }

  lemma OneIndex(objects: seq<Object>, id: string)
    requires Identifier(id) && Find(objects, id) < |objects|
    ensures IndexFor(objects, [id]) == Ok([Find(objects, id)])
  {
    hide Identifier, Find, Unique, Indices;
    OneUnique(id);
    OneFound(objects, id);
  }

  lemma OneUnique(id: string)
    ensures Unique([id]) == [id]
  {
    assert [id][..0] == [];
    assert Unique([id][..0]) == [];
  }

  lemma OneFound(objects: seq<Object>, id: string)
    requires Find(objects, id) < |objects|
    ensures Indices(objects, [id]) == Ok([Find(objects, id)])
  {
    hide Find;
    assert [id][1..] == [];
    assert Indices(objects, [id][1..]) == Ok([]);
    assert [Find(objects, id)] + [] == [Find(objects, id)];
  }

  // ---------- moving ----------

  function Moved(o: Object, dx: real, dy: real): Object {
    if o.kind == Path then o.(points := Shifted(o.points, dx, dy)) else o.(x := o.x + dx, y := o.y + dy)
  }

  predicate Placeable(o: Object) {
    if o.kind == Path then AllCoordinates(o.points) else Coordinate(o.x) && Coordinate(o.y)
  }

  lemma MoveAtIs(index: nat, dx: real, dy: real, d: Draft)
    requires index < |d.doc.objects|
    ensures var o := Moved(d.doc.objects[index], dx, dy);
            MoveAt(index, dx, dy, d)
            == if Placeable(o) then Ok(d.(doc := d.doc.(objects := d.doc.objects[index := o]))) else Err(InvalidInput)
  {}

  /** Moving succeeds iff every moved object stays on the plane, and then moves those objects and only those. */
  lemma {:induction false} MoveEachIs(indices: seq<nat>, dx: real, dy: real, d: Draft)
    requires Distinct(indices) && forall k :: 0 <= k < |indices| ==> indices[k] < |d.doc.objects|
    ensures MoveEach(indices, dx, dy, d).Ok? <==>
              forall i :: 0 <= i < |d.doc.objects| && i in indices ==> Placeable(Moved(d.doc.objects[i], dx, dy))
    ensures MoveEach(indices, dx, dy, d).Ok? ==>
              var e := MoveEach(indices, dx, dy, d).value;
              && e == d.(doc := d.doc.(objects := e.doc.objects)) && |e.doc.objects| == |d.doc.objects|
              && forall i :: 0 <= i < |d.doc.objects| ==>
                   e.doc.objects[i] == if i in indices then Moved(d.doc.objects[i], dx, dy) else d.doc.objects[i]
    decreases |indices|
  {
    hide Moved, Placeable, MoveAt;
    if indices != [] {
      var first, rest := indices[0], indices[1..];
      MoveAtIs(first, dx, dy, d);
      assert indices == [first] + rest;
      if Placeable(Moved(d.doc.objects[first], dx, dy)) {
        var next := MoveAt(first, dx, dy, d).value;
        assert first !in rest;
        MoveEachIs(rest, dx, dy, next);
        assert forall i :: 0 <= i < |d.doc.objects| && i != first ==> next.doc.objects[i] == d.doc.objects[i];
        assert forall i :: i in rest ==> i in indices && i != first;
      }
    }
  }

  lemma MovedBack(o: Object, dx: real, dy: real)
    ensures Moved(Moved(o, dx, dy), -dx, -dy) == o
  {
    if o.kind == Path { assert Shifted(Shifted(o.points, dx, dy), -dx, -dy) == o.points; }
  }

  lemma NormalIsPlaceable(o: Object)
    requires NormalObject(o)
    ensures Placeable(o)
  {
    hide Color, Identifier, Extent, Angle;
  }

  lemma SameNames(a: seq<Object>, b: seq<Object>, ids: seq<string>)
    requires |a| == |b| && forall i :: 0 <= i < |a| ==> a[i].id == b[i].id
    ensures IndexFor(a, ids) == IndexFor(b, ids)
  {
    hide Identifier;
    SameIndices(a, b, Unique(ids));
  }

  lemma {:induction false} SameIndices(a: seq<Object>, b: seq<Object>, ids: seq<string>)
    requires |a| == |b| && forall i :: 0 <= i < |a| ==> a[i].id == b[i].id
    ensures Indices(a, ids) == Indices(b, ids)
  {
    if ids != [] {
      assert Find(a, ids[0]) == Find(b, ids[0]);
      SameIndices(a, b, ids[1..]);
    }
  }

  /** Moving objects and moving them back leaves the draft as it was. */
  lemma MoveThereAndBack(h: Host, ids: seq<string>, dx: real, dy: real, d: Draft, depth: nat)
    requires DraftOk(h, d) && d.commandCount + 2 <= MAX_COMMANDS && Run(h, Move(ids, dx, dy), d, depth).Ok?
    ensures Run(h, Move(ids, -dx, -dy), Run(h, Move(ids, dx, dy), d, depth).value, depth)
            == Ok(d.(commandCount := d.commandCount + 2))
  {
    hide DraftOk, IndexFor, MoveEach, Moved, Placeable, NormalObject, DistinctObjects;
    var there := Run(h, Move(ids, dx, dy), d, depth).value;
    var start := d.(commandCount := d.commandCount + 1);
    DraftObjects(h, d);
    IndexForAre(d.doc.objects, ids);
    var indices := IndexFor(d.doc.objects, ids).value;
    MoveEachIs(indices, dx, dy, start);
    forall o ensures Moved(o, dx, dy).id == o.id { hide *; MovedKeepsId(o, dx, dy); }
    SameNames(d.doc.objects, there.doc.objects, ids);
    var again := there.(commandCount := d.commandCount + 2);
    forall i | 0 <= i < |d.doc.objects|
      ensures i in indices ==> Moved(again.doc.objects[i], -dx, -dy) == d.doc.objects[i]
    {
      MovedBack(d.doc.objects[i], dx, dy);
      NormalIsPlaceable(d.doc.objects[i]);
    }
    forall i | 0 <= i < |d.doc.objects| ensures Placeable(d.doc.objects[i]) { NormalIsPlaceable(d.doc.objects[i]); }
    MoveEachIs(indices, -dx, -dy, again);
    assert MoveEach(indices, -dx, -dy, again).value.doc.objects == d.doc.objects;
  }

  lemma MovedKeepsId(o: Object, dx: real, dy: real)
    ensures Moved(o, dx, dy).id == o.id
  {}

  lemma DraftObjects(h: Host, d: Draft)
    requires DraftOk(h, d)
    ensures DistinctObjects(d.doc.objects) && forall i :: 0 <= i < |d.doc.objects| ==> NormalObject(d.doc.objects[i])
  {
    hide NormalObject, NormalEntry, NormalFrame, NormalReaction, HeaderOk, PointSum;
  }

  // ---------- updating ----------

  /** The normalized overlay of each listed object, the others as they were. */
  lemma {:induction false} UpdateEachIs(indices: seq<nat>, changes: Changes, d: Draft)
    requires Distinct(indices) && (forall k :: 0 <= k < |indices| ==> indices[k] < |d.doc.objects|)
    requires UpdateEach(indices, changes, d).Ok?
    ensures var e := UpdateEach(indices, changes, d).value;
            && e.doc == d.doc.(objects := e.doc.objects) && |e.doc.objects| == |d.doc.objects|
            && forall i :: 0 <= i < |d.doc.objects| ==>
                 if i in indices then NormalizeObject(Overlay(d.doc.objects[i], changes), None) == Ok(e.doc.objects[i])
                 else e.doc.objects[i] == d.doc.objects[i]
    decreases |indices|
  {
    hide NormalizeObject, Overlay;
    if indices != [] {
      var first, rest := indices[0], indices[1..];
      assert indices == [first] + rest && first !in rest;
      var next := UpdateAt(first, changes, d).value;
      UpdateEachIs(rest, changes, next);
      assert forall i :: 0 <= i < |d.doc.objects| && i != first ==> next.doc.objects[i] == d.doc.objects[i];
      assert forall i :: i in rest ==> i in indices && i != first;
    }
  }

  /** Updating overlays exactly the objects named; every object keeps its place and id, and nothing else changes. */
  lemma UpdateOverlaysNamed(h: Host, ids: seq<string>, changes: Changes, d: Draft, depth: nat)
    requires DistinctObjects(d.doc.objects) && Run(h, Update(ids, changes), d, depth).Ok?
    ensures var e := Run(h, Update(ids, changes), d, depth).value;
            && e.doc == d.doc.(objects := e.doc.objects) && |e.doc.objects| == |d.doc.objects|
            && forall i :: 0 <= i < |d.doc.objects| ==>
                 && e.doc.objects[i].id == d.doc.objects[i].id
                 && if d.doc.objects[i].id in ids then NormalizeObject(Overlay(d.doc.objects[i], changes), None)
                    == Ok(e.doc.objects[i])
                    else e.doc.objects[i] == d.doc.objects[i]
  {
    hide IndexFor, UpdateEach, NormalizeObject, Overlay, DistinctObjects;
    IndexForAre(d.doc.objects, ids);
    UpdateEachIs(IndexFor(d.doc.objects, ids).value, changes, d.(commandCount := d.commandCount + 1));
    forall i | 0 <= i < |d.doc.objects| && NormalizeObject(Overlay(d.doc.objects[i], changes), None).Ok?
      ensures NormalizeObject(Overlay(d.doc.objects[i], changes), None).value.id == d.doc.objects[i].id
    {
      OverlayKeepsId(d.doc.objects[i], changes);
    }
  }

  lemma OverlayKeepsId(o: Object, changes: Changes)
    requires NormalizeObject(Overlay(o, changes), None).Ok?
    ensures NormalizeObject(Overlay(o, changes), None).value.id == o.id
  {
    hide Color, Identifier, Extent, Angle;
  }

  // ---------- reactions ----------

  /** Adding a reaction and toggling it again leaves the document as it was. */
  lemma ToggleTwice(h: Host, emoji: string, author: string, now: string, later: string, doc: Document)
    requires FindReaction(doc.reactions, emoji, author) == |doc.reactions|
    requires ToggleReaction(h, emoji, author, now, doc).Ok?
    ensures ToggleReaction(h, emoji, author, later, ToggleReaction(h, emoji, author, now, doc).value) == Ok(doc)
  {
    hide NormalReaction, FindReaction;
    var n := |doc.reactions|;
    var added := doc.reactions + [Reaction(emoji, author, now)];
    assert forall k :: 0 <= k < n ==> added[k] == doc.reactions[k];
    FindReactionAt(added, emoji, author, n);
    assert added[..n] + added[n + 1..] == doc.reactions;
  }

  function Key(r: Reaction): (string, string) { (r.emoji, r.author) }

  lemma OneTakenOut(reactions: seq<Reaction>, i: nat, r: Reaction)
    requires DistinctReactions(reactions) && i < |reactions|
    ensures var after := reactions[..i] + reactions[i + 1..];
            && (Key(r) != Key(reactions[i]) ==> (r in after <==> r in reactions))
            && forall k :: 0 <= k < |after| ==>
               (after[k].emoji, after[k].author) != (reactions[i].emoji, reactions[i].author)
  {
    var after := reactions[..i] + reactions[i + 1..];
    if r in reactions && Key(r) != Key(reactions[i]) {
      var k :| 0 <= k < |reactions| && reactions[k] == r;
      assert r == after[if k < i then k else k - 1];
    }
    if r in after {
      var k :| 0 <= k < |after| && after[k] == r;
      assert r == reactions[if k < i then k else k + 1];
    }
    forall k | 0 <= k < |after| ensures (after[k].emoji, after[k].author) != (reactions[i].emoji, reactions[i].author) {
      assert after[k] == reactions[if k < i then k else k + 1];
    }
  }

  lemma OnePutIn(reactions: seq<Reaction>, added: Reaction, r: Reaction)
    ensures var after := reactions + [added];
            (Key(r) != Key(added) ==> (r in after <==> r in reactions)) && after[|reactions|] == added
  {}

  /** An author has a reaction after a toggle iff not before, and every other reaction stays. */
  lemma ToggleFlips(h: Host, emoji: string, author: string, now: string, doc: Document, r: Reaction)
    requires DistinctReactions(doc.reactions) && ToggleReaction(h, emoji, author, now, doc).Ok?
    ensures var after := ToggleReaction(h, emoji, author, now, doc).value.reactions;
            && ((r.emoji, r.author) != (emoji, author) ==> (r in after <==> r in doc.reactions))
            && ((exists k :: 0 <= k < |after| && (after[k].emoji, after[k].author) == (emoji, author))
                <==> FindReaction(doc.reactions, emoji, author) == |doc.reactions|)
  {
    hide NormalReaction, FindReaction;
    var i := FindReaction(doc.reactions, emoji, author);
    if i < |doc.reactions| {
      OneTakenOut(doc.reactions, i, r);
    } else {
      OnePutIn(doc.reactions, Reaction(emoji, author, now), r);
    }
  }
}
