/** Every command keeps a sound draft sound, with its point total exact. */
module BoardValidity {
  import opened Basics
  import opened BoardDocument
  import opened BoardCommands

  ghost predicate DraftOk(h: Host, d: Draft) {
    Sound(h, d.doc, true) && d.totalPoints == PointSum(d.doc.objects)
  }

  // ---------- points ----------

  lemma {:induction false} PointSumUpdate(objects: seq<Object>, i: nat, o: Object)
    requires i < |objects|
    ensures PointSum(objects[i := o]) == PointSum(objects) - |objects[i].points| + |o.points|
  {
    var n := |objects| - 1;
    if i == n {
      assert objects[i := o][..n] == objects[..n];
    } else {
      PointSumUpdate(objects[..n], i, o);
      assert objects[i := o][..n] == objects[..n][i := o];
    }
  }

  lemma {:induction false} KeepSplits(objects: seq<Object>, drop: seq<nat>)
    ensures PointSum(Keep(objects, drop)) + DroppedPoints(objects, drop) == PointSum(objects)
    ensures |Keep(objects, drop)| <= |objects|
    ensures forall o :: o in Keep(objects, drop) ==> o in objects
    ensures DistinctObjects(objects) ==> DistinctObjects(Keep(objects, drop))
  {
    hide DistinctObjects;
    if objects != [] {
      var n := |objects| - 1;
      var kept := Keep(objects[..n], drop);
      KeepSplits(objects[..n], drop);
      assert objects == objects[..n] + [objects[n]];
      if n !in drop {
        assert (kept + [objects[n]])[..|kept|] == kept;
        if DistinctObjects(objects) { DistinctWithLast(objects[..n], objects[n], kept); }
      } else {
        assert kept + [] == kept;
        if DistinctObjects(objects) { DistinctWithLast(objects[..n], objects[n], kept); }
      }
    }
  }

  lemma DistinctWithLast(objects: seq<Object>, last: Object, kept: seq<Object>)
    requires DistinctObjects(objects + [last])
    ensures DistinctObjects(objects)
    ensures DistinctObjects(kept) && (forall o :: o in kept ==> o in objects) ==> DistinctObjects(kept + [last])
  {
    forall i, j | 0 <= i < j < |objects| ensures objects[i].id != objects[j].id {
      assert (objects + [last])[i] == objects[i] && (objects + [last])[j] == objects[j];
    }
    forall o | o in objects ensures o.id != last.id {
      var i :| 0 <= i < |objects| && objects[i] == o;
      assert (objects + [last])[i] == o && (objects + [last])[|objects|] == last;
    }
  }

  lemma {:induction false} ShiftedBounds(ps: seq<Point>, dx: real, dy: real)
    requires ps != []
    ensures var d := Shifted(ps, dx, dy);
            && Least(d, false) == Least(ps, false) + dx && Greatest(d, false) == Greatest(ps, false) + dx
            && Least(d, true) == Least(ps, true) + dy && Greatest(d, true) == Greatest(ps, true) + dy
  {
    if |ps| > 1 {
      ShiftedBounds(ps[1..], dx, dy);
      assert Shifted(ps, dx, dy)[1..] == Shifted(ps[1..], dx, dy);
    }
  }

  // ---------- single steps ----------

  lemma AddObjectKeeps(h: Host, input: ObjectInput, generated: string, d: Draft)
    requires DraftOk(h, d)
    ensures AddObject(input, generated, d).Ok? ==> DraftOk(h, AddObject(input, generated, d).value)
  {
    hide NormalizeObject, Timestamp, NormalEntry, NormalObject, NormalFrame, NormalReaction;
    if AddObject(input, generated, d).Ok? {
      var o := NormalizeObject(input, Some(generated)).value;
      ObjectNormalized(input, Some(generated), o);
      var objects := d.doc.objects + [o];
      assert objects[..|objects| - 1] == d.doc.objects;
    }
  }

  lemma AddFrameKeeps(h: Host, input: FrameInput, generated: string, d: Draft)
    requires DraftOk(h, d)
    ensures AddFrame(input, generated, d).Ok? ==> DraftOk(h, AddFrame(input, generated, d).value)
  {
    hide Timestamp, NormalEntry, NormalObject, NormalReaction, PointSum;
  }

  lemma {:induction false} AddObjectsKeep(h: Host, inputs: seq<(ObjectInput, string)>, d: Draft)
    requires DraftOk(h, d)
    ensures AddObjects(inputs, d).Ok? ==> DraftOk(h, AddObjects(inputs, d).value)
    decreases |inputs|
  {
    hide DraftOk, AddObject;
    if inputs != [] {
      AddObjectKeeps(h, inputs[0].0, inputs[0].1, d);
      if AddObject(inputs[0].0, inputs[0].1, d).Ok? {
        AddObjectsKeep(h, inputs[1..], AddObject(inputs[0].0, inputs[0].1, d).value);
      }
    }
  }

  lemma {:induction false} AddFramesKeep(h: Host, inputs: seq<(FrameInput, string)>, d: Draft)
    requires DraftOk(h, d)
    ensures AddFrames(inputs, d).Ok? ==> DraftOk(h, AddFrames(inputs, d).value)
    decreases |inputs|
  {
    hide DraftOk, AddFrame;
    if inputs != [] {
      AddFrameKeeps(h, inputs[0].0, inputs[0].1, d);
      if AddFrame(inputs[0].0, inputs[0].1, d).Ok? {
        AddFramesKeep(h, inputs[1..], AddFrame(inputs[0].0, inputs[0].1, d).value);
      }
    }
  }

  /** Replacing an object by a normal one with the same id and a counted number of points. */
  lemma ReplaceKeeps(h: Host, d: Draft, i: nat, o: Object, total: int)
    requires DraftOk(h, d) && i < |d.doc.objects| && NormalObject(o) && o.id == d.doc.objects[i].id
    requires total == d.totalPoints + |o.points| - |d.doc.objects[i].points| && total <= MAX_POINTS
    ensures DraftOk(h, d.(doc := d.doc.(objects := d.doc.objects[i := o]), totalPoints := total))
  {
    hide Timestamp, NormalEntry, NormalObject, NormalFrame, NormalReaction;
    PointSumUpdate(d.doc.objects, i, o);
  }

  lemma UpdateAtKeeps(h: Host, i: nat, changes: Changes, d: Draft)
    requires DraftOk(h, d) && i < |d.doc.objects|
    ensures UpdateAt(i, changes, d).Ok? ==>
              DraftOk(h, UpdateAt(i, changes, d).value)
                && |UpdateAt(i, changes, d).value.doc.objects| == |d.doc.objects|
  {
    hide DraftOk, NormalizeObject;
    if UpdateAt(i, changes, d).Ok? {
      var input := Overlay(d.doc.objects[i], changes);
      var next := NormalizeObject(input, None).value;
      ObjectNormalized(input, None, next);
      ReplaceKeeps(h, d, i, next, d.totalPoints + |next.points| - |d.doc.objects[i].points|);
    }
  }

  lemma {:induction false} UpdateEachKeeps(h: Host, indices: seq<nat>, changes: Changes, d: Draft)
    requires DraftOk(h, d) && forall k :: 0 <= k < |indices| ==> indices[k] < |d.doc.objects|
    ensures UpdateEach(indices, changes, d).Ok? ==> DraftOk(h, UpdateEach(indices, changes, d).value)
    decreases |indices|
  {
    hide DraftOk, UpdateAt;
    if indices != [] {
      UpdateAtKeeps(h, indices[0], changes, d);
      if UpdateAt(indices[0], changes, d).Ok? {
        UpdateEachKeeps(h, indices[1..], changes, UpdateAt(indices[0], changes, d).value);
      }
    }
  }

  /** Moving keeps an object normal: a path's extent does not depend on where it is. */
  lemma MovedIsNormal(o: Object, dx: real, dy: real)
    requires NormalObject(o)
    ensures o.kind == Path && AllCoordinates(Shifted(o.points, dx, dy)) ==>
            NormalObject(o.(points := Shifted(o.points, dx, dy)))
    ensures o.kind != Path && Coordinate(o.x + dx) && Coordinate(o.y + dy) ==>
            NormalObject(o.(x := o.x + dx, y := o.y + dy))
  {
    hide Color, Identifier, Angle;
    if o.kind == Path { ShiftedBounds(o.points, dx, dy); }
  }

  lemma MoveAtKeeps(h: Host, i: nat, dx: real, dy: real, d: Draft)
    requires DraftOk(h, d) && i < |d.doc.objects|
    ensures MoveAt(i, dx, dy, d).Ok? ==>
              DraftOk(h, MoveAt(i, dx, dy, d).value) && |MoveAt(i, dx, dy, d).value.doc.objects| == |d.doc.objects|
  {
    hide NormalObject, PointSum, NormalEntry, NormalFrame, NormalReaction, Timestamp;
    if MoveAt(i, dx, dy, d).Ok? {
      var o := d.doc.objects[i];
      assert NormalObject(o) && PointSum(d.doc.objects) <= MAX_POINTS;
      MovedIsNormal(o, dx, dy);
      ReplaceKeeps(h, d, i, MoveAt(i, dx, dy, d).value.doc.objects[i], d.totalPoints);
    }
  }

  lemma {:induction false} MoveEachKeeps(h: Host, indices: seq<nat>, dx: real, dy: real, d: Draft)
    requires DraftOk(h, d) && forall k :: 0 <= k < |indices| ==> indices[k] < |d.doc.objects|
    ensures MoveEach(indices, dx, dy, d).Ok? ==> DraftOk(h, MoveEach(indices, dx, dy, d).value)
    decreases |indices|
  {
    hide DraftOk, MoveAt;
    if indices != [] {
      MoveAtKeeps(h, indices[0], dx, dy, d);
      if MoveAt(indices[0], dx, dy, d).Ok? {
        MoveEachKeeps(h, indices[1..], dx, dy, MoveAt(indices[0], dx, dy, d).value);
      }
    }
  }

  lemma DeleteKeeps(h: Host, drop: seq<nat>, d: Draft)
    requires DraftOk(h, d)
    ensures DraftOk(h, d.(doc := d.doc.(objects := Keep(d.doc.objects, drop)),
                          totalPoints := d.totalPoints - DroppedPoints(d.doc.objects, drop)))
  {
    hide NormalObject, PointSum, NormalEntry, NormalFrame, NormalReaction, Timestamp;
    KeepSplits(d.doc.objects, drop);
    var kept := Keep(d.doc.objects, drop);
    forall i | 0 <= i < |kept| ensures NormalObject(kept[i]) {
      assert kept[i] in d.doc.objects;
    }
  }

  lemma WithAgentKeeps(h: Host, d: Draft, a: Agent)
    requires DraftOk(h, d) && NormalAgent(a)
    ensures DraftOk(h, d.(doc := d.doc.(agent := a)))
  {
    hide NormalObject, PointSum, NormalEntry, NormalFrame, NormalReaction, Timestamp;
  }

  lemma MoveAgentKeeps(h: Host, p: Point, generated: string, d: Draft)
    requires DraftOk(h, d) && Coordinate(p.x) && Coordinate(p.y)
    ensures MoveAgent(h, p, generated, d).Ok? ==> DraftOk(h, MoveAgent(h, p, generated, d).value)
  {
    hide AddObject, NormalObject, PointSum, NormalEntry, NormalFrame, NormalReaction, Timestamp, Angle;
    var a := d.doc.agent;
    if MoveAgent(h, p, generated, d).Ok? && !(p.x == a.x && p.y == a.y) {
      var input := PathInput(Point(a.x, a.y), p, a.color, a.width);
      AddObjectKeeps(h, input, generated, d);
      var drawn := if a.penDown then AddObject(input, generated, d).value else d;
      var heading := h.direction(p.y - a.y, p.x - a.x);
      AngleInRange(heading);
      WithAgentKeeps(h, drawn, a.(x := p.x, y := p.y, heading := Angle(heading)));
    }
  }

  lemma ToggleReactionKeeps(h: Host, emoji: string, author: string, now: string, d: Draft)
    requires DraftOk(h, d)
    ensures var r := ToggleReaction(h, emoji, author, now, d.doc); r.Ok? ==> DraftOk(h, d.(doc := r.value))
  {
    hide NormalObject, PointSum, NormalEntry, NormalFrame, NormalReaction, Timestamp;
  }

  lemma FrameUpdateKeeps(h: Host, i: nat, f: Frame, d: Draft)
    requires DraftOk(h, d) && i < |d.doc.frames| && NormalFrame(f) && f.id == d.doc.frames[i].id
    ensures DraftOk(h, d.(doc := d.doc.(frames := d.doc.frames[i := f])))
  {
    hide NormalObject, PointSum, NormalEntry, NormalFrame, NormalReaction, Timestamp;
  }

  lemma FrameDeleteKeeps(h: Host, i: nat, d: Draft)
    requires DraftOk(h, d) && i < |d.doc.frames|
    ensures DraftOk(h, d.(doc := d.doc.(frames := d.doc.frames[..i] + d.doc.frames[i + 1..])))
  {
    hide NormalObject, PointSum, NormalEntry, NormalFrame, NormalReaction, Timestamp;
  }

  lemma FrameNormalized(input: FrameInput, generated: Option<string>, f: Frame)
    requires NormalizeFrame(input, generated) == Ok(f)
    ensures NormalFrame(f) && (input.id.Some? ==> f.id == input.id.value)
  {}

  // ---------- quoting ----------

  lemma {:induction false} MergeKeeps(h: Host, base: seq<Entry>, incoming: seq<Entry>)
    requires forall i :: 0 <= i < |base| ==> NormalEntry(h, base[i], true)
    requires forall i :: 0 <= i < |incoming| ==> NormalEntry(h, incoming[i], true)
    requires DistinctEntries(base)
    ensures MergeEntries(base, incoming).Ok? ==>
              var m := MergeEntries(base, incoming).value;
              && DistinctEntries(m) && (forall i :: 0 <= i < |m| ==> NormalEntry(h, m[i], true))
              && |base| <= |m| && m[..|base|] == base
    decreases |incoming|
  {
    hide NormalEntry;
    if incoming == [] {
      assert base[..|base|] == base;
    } else {
      var i := FindEntry(base, incoming[0].sourceHash);
      if i == |base| {
        MergeKeeps(h, base + [incoming[0]], incoming[1..]);
        if MergeEntries(base, incoming).Ok? {
          var m := MergeEntries(base, incoming).value;
          assert m[..|base|] == m[..|base| + 1][..|base|] == base;
        }
      } else if !Conflict(base[i], incoming[0]) {
        MergeKeeps(h, base, incoming[1..]);
      }
    }
  }

  lemma QuoteSourcesKeeps(h: Host, provenance: seq<Entry>, d: Draft)
    requires StableURLs(h) && DraftOk(h, d)
    ensures var q := QuoteSources(h, provenance, d.doc); q.Ok? ==> DraftOk(h, d.(doc := q.value))
  {
    hide NormalizeDocument, NormalObject, PointSum, NormalEntry, NormalFrame, NormalReaction, Timestamp;
    if QuoteSources(h, provenance, d.doc).Ok? {
      DocumentNormalized(h, SourcesOnly(d.doc, provenance), true);
      MergeKeeps(h, d.doc.provenance, Validate(h, SourcesOnly(d.doc, provenance)).value.provenance);
    }
  }

  // ---------- every command ----------

  /** Whatever a command does, a sound draft stays sound and its point total stays the real sum. */
  lemma {:induction false} RunKeeps(h: Host, c: Command, d: Draft, depth: nat)
    requires StableURLs(h) && DraftOk(h, d)
    ensures Run(h, c, d, depth).Ok? ==> DraftOk(h, Run(h, c, d, depth).value)
    decreases c, 0
  {
    hide DraftOk, IndexFor, UpdateEach, MoveEach, AddObject, AddFrame, AddObjects, AddFrames, MoveAgent,
      ToggleReaction, QuoteSources, Keep, DroppedPoints, NormalizeFrame;
    var e := d.(commandCount := d.commandCount + 1);
    Counted(h, d, d.commandCount + 1);
    if Run(h, c, d, depth).Ok? {
      match c {
        case Create(input, generated) => AddObjectKeeps(h, input, generated, e);
        case Update(ids, changes) => UpdateEachKeeps(h, IndexFor(e.doc.objects, ids).value, changes, e);
        case Delete(ids) => DeleteKeeps(h, IndexFor(e.doc.objects, ids).value, e);
        case Move(ids, dx, dy) => MoveEachKeeps(h, IndexFor(e.doc.objects, ids).value, dx, dy, e);
        case AgentMove(x, y, byX, byY, generated) =>
          MoveAgentKeeps(h, AgentTarget(e.doc.agent, x, y, byX, byY).value, generated, e);
        case AgentTurn(angle) => AgentTurnKeeps(h, angle, e);
        case AgentPen(down, color, width) => AgentPenKeeps(h, down, color, width, e);
        case Batch(commands) => RunAllKeeps(h, commands, e, depth + 1);
        case ReactionToggle(emoji, author, now) => ToggleReactionKeeps(h, emoji, Or(author, e.doc.author), now, e);
        case FrameAdd(frame, generated) => AddFrameKeeps(h, frame, generated, e);
        case FrameUpdate(id, changes) =>
          var i := FindFrame(e.doc.frames, id);
          var input := FrameOverlay(e.doc.frames[i], changes);
          FrameNormalized(input, None, NormalizeFrame(input, None).value);
          FrameUpdateKeeps(h, i, NormalizeFrame(input, None).value, e);
        case FrameDelete(id) => FrameDeleteKeeps(h, FindFrame(e.doc.frames, id), e);
        case Quote(provenance, objects, frames) =>
          QuoteSourcesKeeps(h, provenance, e);
          var quoted := e.(doc := QuoteSources(h, provenance, e.doc).value);
          AddObjectsKeep(h, objects, quoted);
          AddFramesKeep(h, frames, AddObjects(objects, quoted).value);
        case Metadata(title, author) => MetadataKeeps(h, title, author, e);
        case Clear => ClearKeeps(h, e);
      }
    }
  }

  lemma {:induction false} RunAllKeeps(h: Host, commands: seq<Command>, d: Draft, depth: nat)
    requires StableURLs(h) && DraftOk(h, d)
    ensures RunAll(h, commands, d, depth).Ok? ==> DraftOk(h, RunAll(h, commands, d, depth).value)
    decreases commands, 0
  {
    hide DraftOk, Run;
    if commands != [] {
      RunKeeps(h, commands[0], d, depth);
      if Run(h, commands[0], d, depth).Ok? {
        RunAllKeeps(h, commands[1..], Run(h, commands[0], d, depth).value, depth);
      }
    }
  }

  lemma Counted(h: Host, d: Draft, n: nat)
    requires DraftOk(h, d)
    ensures DraftOk(h, d.(commandCount := n))
  {}

  lemma AgentTurnKeeps(h: Host, angle: real, d: Draft)
    requires DraftOk(h, d) && Coordinate(angle)
    ensures DraftOk(h, d.(doc := d.doc.(agent := d.doc.agent.(heading := Angle(angle)))))
  {
    hide NormalObject, PointSum, NormalEntry, NormalFrame, NormalReaction, Timestamp, Angle;
    AngleInRange(angle);
    WithAgentKeeps(h, d, d.doc.agent.(heading := Angle(angle)));
  }

  lemma AgentPenKeeps(h: Host, down: bool, color: Option<string>, width: Option<real>, d: Draft)
    requires DraftOk(h, d) && (color.Some? ==> Color(color.value)) && (width.Some? ==> InRange(width.value, 0.1, 256.0))
    ensures var a := d.doc.agent;
            DraftOk(h, d.(doc := d.doc.(agent := a.(penDown := down, color := Or(color, a.color),
              width := Or(width, a.width)))))
  {
    hide NormalObject, PointSum, NormalEntry, NormalFrame, NormalReaction, Timestamp, Color;
    var a := d.doc.agent;
    WithAgentKeeps(h, d, a.(penDown := down, color := Or(color, a.color), width := Or(width, a.width)));
  }

  lemma MetadataKeeps(h: Host, title: Option<string>, author: Option<string>, d: Draft)
    requires DraftOk(h, d) && (title.Some? ==> |title.value| <= 200) && (author.Some? ==> |author.value| <= 100)
    ensures DraftOk(h, d.(doc := d.doc.(title := Or(title, d.doc.title), author := Or(author, d.doc.author))))
  {
    hide NormalObject, PointSum, NormalEntry, NormalFrame, NormalReaction, Timestamp;
  }

  lemma ClearKeeps(h: Host, d: Draft)
    requires DraftOk(h, d)
    ensures DraftOk(h, d.(doc := d.doc.(objects := []), totalPoints := 0))
  {}

  /** So validating the draft afterwards can only fail for its size, and otherwise changes nothing. */
  lemma ValidatedDraft(h: Host, c: Command, d: Draft, depth: nat)
    requires StableURLs(h) && DraftOk(h, d) && Run(h, c, d, depth).Ok?
    ensures var doc := Run(h, c, d, depth).value.doc;
            Validate(h, doc) == if h.bytes(doc) > MAX_BYTES then Err(SnapshotTooLarge) else Ok(doc)
  {
    hide Run, CheckDocument, Sound;
    RunKeeps(h, c, d, depth);
    SoundDraftChecked(h, Run(h, c, d, depth).value);
  }

  lemma SoundDraftChecked(h: Host, d: Draft)
    requires DraftOk(h, d)
    ensures CheckDocument(h, d.doc, true) == Ok(d.doc)
  {
    hide Sound, CheckDocument;
    SoundIsChecked(h, d.doc, true);
  }
}
