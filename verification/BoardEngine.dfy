/**
 The engine as it runs: a working copy changed in place by each command, and the engine's
 own fields. Every method ends in the state that its specification function gives.
 */
module BoardEngine {
  import opened Basics
  import opened BoardDocument
  import opened BoardCommands
  import opened BoardHistory

  /** The copy of the document that one execution changes; it is discarded when the command fails. */
  class Workspace {
    var document: Document
    var totalPoints: int
    var commandCount: nat

    ghost function Value(): Draft reads this { Draft(document, totalPoints, commandCount) }

    /** The draft as it was before the running command was counted. */
    ghost function Counted(): Draft
      requires commandCount > 0
      reads this
    {
      Draft(document, totalPoints, commandCount - 1)
    }

    /** Either the draft the specification gives, or its error. */
    ghost predicate Reaches(r: Result<Draft, Error>, failure: Option<Error>) reads this {
      && (r.Ok? ==> failure == None && Value() == r.value)
      && (r.Err? ==> failure == Some(r.error))
    }

    constructor (d: Document)
      ensures Value() == StartDraft(d)
    {
      document, totalPoints, commandCount := d, 0, 0;
      new;
      for i := 0 to |d.objects|
        invariant document == d && commandCount == 0 && totalPoints == PointSum(d.objects[..i])
      {
        assert d.objects[..i + 1][..i] == d.objects[..i];
        totalPoints := totalPoints + |d.objects[i].points|;
      }
      assert d.objects[..|d.objects|] == d.objects;
    }

    method Add(input: ObjectInput, generated: string) returns (failure: Option<Error>)
      modifies this
      ensures Reaches(AddObject(input, generated, old(Value())), failure)
    {
      hide NormalizeObject;
      if |document.objects| >= MAX_OBJECTS { return Some(InvalidInput); }
      var normalized := NormalizeObject(input, Some(generated));
      if normalized.Err? { return Some(normalized.error); }
      var o := normalized.value;
      if Find(document.objects, o.id) < |document.objects| { return Some(InvalidInput); }
      totalPoints := totalPoints + |o.points|;
      if totalPoints > MAX_POINTS { return Some(InvalidInput); }
      document := document.(objects := document.objects + [o]);
      failure := None;
    }

    method AddAll(inputs: seq<(ObjectInput, string)>) returns (failure: Option<Error>)
      modifies this
      ensures Reaches(AddObjects(inputs, old(Value())), failure)
    {
      hide AddObject;
      failure := None;
      for i := 0 to |inputs|
        invariant failure == None && AddObjects(inputs, old(Value())) == AddObjects(inputs[i..], Value())
      {
        assert inputs[i..][1..] == inputs[i + 1..];
        failure := Add(inputs[i].0, inputs[i].1);
        if failure.Some? { return; }
      }
    }

    method AddOneFrame(input: FrameInput, generated: string) returns (failure: Option<Error>)
      modifies this
      ensures Reaches(AddFrame(input, generated, old(Value())), failure)
    {
      hide NormalizeFrame;
      if |document.frames| >= MAX_FRAMES { return Some(InvalidInput); }
      var normalized := NormalizeFrame(input, Some(generated));
      if normalized.Err? { return Some(normalized.error); }
      if FindFrame(document.frames, normalized.value.id) < |document.frames| { return Some(InvalidInput); }
      document := document.(frames := document.frames + [normalized.value]);
      failure := None;
    }

    method AddAllFrames(inputs: seq<(FrameInput, string)>) returns (failure: Option<Error>)
      modifies this
      ensures Reaches(AddFrames(inputs, old(Value())), failure)
    {
      hide AddFrame;
      failure := None;
      for i := 0 to |inputs|
        invariant failure == None && AddFrames(inputs, old(Value())) == AddFrames(inputs[i..], Value())
      {
        assert inputs[i..][1..] == inputs[i + 1..];
        failure := AddOneFrame(inputs[i].0, inputs[i].1);
        if failure.Some? { return; }
      }
    }

    method UpdateObject(index: nat, changes: Changes) returns (failure: Option<Error>)
      requires index < |document.objects|
      modifies this
      ensures Reaches(UpdateAt(index, changes, old(Value())), failure)
      ensures failure.None? ==> |document.objects| == old(|document.objects|)
    {
      hide NormalizeObject, Overlay;
      var previous := document.objects[index];
      if previous.kind == Path && (Or(changes.x, 0.0) != 0.0 || Or(changes.y, 0.0) != 0.0) {
        return Some(InvalidInput);
      }
      var normalized := NormalizeObject(Overlay(previous, changes), None);
      if normalized.Err? { return Some(normalized.error); }
      totalPoints := totalPoints + |normalized.value.points| - |previous.points|;
      if totalPoints > MAX_POINTS { return Some(InvalidInput); }
      document := document.(objects := document.objects[index := normalized.value]);
      failure := None;
    }

    method UpdateObjects(indices: seq<nat>, changes: Changes) returns (failure: Option<Error>)
      requires forall k :: 0 <= k < |indices| ==> indices[k] < |document.objects|
      modifies this
      ensures Reaches(UpdateEach(indices, changes, old(Value())), failure)
    {
      hide UpdateAt;
      failure := None;
      for i := 0 to |indices|
        invariant |document.objects| == old(|document.objects|)
        invariant failure == None
        invariant UpdateEach(indices, changes, old(Value())) == UpdateEach(indices[i..], changes, Value())
      {
        assert indices[i..][1..] == indices[i + 1..];
        failure := UpdateObject(indices[i], changes);
        if failure.Some? { return; }
      }
    }

    method MoveObject(index: nat, dx: real, dy: real) returns (failure: Option<Error>)
      requires index < |document.objects|
      modifies this
      ensures Reaches(MoveAt(index, dx, dy, old(Value())), failure)
      ensures failure.None? ==> |document.objects| == old(|document.objects|)
    {
      hide Coordinate;
      var o := document.objects[index];
      if o.kind == Path {
        var ps := Shifted(o.points, dx, dy);
        if !AllCoordinates(ps) { return Some(InvalidInput); }
        o := o.(points := ps);
      } else {
        if !Coordinate(o.x + dx) || !Coordinate(o.y + dy) { return Some(InvalidInput); }
        o := o.(x := o.x + dx, y := o.y + dy);
      }
      document := document.(objects := document.objects[index := o]);
      failure := None;
    }

    method MoveObjects(indices: seq<nat>, dx: real, dy: real) returns (failure: Option<Error>)
      requires forall k :: 0 <= k < |indices| ==> indices[k] < |document.objects|
      modifies this
      ensures Reaches(MoveEach(indices, dx, dy, old(Value())), failure)
    {
      hide MoveAt;
      failure := None;
      for i := 0 to |indices|
        invariant |document.objects| == old(|document.objects|)
        invariant failure == None && MoveEach(indices, dx, dy, old(Value())) == MoveEach(indices[i..], dx, dy, Value())
      {
        assert indices[i..][1..] == indices[i + 1..];
        failure := MoveObject(indices[i], dx, dy);
        if failure.Some? { return; }
      }
    }

    method DeleteObjects(indices: seq<nat>)
      modifies this
      ensures document == old(document).(objects := Keep(old(document).objects, indices))
      ensures totalPoints == old(totalPoints) - DroppedPoints(old(document).objects, indices)
      ensures commandCount == old(commandCount)
    {
      var objects, kept := document.objects, [];
      for i := 0 to |objects|
        invariant document == old(document) && commandCount == old(commandCount)
        invariant kept == Keep(objects[..i], indices)
        invariant totalPoints == old(totalPoints) - DroppedPoints(objects[..i], indices)
      {
        assert objects[..i + 1][..i] == objects[..i];
        if i in indices { totalPoints := totalPoints - |objects[i].points|; } else { kept := kept + [objects[i]]; }
      }
      assert objects[..|objects|] == objects;
      document := document.(objects := kept);
    }

    method MoveAgentTo(h: Host, p: Point, generated: string) returns (failure: Option<Error>)
      modifies this
      ensures Reaches(MoveAgent(h, p, generated, old(Value())), failure)
    {
      hide AddObject, Angle, Coordinate, PathInput;
      var a := document.agent;
      failure := None;
      if p.x != a.x || p.y != a.y {
        if a.penDown {
          failure := Add(PathInput(Point(a.x, a.y), p, a.color, a.width), generated);
          if failure.Some? { return; }
        }
        var heading := h.direction(p.y - a.y, p.x - a.x);
        if !Coordinate(heading) { return Some(InvalidInput); }
        document := document.(agent := a.(x := p.x, y := p.y, heading := Angle(heading)));
      }
    }

    /** The quoted sources join the draft's own: those already there stay, new ones follow. */
    method Merge(h: Host, provenance: seq<Entry>) returns (failure: Option<Error>)
      modifies this
      ensures var r := QuoteSources(h, provenance, old(document));
              && (r.Ok? ==> failure == None && document == r.value) && (r.Err? ==> failure == Some(r.error))
      ensures totalPoints == old(totalPoints) && commandCount == old(commandCount)
    {
      hide Validate, SourcesOnly, Conflict, AncestorsPresent;
      var normalized := Validate(h, SourcesOnly(document, provenance));
      if normalized.Err? { return Some(normalized.error); }
      var incoming := normalized.value.provenance;
      if incoming == [] || exists i :: 0 <= i < |incoming| && incoming[i].snapshot.None? { return Some(InvalidInput); }
      var merged := document.provenance;
      for i := 0 to |incoming|
        invariant MergeEntries(document.provenance, incoming) == MergeEntries(merged, incoming[i..])
      {
        assert incoming[i..][1..] == incoming[i + 1..];
        var k := FindEntry(merged, incoming[i].sourceHash);
        if k < |merged| {
          if Conflict(merged[k], incoming[i]) { return Some(SourceHashMismatch); }
        } else {
          merged := merged + [incoming[i]];
        }
      }
      if |merged| > MAX_PROVENANCE { return Some(InvalidInput); }
      if !AncestorsPresent(merged) { return Some(SourceNotFound); }
      document := document.(provenance := merged);
      failure := None;
    }

    method AddQuotation(
      h: Host, provenance: seq<Entry>, objects: seq<(ObjectInput, string)>, frames: seq<(FrameInput, string)>,
      depth: nat)
      returns (failure: Option<Error>)
      requires 0 < commandCount <= MAX_COMMANDS && depth <= MAX_DEPTH
      modifies this
      ensures Reaches(BoardCommands.Run(h, Quote(provenance, objects, frames), old(Counted()), depth), failure)
    {
      hide QuoteSources, AddObjects, AddFrames;
      failure := Merge(h, provenance);
      if failure.Some? { return; }
      if |objects| > MAX_OBJECTS { return Some(InvalidInput); }
      failure := AddAll(objects);
      if failure.Some? { return; }
      if |frames| > MAX_FRAMES { return Some(InvalidInput); }
      failure := AddAllFrames(frames);
    }

    method Toggle(h: Host, emoji: string, author: string, now: string) returns (failure: Option<Error>)
      modifies this
      ensures var r := ToggleReaction(h, emoji, author, now, old(document));
              && (r.Ok? ==> failure == None && document == r.value) && (r.Err? ==> failure == Some(r.error))
      ensures totalPoints == old(totalPoints) && commandCount == old(commandCount)
    {
      hide NormalReaction;
      if emoji !in REACTIONS || |author| > 100 { return Some(InvalidInput); }
      var i := FindReaction(document.reactions, emoji, author);
      if i < |document.reactions| {
        document := document.(reactions := document.reactions[..i] + document.reactions[i + 1..]);
      } else {
        if |document.reactions| >= MAX_REACTIONS { return Some(InvalidInput); }
        if !NormalReaction(h, Reaction(emoji, author, now)) { return Some(InvalidInput); }
        document := document.(reactions := document.reactions + [Reaction(emoji, author, now)]);
      }
      failure := None;
    }

    method ChangeFrame(h: Host, c: Command, depth: nat) returns (failure: Option<Error>)
      requires 0 < commandCount <= MAX_COMMANDS && depth <= MAX_DEPTH && (c.FrameUpdate? || c.FrameDelete?)
      modifies this
      ensures Reaches(BoardCommands.Run(h, c, old(Counted()), depth), failure)
    {
      hide NormalizeFrame, FrameOverlay, Identifier;
      if !Identifier(c.id) { return Some(InvalidInput); }
      var i := FindFrame(document.frames, c.id);
      if i == |document.frames| { return Some(NotFound); }
      if c.FrameUpdate? {
        if c.frameChanges.unsupported { return Some(InvalidInput); }
        var normalized := NormalizeFrame(FrameOverlay(document.frames[i], c.frameChanges), None);
        if normalized.Err? { return Some(normalized.error); }
        document := document.(frames := document.frames[i := normalized.value]);
      } else {
        document := document.(frames := document.frames[..i] + document.frames[i + 1..]);
      }
      failure := None;
    }

    method ChangeObjects(h: Host, c: Command, depth: nat) returns (failure: Option<Error>)
      requires 0 < commandCount <= MAX_COMMANDS && depth <= MAX_DEPTH && (c.Update? || c.Delete? || c.Move?)
      modifies this
      ensures Reaches(BoardCommands.Run(h, c, old(Counted()), depth), failure)
    {
      hide IndexFor, UpdateEach, MoveEach, Keep, DroppedPoints, Coordinate;
      if c.Update? && c.changes.unsupported { return Some(InvalidInput); }
      if c.Move? && (!Coordinate(c.dx) || !Coordinate(c.dy)) { return Some(InvalidInput); }
      var indices := IndexFor(document.objects, c.ids);
      if indices.Err? { return Some(indices.error); }
      if c.Update? {
        failure := UpdateObjects(indices.value, c.changes);
      } else if c.Move? {
        failure := MoveObjects(indices.value, c.dx, c.dy);
      } else {
        DeleteObjects(indices.value);
        failure := None;
      }
    }

    method ChangeAgent(h: Host, c: Command, depth: nat) returns (failure: Option<Error>)
      requires 0 < commandCount <= MAX_COMMANDS && depth <= MAX_DEPTH && (c.AgentMove? || c.AgentTurn? || c.AgentPen?)
      modifies this
      ensures Reaches(BoardCommands.Run(h, c, old(Counted()), depth), failure)
    {
      hide MoveAgent, AgentTarget, Angle, Color, Coordinate, InRange;
      match c {
        case AgentMove(x, y, byX, byY, generated) =>
          var target := AgentTarget(document.agent, x, y, byX, byY);
          if target.None? { return Some(InvalidInput); }
          failure := MoveAgentTo(h, target.value, generated);
        case AgentTurn(angle) =>
          if !Coordinate(angle) { return Some(InvalidInput); }
          document := document.(agent := document.agent.(heading := Angle(angle)));
          failure := None;
        case AgentPen(down, color, width) =>
          if color.Some? && !Color(color.value) { return Some(InvalidInput); }
          if width.Some? && !InRange(width.value, 0.1, 256.0) { return Some(InvalidInput); }
          document := document.(agent := document.agent.(penDown := down));
          if color.Some? { document := document.(agent := document.agent.(color := color.value)); }
          if width.Some? { document := document.(agent := document.agent.(width := width.value)); }
          failure := None;
      }
    }

    method ChangeRest(h: Host, c: Command, depth: nat) returns (failure: Option<Error>)
      requires 0 < commandCount <= MAX_COMMANDS && depth <= MAX_DEPTH
      requires c.Create? || c.FrameAdd? || c.ReactionToggle? || c.Metadata? || c.Clear? || c.Unsupported?
      modifies this
      ensures Reaches(BoardCommands.Run(h, c, old(Counted()), depth), failure)
    {
      hide ToggleReaction, AddObject, AddFrame;
      match c {
        case Create(input, generated) => failure := Add(input, generated);
        case FrameAdd(frame, generated) => failure := AddOneFrame(frame, generated);
        case Unsupported => failure := Some(InvalidInput);
        case ReactionToggle(emoji, author, now) => failure := Toggle(h, emoji, Or(author, document.author), now);
        case Metadata(title, author) =>
          if title.Some? {
            if |title.value| > 200 { return Some(InvalidInput); }
            document := document.(title := title.value);
          }
          if author.Some? {
            if |author.value| > 100 { return Some(InvalidInput); }
            document := document.(author := author.value);
          }
          failure := None;
        case Clear =>
          document, totalPoints := document.(objects := []), 0;
          failure := None;
      }
    }

    /** One command, with every command inside it. */
    method Perform(h: Host, c: Command, depth: nat) returns (failure: Option<Error>)
      modifies this
      ensures Reaches(BoardCommands.Run(h, c, old(Value()), depth), failure)
      decreases c
    {
      hide BoardCommands.Run, RunAll;
      RunUnfolds(h, c, Value(), depth);
      commandCount := commandCount + 1;
      if commandCount > MAX_COMMANDS || depth > MAX_DEPTH { return Some(InvalidInput); }
      assert Counted() == old(Value());
      if c.Batch? {
        if |c.commands| > MAX_COMMANDS { return Some(InvalidInput); }
        failure := PerformAll(h, c.commands, depth + 1);
      } else if c.Quote? {
        failure := AddQuotation(h, c.provenance, c.objects, c.frames, depth);
      } else if c.FrameUpdate? || c.FrameDelete? {
        failure := ChangeFrame(h, c, depth);
      } else if c.Update? || c.Delete? || c.Move? {
        failure := ChangeObjects(h, c, depth);
      } else if c.AgentMove? || c.AgentTurn? || c.AgentPen? {
        failure := ChangeAgent(h, c, depth);
      } else {
        failure := ChangeRest(h, c, depth);
      }
    }

    method PerformAll(h: Host, commands: seq<Command>, depth: nat) returns (failure: Option<Error>)
      modifies this
      ensures Reaches(RunAll(h, commands, old(Value()), depth), failure)
      decreases commands
    {
      hide BoardCommands.Run;
      failure := None;
      for i := 0 to |commands|
        invariant failure == None
        invariant RunAll(h, commands, old(Value()), depth) == RunAll(h, commands[i..], Value(), depth)
      {
        assert commands[i..][1..] == commands[i + 1..];
        failure := Perform(h, commands[i], depth);
        if failure.Some? { return; }
      }
    }
  }

  /** What running a command does at its limits, and for a batch. */
  lemma RunUnfolds(h: Host, c: Command, d: Draft, depth: nat)
    ensures d.commandCount + 1 > MAX_COMMANDS || depth > MAX_DEPTH ==> Run(h, c, d, depth) == Err(InvalidInput)
    ensures d.commandCount + 1 <= MAX_COMMANDS && depth <= MAX_DEPTH && c.Batch? ==>
              Run(h, c, d, depth) ==
              if |c.commands| > MAX_COMMANDS then Err(InvalidInput)
              else RunAll(h, c.commands, d.(commandCount := d.commandCount + 1), depth + 1)
  {}

  class Engine {
    var document: Document
    var revisionClock: int
    var readOnly: bool
    var past: seq<Item>
    var future: seq<Item>

    ghost function Value(): State reads this { State(document, revisionClock, readOnly, past, future) }

    constructor (valid: Document)
      ensures Value() == Start(valid)
    {
      document, revisionClock, readOnly, past, future := valid, valid.revision, false, [], [];
    }

    /** An engine is made only for a document that validates. */
    static method Create(h: Host, initial: Document) returns (r: Result<Engine, Error>)
      ensures r.Ok? ==>
              fresh(r.value) && Validate(h, initial).Ok? && r.value.Value() == Start(Validate(h, initial).value)
      ensures r.Err? ==> Validate(h, initial) == Err(r.error)
    {
      hide Validate;
      var valid := Validate(h, initial);
      if valid.Err? { return Err(valid.error); }
      var engine := new Engine(valid.value);
      r := Ok(engine);
    }

    method TrimHistory()
      modifies this`past
      ensures past == Trim(old(past))
    {
      var size := 0;
      for i := 0 to |past|
        invariant past == old(past) && size + Size(past[i..]) == Size(past)
      {
        assert past[i..][1..] == past[i + 1..];
        size := size + past[i].bytes;
      }
      while |past| > HISTORY_LIMIT || (size > HISTORY_BYTES && |past| > 1)
        invariant size == Size(past) && Trim(past) == Trim(old(past))
        decreases |past|
      {
        size := size - past[0].bytes;
        past := past[1..];
      }
    }

    method Execute(h: Host, command: Command, actor: string, now: string) returns (response: Response)
      modifies this
      ensures (Value(), response) == DoExecute(h, old(Value()), command, actor, now)
    {
      hide Run, Validate, Trim, StartDraft;
      if readOnly { return Rejected(document.revision, ReadOnly); }
      if |actor| > 100 { return Rejected(document.revision, InvalidInput); }
      var draft := new Workspace(document);
      var failure := draft.Perform(h, command, 0);
      if failure.Some? { return Rejected(document.revision, failure.value); }
      var next := Validate(h, draft.document);
      if next.Err? { return Rejected(document.revision, next.error); }
      if next.value == document { return Accepted(document.revision, true); }
      if revisionClock >= MAX_SAFE_INTEGER { return Rejected(document.revision, InvalidInput); }
      var before := document;
      revisionClock := revisionClock + 1;
      document := Stamped(next.value, revisionClock, now);
      past := past + [Item(before, document, actor, h.bytes(before) + h.bytes(document))];
      future := [];
      TrimHistory();
      response := Accepted(document.revision, false);
    }

    method Restore(undo: bool, now: string) returns (response: Response)
      modifies this
      ensures (Value(), response) == if undo then DoUndo(old(Value()), now) else DoRedo(old(Value()), now)
    {
      hide Trim;
      if readOnly { return Rejected(document.revision, ReadOnly); }
      var source := if undo then past else future;
      if source == [] { return Accepted(document.revision, true); }
      var item := source[|source| - 1];
      if revisionClock >= MAX_SAFE_INTEGER { return Rejected(document.revision, InvalidInput); }
      revisionClock := revisionClock + 1;
      document := Stamped(if undo then item.before else item.after, revisionClock, now);
      if undo {
        past, future := past[..|past| - 1], future + [item];
      } else {
        past, future := past + [item], future[..|future| - 1];
        TrimHistory();
      }
      response := Accepted(document.revision, false);
    }

    method Open(h: Host, input: Document, nextReadOnly: bool) returns (response: Response)
      modifies this
      ensures (Value(), response) == DoLoad(h, old(Value()), input, nextReadOnly)
    {
      hide Validate;
      var next := Validate(h, input);
      if next.Err? { return Rejected(document.revision, next.error); }
      document := next.value;
      if document.revision > revisionClock { revisionClock := document.revision; }
      readOnly, past, future := nextReadOnly, [], [];
      response := Accepted(document.revision, false);
    }

    /** A whole session: the engine goes through the states of the specification and ends in a sound one. */
    method Session(h: Host, steps: seq<Step>)
      requires StableURLs(h) && Inv(h, Value()) && forall i :: 0 <= i < |steps| ==> ClockOk(h, steps[i])
      modifies this
      ensures Value() == TakeAll(h, old(Value()), steps) && Inv(h, Value())
    {
      hide Inv, DoExecute, DoUndo, DoRedo, DoLoad;
      assert steps[..0] == [];
      for i := 0 to |steps|
        invariant Value() == TakeAll(h, old(Value()), steps[..i]) && Inv(h, Value())
      {
        assert steps[..i + 1][..i] == steps[..i];
        StepKeeps(h, Value(), steps[i]);
        var _ := Apply(h, steps[i]);
      }
      assert steps[..|steps|] == steps;
    }

    method Apply(h: Host, step: Step) returns (response: Response)
      modifies this
      ensures (Value(), response) == Take(h, old(Value()), step)
    {
      hide DoExecute, DoUndo, DoRedo, DoLoad;
      match step {
        case Execute(command, actor, now) => response := Execute(h, command, actor, now);
        case Undo(now) => response := Restore(true, now);
        case Redo(now) => response := Restore(false, now);
        case Load(input, nextReadOnly) => response := Open(h, input, nextReadOnly);
      }
    }
  }
}
