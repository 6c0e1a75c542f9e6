/** A batch does what its commands do one after the other. */
module BoardBatch {
  import opened Basics
  import opened BoardDocument
  import opened BoardCommands
  import opened BoardValidity
  import opened BoardHistory

  /** How many commands a command counts for. */
  function Weight(c: Command): nat
    decreases c
  {
    match c
    case Batch(commands) => 1 + WeightAll(commands)
    case _ => 1
  }

  function WeightAll(commands: seq<Command>): nat
    decreases commands
  {
    if commands == [] then 0 else Weight(commands[0]) + WeightAll(commands[1..])
  }

  /** How many batches deep a command goes. */
  function Nesting(c: Command): nat
    decreases c
  {
    match c
    case Batch(commands) => 1 + NestingAll(commands)
    case _ => 0
  }

  function NestingAll(commands: seq<Command>): nat
    decreases commands
  {
    if commands == [] then 0
    else if Nesting(commands[0]) > NestingAll(commands[1..]) then Nesting(commands[0]) else NestingAll(commands[1..])
  }

  lemma {:induction false} WeightAtLeast(commands: seq<Command>)
    ensures WeightAll(commands) >= |commands|
  {
    if commands != [] { WeightAtLeast(commands[1..]); }
  }

  // ---------- the same draft under another header ----------

  datatype Header = Header(revision: int, updatedAt: string, count: nat)

  function Under(d: Draft, x: Header): Draft { Draft(Stamped(d.doc, x.revision, x.updatedAt), d.totalPoints, x.count) }

  function UnderResult(r: Result<Draft, Error>, x: Header): Result<Draft, Error> {
    if r.Ok? then Ok(Under(r.value, x)) else r
  }

  predicate HeaderFits(h: Host, x: Header) { 0 <= x.revision <= MAX_SAFE_INTEGER && Timestamp(h, x.updatedAt) }

  /** No document is larger under the first revision and time of update than under the second. */
  ghost predicate NoLonger(h: Host, r0: int, u0: string, r: int, u: string) {
    forall d :: h.bytes(Stamped(d, r0, u0)) <= h.bytes(Stamped(d, r, u))
  }

  ghost predicate Lighter(h: Host, x: Header, d: Document) {
    NoLonger(h, x.revision, x.updatedAt, d.revision, d.updatedAt)
  }

  function Own(d: Draft): Header { Header(d.doc.revision, d.doc.updatedAt, d.commandCount) }

  predicate SameHeader(a: Document, b: Document) { a.revision == b.revision && a.updatedAt == b.updatedAt }

  lemma AddObjectUnder(input: ObjectInput, generated: string, d: Draft, x: Header)
    ensures AddObject(input, generated, Under(d, x)) == UnderResult(AddObject(input, generated, d), x)
  {
    hide NormalizeObject;
  }

  lemma AddFrameUnder(input: FrameInput, generated: string, d: Draft, x: Header)
    ensures AddFrame(input, generated, Under(d, x)) == UnderResult(AddFrame(input, generated, d), x)
  {}

  lemma {:induction false} AddObjectsUnder(inputs: seq<(ObjectInput, string)>, d: Draft, x: Header)
    ensures AddObjects(inputs, Under(d, x)) == UnderResult(AddObjects(inputs, d), x)
    decreases |inputs|
  {
    hide AddObject, Under;
    if inputs != [] {
      AddObjectUnder(inputs[0].0, inputs[0].1, d, x);
      if AddObject(inputs[0].0, inputs[0].1, d).Ok? {
        AddObjectsUnder(inputs[1..], AddObject(inputs[0].0, inputs[0].1, d).value, x);
      }
    }
  }

  lemma {:induction false} AddFramesUnder(inputs: seq<(FrameInput, string)>, d: Draft, x: Header)
    ensures AddFrames(inputs, Under(d, x)) == UnderResult(AddFrames(inputs, d), x)
    decreases |inputs|
  {
    hide AddFrame, Under;
    if inputs != [] {
      AddFrameUnder(inputs[0].0, inputs[0].1, d, x);
      if AddFrame(inputs[0].0, inputs[0].1, d).Ok? {
        AddFramesUnder(inputs[1..], AddFrame(inputs[0].0, inputs[0].1, d).value, x);
      }
    }
  }

  lemma {:induction false} UpdateEachUnder(indices: seq<nat>, changes: Changes, d: Draft, x: Header)
    requires forall k :: 0 <= k < |indices| ==> indices[k] < |d.doc.objects|
    ensures UpdateEach(indices, changes, Under(d, x)) == UnderResult(UpdateEach(indices, changes, d), x)
    decreases |indices|
  {
    hide NormalizeObject;
    if indices != [] && UpdateAt(indices[0], changes, d).Ok? {
      UpdateEachUnder(indices[1..], changes, UpdateAt(indices[0], changes, d).value, x);
    }
  }

  lemma {:induction false} MoveEachUnder(indices: seq<nat>, dx: real, dy: real, d: Draft, x: Header)
    requires forall k :: 0 <= k < |indices| ==> indices[k] < |d.doc.objects|
    ensures MoveEach(indices, dx, dy, Under(d, x)) == UnderResult(MoveEach(indices, dx, dy, d), x)
    decreases |indices|
  {
    if indices != [] && MoveAt(indices[0], dx, dy, d).Ok? {
      MoveEachUnder(indices[1..], dx, dy, MoveAt(indices[0], dx, dy, d).value, x);
    }
  }

  lemma MoveAgentUnder(h: Host, p: Point, generated: string, d: Draft, x: Header)
    ensures MoveAgent(h, p, generated, Under(d, x)) == UnderResult(MoveAgent(h, p, generated, d), x)
  {
    hide AddObject;
    var a := d.doc.agent;
    AddObjectUnder(PathInput(Point(a.x, a.y), p, a.color, a.width), generated, d, x);
  }

  lemma QuoteSourcesUnder(h: Host, provenance: seq<Entry>, d: Draft, x: Header)
    requires HeaderFits(h, x) && QuoteSources(h, provenance, d.doc).Ok?
    ensures var q := QuoteSources(h, provenance, Under(d, x).doc);
            || q == Ok(Stamped(QuoteSources(h, provenance, d.doc).value, x.revision, x.updatedAt))
            || (q == Err(SnapshotTooLarge) && !Lighter(h, x, d.doc))
  {
    hide MergeEntries, AncestorsPresent, CheckDocument, Timestamp, NoLonger;
    var a, b := SourcesOnly(d.doc, provenance), SourcesOnly(Under(d, x).doc, provenance);
    assert b == Stamped(a, x.revision, x.updatedAt);
    CheckUnder(h, a, x.revision, x.updatedAt);
    CheckKeepsHeader(h, a);
    if Lighter(h, x, d.doc) { LighterBytes(h, x, CheckDocument(h, a, true).value); }
  }

  lemma CheckUnder(h: Host, d: Document, revision: int, updatedAt: string)
    requires 0 <= revision <= MAX_SAFE_INTEGER && Timestamp(h, updatedAt) && CheckDocument(h, d, true).Ok?
    ensures CheckDocument(h, Stamped(d, revision, updatedAt), true)
            == Ok(Stamped(CheckDocument(h, d, true).value, revision, updatedAt))
  {
    hide NormalizeEntries, NormalizeObjects, Timestamp, PointSum, Angle;
  }

  lemma CheckKeepsHeader(h: Host, d: Document)
    requires CheckDocument(h, d, true).Ok?
    ensures SameHeader(CheckDocument(h, d, true).value, d)
  {
    hide NormalizeEntries, NormalizeObjects, PartsOk, Angle;
  }

  lemma LighterBytes(h: Host, x: Header, d: Document)
    requires Lighter(h, x, d)
    ensures h.bytes(Stamped(d, x.revision, x.updatedAt)) <= h.bytes(d)
  {
    assert Stamped(d, d.revision, d.updatedAt) == d;
  }

  lemma SameDraft(d: Draft)
    ensures Under(d, Own(d)) == d
  {}

  /** No command touches the header. */
  lemma {:induction false} RunKeepsHeader(h: Host, c: Command, d: Draft, depth: nat)
    ensures Run(h, c, d, depth).Ok? ==> SameHeader(Run(h, c, d, depth).value.doc, d.doc)
    decreases c
  {
    hide IndexFor, UpdateEach, MoveEach, AddObject, AddFrame, AddObjects, AddFrames, MoveAgent,
      ToggleReaction, QuoteSources, Keep, DroppedPoints, NormalizeFrame;
    var e := d.(commandCount := d.commandCount + 1);
    var y := Own(e);
    SameDraft(e);
    if Run(h, c, d, depth).Ok? {
      match c {
        case Create(input, generated) => AddObjectUnder(input, generated, e, y);
        case Update(ids, changes) => UpdateEachUnder(IndexFor(e.doc.objects, ids).value, changes, e, y);
        case Move(ids, dx, dy) => MoveEachUnder(IndexFor(e.doc.objects, ids).value, dx, dy, e, y);
        case AgentMove(ax, ay, byX, byY, generated) =>
          MoveAgentUnder(h, AgentTarget(e.doc.agent, ax, ay, byX, byY).value, generated, e, y);
        case Batch(commands) => RunAllKeepsHeader(h, commands, e, depth + 1);
        case ReactionToggle(emoji, author, now) => ToggleUnder(h, emoji, Or(author, e.doc.author), now, e, y);
        case FrameAdd(frame, generated) => AddFrameUnder(frame, generated, e, y);
        case Quote(provenance, objects, frames) =>
          var quoted := e.(doc := QuoteSources(h, provenance, e.doc).value);
          QuoteKeepsHeader(h, provenance, e.doc);
          SameDraft(quoted);
          AddObjectsUnder(objects, quoted, y);
          SameDraft(AddObjects(objects, quoted).value);
          AddFramesUnder(frames, AddObjects(objects, quoted).value, y);
        case _ =>
      }
    }
  }

  lemma QuoteKeepsHeader(h: Host, provenance: seq<Entry>, d: Document)
    ensures QuoteSources(h, provenance, d).Ok? ==> SameHeader(QuoteSources(h, provenance, d).value, d)
  {
    hide Validate, MergeEntries, AncestorsPresent;
  }

  lemma {:induction false} RunAllKeepsHeader(h: Host, commands: seq<Command>, d: Draft, depth: nat)
    ensures RunAll(h, commands, d, depth).Ok? ==> SameHeader(RunAll(h, commands, d, depth).value.doc, d.doc)
    decreases commands
  {
    hide Run;
    if commands != [] && Run(h, commands[0], d, depth).Ok? {
      RunKeepsHeader(h, commands[0], d, depth);
      RunAllKeepsHeader(h, commands[1..], Run(h, commands[0], d, depth).value, depth);
    }
  }

  /**
   A command that succeeds under one header does the same under another, or fails for a size that
   is larger under it.
   */
  lemma {:induction false} RunUnder(h: Host, c: Command, d: Draft, x: Header, depth: nat, depth': nat)
    requires HeaderFits(h, x) && Run(h, c, d, depth).Ok?
    requires x.count + Weight(c) <= MAX_COMMANDS && depth' + Nesting(c) <= MAX_DEPTH
    ensures var r := Run(h, c, Under(d, x), depth');
            || r == Ok(Under(Run(h, c, d, depth).value, x.(count := x.count + Weight(c))))
            || (r == Err(SnapshotTooLarge) && !Lighter(h, x, d.doc))
    decreases c
  {
    hide IndexFor, UpdateEach, MoveEach, AddObject, AddFrame, AddObjects, AddFrames, MoveAgent,
      ToggleReaction, QuoteSources, Keep, DroppedPoints, NormalizeFrame, NoLonger, Timestamp;
    var e := d.(commandCount := d.commandCount + 1);
    var y := x.(count := x.count + 1);
    match c {
      case Create(input, generated) => AddObjectUnder(input, generated, e, y);
      case Update(ids, changes) => UpdateEachUnder(IndexFor(e.doc.objects, ids).value, changes, e, y);
      case Move(ids, dx, dy) => MoveEachUnder(IndexFor(e.doc.objects, ids).value, dx, dy, e, y);
      case AgentMove(ax, ay, byX, byY, generated) =>
        MoveAgentUnder(h, AgentTarget(e.doc.agent, ax, ay, byX, byY).value, generated, e, y);
      case Batch(commands) =>
        WeightAtLeast(commands);
        RunAllUnder(h, commands, e, y, depth + 1, depth' + 1);
      case ReactionToggle(emoji, author, now) => ToggleUnder(h, emoji, Or(author, e.doc.author), now, e, y);
      case FrameAdd(frame, generated) => AddFrameUnder(frame, generated, e, y);
      case Quote(provenance, objects, frames) =>
        QuoteSourcesUnder(h, provenance, e, y);
        var quoted := e.(doc := QuoteSources(h, provenance, e.doc).value);
        AddObjectsUnder(objects, quoted, y);
        AddFramesUnder(frames, AddObjects(objects, quoted).value, y);
      case _ =>
    }
  }

  lemma ToggleUnder(h: Host, emoji: string, author: string, now: string, d: Draft, x: Header)
    ensures var a, b :=
            ToggleReaction(h, emoji, author, now, d.doc), ToggleReaction(h, emoji, author, now, Under(d, x).doc);
            if a.Ok? then b == Ok(Stamped(a.value, x.revision, x.updatedAt)) else a == b
  {}

  lemma {:induction false} RunAllUnder(h: Host, commands: seq<Command>, d: Draft, x: Header, depth: nat, depth': nat)
    requires HeaderFits(h, x) && RunAll(h, commands, d, depth).Ok?
    requires x.count + WeightAll(commands) <= MAX_COMMANDS && depth' + NestingAll(commands) <= MAX_DEPTH
    ensures var r := RunAll(h, commands, Under(d, x), depth');
            || r == Ok(Under(RunAll(h, commands, d, depth).value, x.(count := x.count + WeightAll(commands))))
            || (r == Err(SnapshotTooLarge) && !Lighter(h, x, d.doc))
    decreases commands
  {
    hide Run, Under, NoLonger, Timestamp;
    if commands == [] {
      assert x.(count := x.count + WeightAll(commands)) == x;
    } else {
      RunUnder(h, commands[0], d, x, depth, depth');
      RunKeepsHeader(h, commands[0], d, depth);
      var y := x.(count := x.count + Weight(commands[0]));
      if Run(h, commands[0], Under(d, x), depth').Ok? {
        RunAllUnder(h, commands[1..], Run(h, commands[0], d, depth).value, y, depth, depth');
        assert y.(count := y.count + WeightAll(commands[1..])) == x.(count := x.count + WeightAll(commands));
      }
    }
  }

  // ---------- executing one after the other ----------

  datatype Timed = Timed(command: Command, now: string)

  function Commands(list: seq<Timed>): seq<Command> {
    if list == [] then [] else [list[0].command] + Commands(list[1..])
  }

  /** The state after the commands, executed in turn, if none was rejected. */
  function InTurn(h: Host, s: State, list: seq<Timed>, actor: string): Option<State>
    decreases |list|
  {
    if list == [] then Some(s)
    else
      var (t, r) := DoExecute(h, s, list[0].command, actor, list[0].now);
      if r.Rejected? then None else InTurn(h, t, list[1..], actor)
  }

  /** Drafts with the same content as a document. */
  ghost predicate Tracks(h: Host, e: Draft, d: Document) {
    && Linked(e.doc, d) && e.totalPoints == PointSum(d.objects)
    && 0 <= e.doc.revision <= MAX_SAFE_INTEGER && Timestamp(h, e.doc.updatedAt)
  }

  /** One executed command, run on a draft that tracks the document, gives a draft that tracks the next document. */
  lemma TrackOne(h: Host, s: State, c: Command, actor: string, now: string, e: Draft, depth: nat)
    requires StableURLs(h) && Inv(h, s) && Timestamp(h, now) && Tracks(h, e, s.document)
    requires DoExecute(h, s, c, actor, now).1.Accepted?
    requires e.commandCount + Weight(c) <= MAX_COMMANDS && depth + Nesting(c) <= MAX_DEPTH
    ensures var r := Run(h, c, e, depth);
            var t := DoExecute(h, s, c, actor, now).0;
            || (r.Ok? && Tracks(h, r.value, t.document) && r.value.commandCount == e.commandCount + Weight(c)
                && SameHeader(r.value.doc, e.doc)
                && (Lighter(h, Own(e), s.document) ==> h.bytes(r.value.doc) <= MAX_BYTES))
            || (r == Err(SnapshotTooLarge) && !Lighter(h, Own(e), s.document))
    ensures Inv(h, DoExecute(h, s, c, actor, now).0)
  {
    hide Run, Inv, Sound, Timestamp, Trim, CheckDocument, NoLonger, PointSum;
    StepKeeps(h, s, Step.Execute(c, actor, now));
    InvSound(h, s);
    NextIsSound(h, s.document, c);
    var d := StartDraft(s.document);
    var x := Own(e);
    assert e == Under(d, x);
    RunUnder(h, c, d, x, 0, depth);
    RunKeepsHeader(h, c, d, 0);
    PointsStaySummed(h, c, d);
    if Lighter(h, x, s.document) { LighterBytes(h, x, Run(h, c, d, 0).value.doc); }
  }

  lemma PointsStaySummed(h: Host, c: Command, d: Draft)
    requires StableURLs(h) && Sound(h, d.doc, true) && d.totalPoints == PointSum(d.doc.objects) && Run(h, c, d, 0).Ok?
    ensures Run(h, c, d, 0).value.totalPoints == PointSum(Run(h, c, d, 0).value.doc.objects)
  {
    hide Run, Sound, PointSum;
    RunKeeps(h, c, d, 0);
  }

  /** The first header is no longer than any revision above the clock with any of the times of the list. */
  ghost predicate Outgrown(h: Host, x: Header, clock: int, list: seq<Timed>) {
    forall r, k ::
      clock < r <= MAX_SAFE_INTEGER && 0 <= k < |list| ==> NoLonger(h, x.revision, x.updatedAt, r, list[k].now)
  }

  /** The header of the board is no longer than those its successors get from the commands of the list. */
  ghost predicate HeadersGrow(h: Host, s: State, list: seq<Timed>) {
    forall r, k :: s.revisionClock < r <= MAX_SAFE_INTEGER && 0 <= k < |list| ==>
      NoLonger(h, s.document.revision, s.document.updatedAt, r, list[k].now)
  }

  lemma NextHeader(h: Host, s: State, c: Command, actor: string, now: string, x: Header, clock: int, list: seq<Timed>)
    requires Inv(h, s) && clock <= s.revisionClock && list != [] && list[0] == Timed(c, now)
    requires DoExecute(h, s, c, actor, now).1.Accepted?
    requires Lighter(h, x, s.document) && Outgrown(h, x, clock, list)
    ensures var t := DoExecute(h, s, c, actor, now).0;
            clock <= t.revisionClock && Lighter(h, x, t.document) && Outgrown(h, x, clock, list[1..])
  {
    hide Next, NoLonger, Sound, Chained, Bounded, ItemOk, Trim;
    assert forall k :: 0 <= k < |list[1..]| ==> list[1..][k] == list[k + 1];
  }

  lemma {:induction false} TrackAll(
    h: Host, s: State, list: seq<Timed>, actor: string, e: Draft, depth: nat, clock: int)
    requires StableURLs(h) && Inv(h, s) && Tracks(h, e, s.document) && InTurn(h, s, list, actor).Some?
    requires forall i :: 0 <= i < |list| ==> Timestamp(h, list[i].now)
    requires e.commandCount + WeightAll(Commands(list)) <= MAX_COMMANDS
    requires depth + NestingAll(Commands(list)) <= MAX_DEPTH
    requires clock <= s.revisionClock
    ensures var r := RunAll(h, Commands(list), e, depth);
            var lighter := Lighter(h, Own(e), s.document) && Outgrown(h, Own(e), clock, list);
            || (r.Ok? && Tracks(h, r.value, InTurn(h, s, list, actor).value.document)
                && SameHeader(r.value.doc, e.doc)
                && (lighter && (list != [] || h.bytes(e.doc) <= MAX_BYTES) ==> h.bytes(r.value.doc) <= MAX_BYTES))
            || (r == Err(SnapshotTooLarge) && !lighter)
    decreases |list|
  {
    hide Inv, Run, DoExecute, Tracks, Lighter, Outgrown, Timestamp;
    if list != [] {
      var c := list[0].command;
      var t := DoExecute(h, s, c, actor, list[0].now).0;
      assert Commands(list)[1..] == Commands(list[1..]);
      TrackOne(h, s, c, actor, list[0].now, e, depth);
      if Run(h, c, e, depth).Ok? {
        var f := Run(h, c, e, depth).value;
        SameLightness(h, Own(f), Own(e), t.document, clock, list[1..]);
        if Lighter(h, Own(e), s.document) && Outgrown(h, Own(e), clock, list) {
          NextHeader(h, s, c, actor, list[0].now, Own(e), clock, list);
        }
        ClockStays(h, s, c, actor, list[0].now);
        TrackAll(h, t, list[1..], actor, f, depth, clock);
      }
    }
  }

  lemma ClockStays(h: Host, s: State, c: Command, actor: string, now: string)
    ensures DoExecute(h, s, c, actor, now).0.revisionClock >= s.revisionClock
  {
    hide Next, Trim;
  }

  /** Lightness is a matter of revision and time of update only. */
  lemma SameLightness(h: Host, x: Header, y: Header, d: Document, clock: int, list: seq<Timed>)
    requires x.revision == y.revision && x.updatedAt == y.updatedAt
    ensures Lighter(h, x, d) <==> Lighter(h, y, d)
    ensures Outgrown(h, x, clock, list) <==> Outgrown(h, y, clock, list)
  {
    hide NoLonger;
  }

  /** If any execution in turn changed the content, the clock was not exhausted. */
  lemma {:induction false} UnchangedAtTheEnd(h: Host, s: State, list: seq<Timed>, actor: string)
    requires InTurn(h, s, list, actor).Some? && s.revisionClock >= MAX_SAFE_INTEGER
    ensures InTurn(h, s, list, actor).value == s
    decreases |list|
  {
    hide Next;
    if list != [] { UnchangedAtTheEnd(h, s, list[1..], actor); }
  }

  /** Everything a batch of commands that succeed in turn may come to. */
  lemma BatchOrTooLarge(h: Host, s: State, list: seq<Timed>, actor: string, now: string)
    requires StableURLs(h) && Inv(h, s) && !s.readOnly && |actor| <= 100 && Timestamp(h, now)
    requires forall i :: 0 <= i < |list| ==> Timestamp(h, list[i].now)
    requires InTurn(h, s, list, actor).Some?
    requires 1 + WeightAll(Commands(list)) <= MAX_COMMANDS && 1 + NestingAll(Commands(list)) <= MAX_DEPTH
    ensures var (t, r) := DoExecute(h, s, Batch(Commands(list)), actor, now);
            || (r.Accepted? && Linked(t.document, InTurn(h, s, list, actor).value.document)
                && (t == s || exists item :: t.past == Trim(s.past + [item]) && t.future == []))
            || (r == Rejected(s.document.revision, SnapshotTooLarge) && t == s
                && !(HeadersGrow(h, s, list) && (list != [] || h.bytes(s.document) <= MAX_BYTES)))
  {
    hide Inv, RunAll, Sound, Timestamp, CheckDocument, NoLonger, Trim, PointSum, InTurn;
    var cs := Commands(list);
    var start := StartDraft(s.document);
    var e := start.(commandCount := 1);
    InvTracks(h, s, e);
    WeightAtLeast(cs);
    assert NoLonger(h, s.document.revision, s.document.updatedAt, s.document.revision, s.document.updatedAt) by {
      NoLongerThanItself(h, s.document);
    }
    TrackAll(h, s, list, actor, e, 1, s.revisionClock);
    assert Run(h, Batch(cs), start, 0) == RunAll(h, cs, e, 1);
    InvSound(h, s);
    if Run(h, Batch(cs), start, 0).Ok? {
      SoundStart(h, s.document);
      ValidatedDraft(h, Batch(cs), start, 0);
      if s.revisionClock >= MAX_SAFE_INTEGER { UnchangedAtTheEnd(h, s, list, actor); }
    }
  }

  lemma NoLongerThanItself(h: Host, d: Document)
    ensures NoLonger(h, d.revision, d.updatedAt, d.revision, d.updatedAt)
  {}

  /**
   If the commands succeed in turn, one batch of them within the count and depth limits succeeds
   with the same content and at most one history item, as long as the document's header is no longer
   than those the commands give it.
   */
  lemma BatchIsSequence(h: Host, s: State, list: seq<Timed>, actor: string, now: string)
    requires StableURLs(h) && Inv(h, s) && !s.readOnly && |actor| <= 100 && Timestamp(h, now)
    requires forall i :: 0 <= i < |list| ==> Timestamp(h, list[i].now)
    requires InTurn(h, s, list, actor).Some? && HeadersGrow(h, s, list)
    requires list != [] || h.bytes(s.document) <= MAX_BYTES
    requires 1 + WeightAll(Commands(list)) <= MAX_COMMANDS && 1 + NestingAll(Commands(list)) <= MAX_DEPTH
    ensures var (t, r) := DoExecute(h, s, Batch(Commands(list)), actor, now);
            && r.Accepted? && Linked(t.document, InTurn(h, s, list, actor).value.document)
            && (t == s || exists item :: t.past == Trim(s.past + [item]) && t.future == [])
  {
    hide Inv, Timestamp, NoLonger, Trim, InTurn, DoExecute;
    BatchOrTooLarge(h, s, list, actor, now);
  }

  lemma InvTracks(h: Host, s: State, e: Draft)
    requires Inv(h, s) && e.doc == s.document && e.totalPoints == PointSum(s.document.objects)
    ensures Tracks(h, e, s.document)
  {
    hide Timestamp, Chained, Bounded, ItemOk;
  }
}
