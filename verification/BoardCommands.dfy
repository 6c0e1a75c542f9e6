/**
 Commands on a draft. Generated ids and clock readings are arguments of the command that
 uses them. A failing command yields only its error: the draft it was given is discarded.
 */
module BoardCommands {
  import opened Basics
  import opened BoardDocument

  const MAX_COMMANDS := 2000
  const MAX_DEPTH := 5

  datatype Changes = Changes(
    x: Option<real>, y: Option<real>, width: Option<real>, height: Option<real>, points: Option<seq<Point>>,
    stroke: Option<string>, fill: Option<string>, strokeWidth: Option<real>, text: Option<string>,
    fontSize: Option<real>, rotation: Option<real>, unsupported: bool)

  datatype FrameChanges = FrameChanges(
    title: Option<string>, description: Option<string>, x: Option<real>, y: Option<real>,
    width: Option<real>, height: Option<real>, unsupported: bool)

  datatype Command =
    | Create(input: ObjectInput, generated: string)
    | Update(ids: seq<string>, changes: Changes)
    | Delete(ids: seq<string>)
    | Move(ids: seq<string>, dx: real, dy: real)
    | AgentMove(x: Option<real>, y: Option<real>, byX: Option<real>, byY: Option<real>, generated: string)
    | AgentTurn(angle: real)
    | AgentPen(down: bool, color: Option<string>, width: Option<real>)
    | Batch(commands: seq<Command>)
    | ReactionToggle(emoji: string, author: Option<string>, now: string)
    | FrameAdd(frame: FrameInput, generated: string)
    | FrameUpdate(id: string, frameChanges: FrameChanges)
    | FrameDelete(id: string)
    | Quote(provenance: seq<Entry>, objects: seq<(ObjectInput, string)>, frames: seq<(FrameInput, string)>)
    | Metadata(title: Option<string>, newAuthor: Option<string>)
    | Clear
    | Unsupported

  /** The working copy of one execution, with its running point total and command count. */
  datatype Draft = Draft(doc: Document, totalPoints: int, commandCount: nat)

  // ---------- finding objects ----------

  function Find(objects: seq<Object>, id: string): (i: nat)
    ensures i <= |objects|
    ensures i < |objects| ==> objects[i].id == id
    ensures forall k :: 0 <= k < i ==> objects[k].id != id
  {
    if objects == [] || objects[0].id == id then 0 else 1 + Find(objects[1..], id)
  }

  function FindFrame(frames: seq<Frame>, id: string): (i: nat)
    ensures i <= |frames|
    ensures i < |frames| ==> frames[i].id == id
    ensures forall k :: 0 <= k < i ==> frames[k].id != id
  {
    if frames == [] || frames[0].id == id then 0 else 1 + FindFrame(frames[1..], id)
  }

  function Indices(objects: seq<Object>, ids: seq<string>): (r: Result<seq<nat>, Error>)
    ensures r.Ok? ==> forall k :: 0 <= k < |r.value| ==> r.value[k] < |objects|
  {
    if ids == [] then Ok([])
    else if Find(objects, ids[0]) == |objects| then Err(NotFound)
    else
      match Indices(objects, ids[1..])
      case Err(e) => Err(e)
      case Ok(rest) => Ok([Find(objects, ids[0])] + rest)
  }

  function IndexFor(objects: seq<Object>, ids: seq<string>): (r: Result<seq<nat>, Error>)
    ensures r.Ok? ==> forall k :: 0 <= k < |r.value| ==> r.value[k] < |objects|
  {
    if ids == [] || |ids| > MAX_OBJECTS || exists i :: 0 <= i < |ids| && !Identifier(ids[i]) then Err(InvalidInput)
    else Indices(objects, Unique(ids))
  }

  // ---------- single steps ----------

  function AddObject(input: ObjectInput, generated: string, d: Draft): Result<Draft, Error> {
    var objects := d.doc.objects;
    if |objects| >= MAX_OBJECTS then Err(InvalidInput)
    else
      match NormalizeObject(input, Some(generated))
      case Err(e) => Err(e)
      case Ok(o) =>
        if Find(objects, o.id) < |objects| then Err(InvalidInput)
        else if d.totalPoints + |o.points| > MAX_POINTS then Err(InvalidInput)
        else Ok(d.(doc := d.doc.(objects := objects + [o]), totalPoints := d.totalPoints + |o.points|))
  }

  function AddFrame(input: FrameInput, generated: string, d: Draft): Result<Draft, Error> {
    var frames := d.doc.frames;
    if |frames| >= MAX_FRAMES then Err(InvalidInput)
    else
      match NormalizeFrame(input, Some(generated))
      case Err(e) => Err(e)
      case Ok(f) =>
        if FindFrame(frames, f.id) < |frames| then Err(InvalidInput)
        else Ok(d.(doc := d.doc.(frames := frames + [f])))
  }

  function AddObjects(inputs: seq<(ObjectInput, string)>, d: Draft): Result<Draft, Error> {
    if inputs == [] then Ok(d)
    else
      match AddObject(inputs[0].0, inputs[0].1, d)
      case Err(e) => Err(e)
      case Ok(next) => AddObjects(inputs[1..], next)
  }

  function AddFrames(inputs: seq<(FrameInput, string)>, d: Draft): Result<Draft, Error> {
    if inputs == [] then Ok(d)
    else
      match AddFrame(inputs[0].0, inputs[0].1, d)
      case Err(e) => Err(e)
      case Ok(next) => AddFrames(inputs[1..], next)
  }

  function Over<T>(new_: Option<T>, old_: Option<T>): Option<T> { if new_.Some? then new_ else old_ }

  /** `{ ...previous, ...updates }`. */
  function Overlay(o: Object, c: Changes): ObjectInput {
    var i := AsInput(o);
    ObjectInput(i.id, i.kind, Over(c.x, i.x), Over(c.y, i.y), Over(c.width, i.width), Over(c.height, i.height),
                Over(c.stroke, i.stroke), Over(c.fill, i.fill), Over(c.strokeWidth, i.strokeWidth),
                  Over(c.rotation, i.rotation),
                Over(c.points, i.points), Over(c.text, i.text), Over(c.fontSize, i.fontSize))
  }

  function UpdateAt(index: nat, changes: Changes, d: Draft): Result<Draft, Error>
    requires index < |d.doc.objects|
  {
    var previous := d.doc.objects[index];
    if previous.kind == Path && (Or(changes.x, 0.0) != 0.0 || Or(changes.y, 0.0) != 0.0) then Err(InvalidInput)
    else
      match NormalizeObject(Overlay(previous, changes), None)
      case Err(e) => Err(e)
      case Ok(next) =>
        var total := d.totalPoints + |next.points| - |previous.points|;
        if total > MAX_POINTS then Err(InvalidInput)
        else Ok(d.(doc := d.doc.(objects := d.doc.objects[index := next]), totalPoints := total))
  }

  function UpdateEach(indices: seq<nat>, changes: Changes, d: Draft): Result<Draft, Error>
    requires forall k :: 0 <= k < |indices| ==> indices[k] < |d.doc.objects|
  {
    if indices == [] then Ok(d)
    else
      match UpdateAt(indices[0], changes, d)
      case Err(e) => Err(e)
      case Ok(next) => UpdateEach(indices[1..], changes, next)
  }

  function Shifted(ps: seq<Point>, dx: real, dy: real): (r: seq<Point>)
    ensures |r| == |ps| && forall i :: 0 <= i < |ps| ==> r[i] == Point(ps[i].x + dx, ps[i].y + dy)
  {
    if ps == [] then [] else [Point(ps[0].x + dx, ps[0].y + dy)] + Shifted(ps[1..], dx, dy)
  }

  predicate AllCoordinates(ps: seq<Point>) { forall i :: 0 <= i < |ps| ==> Coordinate(ps[i].x) && Coordinate(ps[i].y) }

  function MoveAt(index: nat, dx: real, dy: real, d: Draft): Result<Draft, Error>
    requires index < |d.doc.objects|
  {
    var o := d.doc.objects[index];
    if o.kind == Path then
      var ps := Shifted(o.points, dx, dy);
      if !AllCoordinates(ps) then Err(InvalidInput)
      else Ok(d.(doc := d.doc.(objects := d.doc.objects[index := o.(points := ps)])))
    else if !Coordinate(o.x + dx) || !Coordinate(o.y + dy) then Err(InvalidInput)
    else Ok(d.(doc := d.doc.(objects := d.doc.objects[index := o.(x := o.x + dx, y := o.y + dy)])))
  }

  function MoveEach(indices: seq<nat>, dx: real, dy: real, d: Draft): Result<Draft, Error>
    requires forall k :: 0 <= k < |indices| ==> indices[k] < |d.doc.objects|
  {
    if indices == [] then Ok(d)
    else
      match MoveAt(indices[0], dx, dy, d)
      case Err(e) => Err(e)
      case Ok(next) => MoveEach(indices[1..], dx, dy, next)
  }

  /** The objects whose index is not listed, and the points that go with the others. */
  function Keep(objects: seq<Object>, drop: seq<nat>): seq<Object> {
    if objects == [] then []
    else
      var n := |objects| - 1;
      Keep(objects[..n], drop) + if n in drop then [] else [objects[n]]
  }

  function DroppedPoints(objects: seq<Object>, drop: seq<nat>): nat {
    if objects == [] then 0
    else
      var n := |objects| - 1;
      DroppedPoints(objects[..n], drop) + if n in drop then |objects[n].points| else 0
  }

  /** Where the agent goes: to a place, or by a distance, but not both. */
  function AgentTarget(
    a: Agent, x: Option<real>, y: Option<real>, byX: Option<real>, byY: Option<real>): Option<Point>
  {
    var absolute, relative := x.Some? || y.Some?, byX.Some? || byY.Some?;
    if absolute == relative then None
    else if relative && !(Coordinate(Or(byX, 0.0)) && Coordinate(Or(byY, 0.0))) then None
    else
      var p := if absolute then Point(Or(x, a.x), Or(y, a.y)) else Point(a.x + Or(byX, 0.0), a.y + Or(byY, 0.0));
      if Coordinate(p.x) && Coordinate(p.y) then Some(p) else None
  }

  function PathInput(from: Point, to: Point, color: string, width: real): ObjectInput {
    ObjectInput(None, Some(Path), None, None, None, None, Some(color), None, Some(width), None, Some([from, to]), None,
      None)
  }

  function MoveAgent(h: Host, p: Point, generated: string, d: Draft): Result<Draft, Error> {
    var a := d.doc.agent;
    if p.x == a.x && p.y == a.y then Ok(d)
    else
      match (if a.penDown then AddObject(PathInput(Point(a.x, a.y), p, a.color, a.width), generated, d) else Ok(d))
      case Err(e) => Err(e)
      case Ok(drawn) =>
        var heading := h.direction(p.y - a.y, p.x - a.x);
        if !Coordinate(heading) then Err(InvalidInput)
        else Ok(drawn.(doc := drawn.doc.(agent := a.(x := p.x, y := p.y, heading := Angle(heading)))))
  }

  function FindReaction(reactions: seq<Reaction>, emoji: string, author: string): (i: nat)
    ensures i <= |reactions|
    ensures i < |reactions| ==> reactions[i].emoji == emoji && reactions[i].author == author
    ensures forall k :: 0 <= k < i ==> (reactions[k].emoji, reactions[k].author) != (emoji, author)
  {
    if reactions == [] || (reactions[0].emoji == emoji && reactions[0].author == author) then 0
    else 1 + FindReaction(reactions[1..], emoji, author)
  }

  function ToggleReaction(h: Host, emoji: string, author: string, now: string, doc: Document): Result<Document, Error> {
    if emoji !in REACTIONS || |author| > 100 then Err(InvalidInput)
    else
      var i := FindReaction(doc.reactions, emoji, author);
      if i < |doc.reactions| then Ok(doc.(reactions := doc.reactions[..i] + doc.reactions[i + 1..]))
      else if |doc.reactions| >= MAX_REACTIONS
              || !NormalReaction(h, Reaction(emoji, author, now)) then Err(InvalidInput)
      else Ok(doc.(reactions := doc.reactions + [Reaction(emoji, author, now)]))
  }

  function FrameOverlay(f: Frame, c: FrameChanges): FrameInput {
    var i := FrameAsInput(f);
    FrameInput(i.id, Over(c.title, i.title), Over(c.description, i.description), Over(c.x, i.x), Over(c.y, i.y),
               Over(c.width, i.width), Over(c.height, i.height))
  }

  // ---------- quoting ----------

  function FindEntry(entries: seq<Entry>, hash: string): (i: nat)
    ensures i <= |entries|
    ensures i < |entries| ==> entries[i].sourceHash == hash
    ensures forall k :: 0 <= k < i ==> entries[k].sourceHash != hash
  {
    if entries == [] || entries[0].sourceHash == hash then 0 else 1 + FindEntry(entries[1..], hash)
  }

  predicate Conflict(existing: Entry, entry: Entry) {
    || existing.title != entry.title || existing.author != entry.author || existing.createdAt != entry.createdAt
    || existing.snapshot != entry.snapshot
  }

  /** Entries already present are kept; new ones follow in order; a conflicting one is an error. */
  function MergeEntries(base: seq<Entry>, incoming: seq<Entry>): Result<seq<Entry>, Error>
    decreases |incoming|
  {
    if incoming == [] then Ok(base)
    else
      var i := FindEntry(base, incoming[0].sourceHash);
      if i == |base| then MergeEntries(base + [incoming[0]], incoming[1..])
      else if Conflict(base[i], incoming[0]) then Err(SourceHashMismatch)
      else MergeEntries(base, incoming[1..])
  }

  predicate HasSnapshot(entries: seq<Entry>, hash: string) {
    var i := FindEntry(entries, hash);
    i < |entries| && entries[i].snapshot.Some?
  }

  predicate AncestorsPresent(entries: seq<Entry>) {
    forall i, j ::
      0 <= i < |entries| && entries[i].snapshot.Some? && 0 <= j < |entries[i].snapshot.value.provenance| ==>
        HasSnapshot(entries, entries[i].snapshot.value.provenance[j].sourceHash)
  }

  /** The draft whose only content is the quoted sources, as it is validated first. */
  function SourcesOnly(doc: Document, provenance: seq<Entry>): Document {
    doc.(objects := [], reactions := [], frames := [], provenance := provenance)
  }

  function QuoteSources(h: Host, provenance: seq<Entry>, doc: Document): Result<Document, Error> {
    match Validate(h, SourcesOnly(doc, provenance))
    case Err(e) => Err(e)
    case Ok(n) =>
      var incoming := n.provenance;
      if incoming == [] || exists i :: 0 <= i < |incoming| && incoming[i].snapshot.None? then Err(InvalidInput)
      else
        match MergeEntries(doc.provenance, incoming)
        case Err(e) => Err(e)
        case Ok(merged) =>
          if |merged| > MAX_PROVENANCE then Err(InvalidInput)
          else if !AncestorsPresent(merged) then Err(SourceNotFound)
          else Ok(doc.(provenance := merged))
  }

  // ---------- commands ----------

  /** One command on a draft, at a nesting depth. */
  function Run(h: Host, c: Command, before: Draft, depth: nat): Result<Draft, Error>
    decreases c
  {
    var d := before.(commandCount := before.commandCount + 1);
    var doc := d.doc;
    if d.commandCount > MAX_COMMANDS || depth > MAX_DEPTH then Err(InvalidInput)
    else
      match c
      case Create(input, generated) => AddObject(input, generated, d)
      case Update(ids, changes) =>
        if changes.unsupported then Err(InvalidInput)
        else
          (match IndexFor(doc.objects, ids)
           case Err(e) => Err(e)
           case Ok(indices) => UpdateEach(indices, changes, d))
      case Delete(ids) =>
        (match IndexFor(doc.objects, ids)
         case Err(e) => Err(e)
         case Ok(indices) =>
           Ok(d.(doc := doc.(objects := Keep(doc.objects, indices)),
             totalPoints := d.totalPoints - DroppedPoints(doc.objects, indices))))
      case Move(ids, dx, dy) =>
        if !Coordinate(dx) || !Coordinate(dy) then Err(InvalidInput)
        else
          (match IndexFor(doc.objects, ids)
           case Err(e) => Err(e)
           case Ok(indices) => MoveEach(indices, dx, dy, d))
      case AgentMove(x, y, byX, byY, generated) =>
        (match AgentTarget(doc.agent, x, y, byX, byY)
         case None => Err(InvalidInput)
         case Some(p) => MoveAgent(h, p, generated, d))
      case AgentTurn(angle) =>
        if !Coordinate(angle) then Err(InvalidInput)
        else Ok(d.(doc := doc.(agent := doc.agent.(heading := Angle(angle)))))
      case AgentPen(down, color, width) =>
        if (color.Some? && !Color(color.value))
          || (width.Some? && !InRange(width.value, 0.1, 256.0)) then Err(InvalidInput)
        else Ok(d.(doc := doc.(agent := doc.agent.(penDown := down, color := Or(color, doc.agent.color),
             width := Or(width, doc.agent.width)))))
      case Batch(commands) =>
        if |commands| > MAX_COMMANDS then Err(InvalidInput) else RunAll(h, commands, d, depth + 1)
      case ReactionToggle(emoji, author, now) =>
        (match ToggleReaction(h, emoji, Or(author, doc.author), now, doc)
         case Err(e) => Err(e)
         case Ok(next) => Ok(d.(doc := next)))
      case FrameAdd(frame, generated) => AddFrame(frame, generated, d)
      case FrameUpdate(id, changes) =>
        if !Identifier(id) then Err(InvalidInput)
        else
          var i := FindFrame(doc.frames, id);
          if i == |doc.frames| then Err(NotFound)
          else if changes.unsupported then Err(InvalidInput)
          else
            (match NormalizeFrame(FrameOverlay(doc.frames[i], changes), None)
             case Err(e) => Err(e)
             case Ok(f) => Ok(d.(doc := doc.(frames := doc.frames[i := f]))))
      case FrameDelete(id) =>
        if !Identifier(id) then Err(InvalidInput)
        else
          var i := FindFrame(doc.frames, id);
          if i == |doc.frames| then Err(NotFound)
          else Ok(d.(doc := doc.(frames := doc.frames[..i] + doc.frames[i + 1..])))
      case Quote(provenance, objects, frames) =>
        (match QuoteSources(h, provenance, doc)
         case Err(e) => Err(e)
         case Ok(quoted) =>
           if |objects| > MAX_OBJECTS then Err(InvalidInput)
           else
             match AddObjects(objects, d.(doc := quoted))
             case Err(e) => Err(e)
             case Ok(filled) => if |frames| > MAX_FRAMES then Err(InvalidInput) else AddFrames(frames, filled))
      case Metadata(title, author) =>
        if (title.Some? && |title.value| > 200) || (author.Some? && |author.value| > 100) then Err(InvalidInput)
        else Ok(d.(doc := doc.(title := Or(title, doc.title), author := Or(author, doc.author))))
      case Clear => Ok(d.(doc := doc.(objects := []), totalPoints := 0))
      case Unsupported => Err(InvalidInput)
  }

  function RunAll(h: Host, commands: seq<Command>, d: Draft, depth: nat): Result<Draft, Error>
    decreases commands
  {
    if commands == [] then Ok(d)
    else
      match Run(h, commands[0], d, depth)
      case Err(e) => Err(e)
      case Ok(next) => RunAll(h, commands[1..], next, depth)
  }
}
