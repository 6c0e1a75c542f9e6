/**
 Boards: the document, its limits, and the normalization every document passes through.
 Coordinates are exact numbers; whatever the host platform decides (text sizes, date and
 URL parsing, angles, digests) is a field of Host.
 */
module BoardDocument {
  import opened Basics

  const MAX_OBJECTS := 3000
  const MAX_POINTS := 100000
  const MAX_BYTES := 3 * 1024 * 1024
  const MAX_COORDINATE := 1000000.0
  const MAX_PROVENANCE := 64
  const MAX_FRAMES := 30
  const MAX_REACTIONS := 256
  const MAX_SAFE_INTEGER := 9007199254740991

  const REACTIONS: seq<string> := ["👍", "❤️", "✨", "💡", "👏", "❓"]

  datatype Error =
    | InvalidInput | NotFound | ReadOnly | SnapshotTooLarge | SourceNotFound | SourceHashMismatch | InvalidSnapshot
    | CompressionUnavailable

  datatype Kind = Path | Rect | Ellipse | Line | Text | Note | Bubble

  datatype Point = Point(x: real, y: real)

  /** Points are held by paths only, text and font size by texts and cards only. */
  datatype Object = Object(
    id: string, kind: Kind, x: real, y: real, width: real, height: real, stroke: string, fill: string,
    strokeWidth: real, rotation: real, points: seq<Point>, text: string, fontSize: real)

  /** An object as a caller supplies it: any field may be missing, and kind None is an unsupported type. */
  datatype ObjectInput = ObjectInput(
    id: Option<string>, kind: Option<Kind>, x: Option<real>, y: Option<real>, width: Option<real>, height: Option<real>,
    stroke: Option<string>, fill: Option<string>, strokeWidth: Option<real>, rotation: Option<real>,
    points: Option<seq<Point>>, text: Option<string>, fontSize: Option<real>)

  datatype Frame = Frame(id: string, title: string, description: string, x: real, y: real, width: real, height: real)

  datatype FrameInput = FrameInput(
    id: Option<string>, title: Option<string>, description: Option<string>,
    x: Option<real>, y: Option<real>, width: Option<real>, height: Option<real>)

  datatype Reaction = Reaction(emoji: string, author: string, createdAt: string)

  datatype Agent = Agent(x: real, y: real, heading: real, penDown: bool, color: string, width: real)

  /** A quoted source: its metadata and, unless it is metadata only, its flattened document. */
  datatype Entry = Entry(
    sourceHash: string, title: string, author: string, createdAt: string, sourceURL: string, snapshot: Option<Document>)

  datatype Document = Document(
    id: string, title: string, author: string, revision: int, createdAt: string, updatedAt: string,
    objects: seq<Object>, reactions: seq<Reaction>, frames: seq<Frame>, agent: Agent, provenance: seq<Entry>)

  /** What the platform decides: encoded size, date and URL parsing, direction in degrees, digests, frame selection. */
  datatype Host = Host(
    bytes: Document -> nat,
    dateParses: string -> bool,
    href: string -> Option<string>,
    direction: (real, real) -> real,
    digest: Document -> string,
    encloses: (seq<Object>, Frame) -> bool)

  // ---------- field checks ----------

  predicate InRange(v: real, low: real, high: real) { low <= v <= high }

  predicate Coordinate(v: real) { InRange(v, -MAX_COORDINATE, MAX_COORDINATE) }

  predicate IsDigit(c: char) { '0' <= c <= '9' }

  predicate IsLetter(c: char) { 'a' <= c <= 'z' || 'A' <= c <= 'Z' }

  predicate IsHex(c: char) { IsDigit(c) || 'a' <= c <= 'f' || 'A' <= c <= 'F' }

  predicate Identifier(s: string) {
    1 <= |s| <= 100 && forall i :: 0 <= i < |s| ==> IsLetter(s[i]) || IsDigit(s[i]) || s[i] == '_' || s[i] == '-'
  }

  predicate IsSpace(c: char) {
    || '\t' <= c <= '\r' || c == ' ' || c == '\U{A0}' || c == '\U{1680}' || '\U{2000}' <= c <= '\U{200A}'
    || c == '\U{2028}' || c == '\U{2029}' || c == '\U{202F}' || c == '\U{205F}' || c == '\U{3000}' || c == '\U{FEFF}'
  }

  function LowerLetter(c: char): char { if 'A' <= c <= 'Z' then c - 'A' + 'a' else c }

  function Lower(s: string): (r: string)
    ensures |r| == |s| && forall i :: 0 <= i < |s| ==> r[i] == LowerLetter(s[i])
  {
    seq(|s|, i requires 0 <= i < |s| => LowerLetter(s[i]))
  }

  predicate ColorFunction(s: string, name: string) {
    && |s| >= |name| + 3 && name <= s && s[|name|] == '(' && s[|s| - 1] == ')'
    && forall i :: |name| < i < |s| - 1 ==> IsDigit(s[i]) || IsSpace(s[i]) || s[i] in ".,%/+-"
  }

  /** A CSS colour: hexadecimal digits, a name, or one of the four colour functions. */
  predicate Color(text: string) {
    var s := Lower(text);
    && |text| <= 100
    && (|| (|s| in {4, 5, 7, 9} && s[0] == '#' && forall i :: 1 <= i < |s| ==> IsHex(s[i]))
        || (1 <= |s| <= 25 && forall i :: 0 <= i < |s| ==> 'a' <= s[i] <= 'z')
        || ColorFunction(s, "rgb") || ColorFunction(s, "rgba") || ColorFunction(s, "hsl") || ColorFunction(s, "hsla"))
  }

  predicate Timestamp(h: Host, s: string) {
    && 11 <= |s| <= 40 && s[4] == '-' && s[7] == '-' && s[10] == 'T'
    && (forall i :: 0 <= i < 10 && i != 4 && i != 7 ==> IsDigit(s[i]))
    && h.dateParses(s)
  }

  predicate Digest(s: string) { |s| == 64 && forall i :: 0 <= i < 64 ==> IsDigit(s[i]) || 'a' <= s[i] <= 'f' }

  /** `((v % 360) + 360) % 360`. */
  function Angle(v: real): real { v - 360.0 * (v / 360.0).Floor as real }

  lemma AngleInRange(v: real)
    ensures 0.0 <= Angle(v) < 360.0
    ensures 0.0 <= v < 360.0 ==> Angle(v) == v
  {
    var q := (v / 360.0).Floor;
    assert q as real <= v / 360.0 < q as real + 1.0;
    if 0.0 <= v < 360.0 { assert q == 0; }
  }

  function CompactURL(h: Host, url: string): Result<string, Error> {
    if |url| > 4 * MAX_BYTES then Err(InvalidInput)
    else if url == "" then Ok("")
    else
      match h.href(url)
      case None => Err(InvalidInput)
      case Some(u) => if |u| > 2048 then Err(InvalidInput) else Ok(u)
  }

  // ---------- objects ----------

  function Or<T>(o: Option<T>, default: T): T { if o.Some? then o.value else default }

  function Least(ps: seq<Point>, vertical: bool): real
    requires ps != []
  {
    var v := if vertical then ps[0].y else ps[0].x;
    if |ps| == 1 then v else if v < Least(ps[1..], vertical) then v else Least(ps[1..], vertical)
  }

  function Greatest(ps: seq<Point>, vertical: bool): real
    requires ps != []
  {
    var v := if vertical then ps[0].y else ps[0].x;
    if |ps| == 1 then v else if v > Greatest(ps[1..], vertical) then v else Greatest(ps[1..], vertical)
  }

  function Extent(ps: seq<Point>, vertical: bool): (e: real)
    requires ps != []
  {
    Greatest(ps, vertical) - Least(ps, vertical)
  }

  predicate IsCard(k: Kind) { k == Note || k == Bubble }

  predicate HasText(k: Kind) { k == Text || IsCard(k) }

  predicate PointsOk(ps: seq<Point>) {
    1 <= |ps| <= MAX_POINTS && forall i :: 0 <= i < |ps| ==> Coordinate(ps[i].x) && Coordinate(ps[i].y)
  }

  /** The input with defaults for what it leaves out, except what only some kinds hold. */
  function Filled(input: ObjectInput, kind: Kind, id: string): Object {
    Object(id, kind, Or(input.x, 0.0), Or(input.y, 0.0),
           Or(input.width, if IsCard(kind) then 220.0 else 0.0), Or(input.height, if IsCard(kind) then 140.0 else 0.0),
           Or(input.stroke, "#1f2937"), Or(input.fill, "transparent"), Or(input.strokeWidth, 3.0),
             Or(input.rotation, 0.0),
           [], "", 0.0)
  }

  function LeastSize(kind: Kind): real { if kind == Line then -MAX_COORDINATE else if IsCard(kind) then 1.0 else 0.0 }

  predicate FieldsOk(o: Object) {
    && Identifier(o.id) && Coordinate(o.x) && Coordinate(o.y)
    && InRange(o.width, LeastSize(o.kind), MAX_COORDINATE) && InRange(o.height, LeastSize(o.kind), MAX_COORDINATE)
    && Color(o.stroke) && Color(o.fill) && InRange(o.strokeWidth, 0.0, 256.0) && Coordinate(o.rotation)
  }

  /** A path lies where its points do. */
  function WithPoints(o: Object, points: Option<seq<Point>>): Result<Object, Error> {
    if points.None? || !PointsOk(points.value) then Err(InvalidInput)
    else
      var width, height := Extent(points.value, false), Extent(points.value, true);
      if width > MAX_COORDINATE || height > MAX_COORDINATE then Err(InvalidInput)
      else Ok(o.(x := 0.0, y := 0.0, width := width, height := height, points := points.value))
  }

  function WithText(o: Object, text: string, fontSize: real): Result<Object, Error> {
    if |text| > 10000 || !InRange(fontSize, 1.0, 512.0) then Err(InvalidInput)
      else Ok(o.(text := text, fontSize := fontSize))
  }

  /** What only some kinds hold. */
  function Completed(o: Object, input: ObjectInput): Result<Object, Error> {
    if o.kind == Path then WithPoints(o, input.points)
    else if HasText(o.kind) then WithText(o, Or(input.text, ""), Or(input.fontSize, 24.0))
    else Ok(o)
  }

  /** The checks and defaults of one object; a missing id is filled by a generated one when creating. */
  function NormalizeObject(input: ObjectInput, generated: Option<string>): Result<Object, Error> {
    var id := if input.id.Some? then input.id else generated;
    if input.kind.None? || id.None? then Err(InvalidInput)
    else
      var o := Filled(input, input.kind.value, id.value);
      if !FieldsOk(o) then Err(InvalidInput) else Completed(o.(rotation := Angle(o.rotation)), input)
  }

  /** An object read back as input. */
  function AsInput(o: Object): ObjectInput {
    ObjectInput(Some(o.id), Some(o.kind), Some(o.x), Some(o.y), Some(o.width), Some(o.height), Some(o.stroke),
      Some(o.fill),
                Some(o.strokeWidth), Some(o.rotation), if o.kind == Path then Some(o.points) else None,
                if HasText(o.kind) then Some(o.text) else None, if HasText(o.kind) then Some(o.fontSize) else None)
  }

  /** An object that normalization leaves as it is. */
  ghost predicate NormalObject(o: Object) { NormalizeObject(AsInput(o), None) == Ok(o) }

  lemma {:induction false} ExtentNonNegative(ps: seq<Point>, vertical: bool)
    requires ps != []
    ensures Extent(ps, vertical) >= 0.0
  {
    if |ps| > 1 { ExtentNonNegative(ps[1..], vertical); }
  }

  lemma ObjectNormalized(input: ObjectInput, generated: Option<string>, o: Object)
    requires NormalizeObject(input, generated) == Ok(o)
    ensures NormalObject(o)
    ensures input.id.Some? ==> o.id == input.id.value
    ensures input.id.None? ==> generated.Some? && o.id == generated.value
  {
    hide Color, Identifier, Angle, Extent;
    AngleInRange(Or(input.rotation, 0.0));
    AngleInRange(o.rotation);
    if o.kind == Path {
      ExtentNonNegative(o.points, false);
      ExtentNonNegative(o.points, true);
    }
  }

  function PointSum(objects: seq<Object>): nat {
    if objects == [] then 0 else PointSum(objects[..|objects| - 1]) + |objects[|objects| - 1].points|
  }

  function NormalizeObjects(objects: seq<Object>): Result<seq<Object>, Error> {
    if objects == [] then Ok([])
    else
      match NormalizeObjects(objects[..|objects| - 1])
      case Err(e) => Err(e)
      case Ok(before) =>
        match NormalizeObject(AsInput(objects[|objects| - 1]), None)
        case Err(e) => Err(e)
        case Ok(o) => Ok(before + [o])
  }

  // ---------- frames, reactions, agent ----------

  function NormalizeFrame(input: FrameInput, generated: Option<string>): Result<Frame, Error> {
    var id := if input.id.Some? then input.id else generated;
    var title, description := Or(input.title, "Untitled frame"), Or(input.description, "");
    if id.None? || !Identifier(id.value) || |title| > 200 || |description| > 2000
       || input.x.None? || !Coordinate(input.x.value) || input.y.None? || !Coordinate(input.y.value)
       || input.width.None? || !InRange(input.width.value, 1.0, MAX_COORDINATE)
       || input.height.None? || !InRange(input.height.value, 1.0, MAX_COORDINATE) then Err(InvalidInput)
    else Ok(Frame(id.value, title, description, input.x.value, input.y.value, input.width.value, input.height.value))
  }

  function FrameAsInput(f: Frame): FrameInput {
    FrameInput(Some(f.id), Some(f.title), Some(f.description), Some(f.x), Some(f.y), Some(f.width), Some(f.height))
  }

  predicate NormalFrame(f: Frame) { NormalizeFrame(FrameAsInput(f), None) == Ok(f) }

  predicate NormalReaction(h: Host, r: Reaction) {
    r.emoji in REACTIONS && |r.author| <= 100 && Timestamp(h, r.createdAt)
  }

  predicate AgentOk(a: Agent) {
    && Coordinate(a.x) && Coordinate(a.y) && Coordinate(a.heading) && Color(a.color) && InRange(a.width, 0.1, 256.0)
  }

  predicate NormalAgent(a: Agent) { AgentOk(a) && 0.0 <= a.heading < 360.0 }

  predicate HeaderOk(h: Host, d: Document) {
    && Identifier(d.id) && |d.title| <= 200 && |d.author| <= 100 && 0 <= d.revision <= MAX_SAFE_INTEGER
    && Timestamp(h, d.createdAt) && Timestamp(h, d.updatedAt)
  }

  predicate DistinctObjects(objects: seq<Object>) {
    forall i, j :: 0 <= i < j < |objects| ==> objects[i].id != objects[j].id
  }

  predicate DistinctFrames(frames: seq<Frame>) {
    forall i, j :: 0 <= i < j < |frames| ==> frames[i].id != frames[j].id
  }

  predicate DistinctReactions(reactions: seq<Reaction>) {
    forall i, j :: 0 <= i < j < |reactions| ==>
      (reactions[i].emoji, reactions[i].author) != (reactions[j].emoji, reactions[j].author)
  }

  predicate DistinctEntries(entries: seq<Entry>) {
    forall i, j :: 0 <= i < j < |entries| ==> entries[i].sourceHash != entries[j].sourceHash
  }

  // ---------- documents ----------

  function NormalizeEntry(h: Host, e: Entry, allowSnapshot: bool): Result<Entry, Error>
    decreases e
  {
    if !Digest(e.sourceHash) || |e.title| > 200 || |e.author| > 100 || !Timestamp(h, e.createdAt) then Err(InvalidInput)
    else
      match CompactURL(h, e.sourceURL)
      case Err(error) => Err(error)
      case Ok(url) =>
        match e.snapshot
        case None => Ok(e.(sourceURL := url))
        case Some(d) =>
          if !allowSnapshot then Err(InvalidInput)
          else
            match NormalizeDocument(h, d, false)
            case Err(error) => Err(error)
            case Ok(n) => Ok(e.(sourceURL := url, snapshot := Some(n)))
  }

  function NormalizeEntries(h: Host, entries: seq<Entry>, allowSnapshots: bool): Result<seq<Entry>, Error>
    decreases entries
  {
    if entries == [] then Ok([])
    else
      match NormalizeEntry(h, entries[0], allowSnapshots)
      case Err(error) => Err(error)
      case Ok(e) =>
        match NormalizeEntries(h, entries[1..], allowSnapshots)
        case Err(error) => Err(error)
        case Ok(rest) => Ok([e] + rest)
  }

  /** The checks that need no other document. */
  predicate PartsOk(h: Host, d: Document, objects: seq<Object>) {
    && DistinctObjects(objects) && PointSum(objects) <= MAX_POINTS && |d.provenance| <= MAX_PROVENANCE && HeaderOk(h, d)
    && |d.reactions| <= MAX_REACTIONS && (forall i :: 0 <= i < |d.reactions| ==> NormalReaction(h, d.reactions[i]))
    && |d.frames| <= MAX_FRAMES && (forall i :: 0 <= i < |d.frames| ==> NormalFrame(d.frames[i]))
    && DistinctFrames(d.frames) && AgentOk(d.agent)
  }

  /** Everything validation does, except the size limit. */
  function CheckDocument(h: Host, d: Document, allowSnapshots: bool): Result<Document, Error>
    decreases d, 0
  {
    if |d.objects| > MAX_OBJECTS then Err(InvalidInput)
    else
      match NormalizeObjects(d.objects)
      case Err(error) => Err(error)
      case Ok(objects) =>
        if !PartsOk(h, d, objects) then Err(InvalidInput)
        else
          match NormalizeEntries(h, d.provenance, allowSnapshots)
          case Err(error) => Err(error)
          case Ok(entries) =>
            if !DistinctReactions(d.reactions) || !DistinctEntries(entries) then Err(InvalidInput)
            else Ok(d.(objects := objects, agent := d.agent.(heading := Angle(d.agent.heading)), provenance := entries))
  }

  function NormalizeDocument(h: Host, d: Document, allowSnapshots: bool): Result<Document, Error>
    decreases d, 1
  {
    match CheckDocument(h, d, allowSnapshots)
    case Err(error) => Err(error)
    case Ok(n) => if h.bytes(n) > MAX_BYTES then Err(SnapshotTooLarge) else Ok(n)
  }

  /** `validateDocument`. */
  function Validate(h: Host, d: Document): Result<Document, Error> { NormalizeDocument(h, d, true) }

  ghost predicate NormalEntry(h: Host, e: Entry, allowSnapshot: bool) { NormalizeEntry(h, e, allowSnapshot) == Ok(e) }

  /** Every condition of a valid document except its own size. */
  ghost predicate Sound(h: Host, d: Document, allowSnapshots: bool) {
    && |d.objects| <= MAX_OBJECTS
       && (forall i {:trigger NormalObject(d.objects[i])} :: 0 <= i < |d.objects| ==> NormalObject(d.objects[i]))
    && DistinctObjects(d.objects) && PointSum(d.objects) <= MAX_POINTS
    && HeaderOk(h, d)
    && |d.reactions| <= MAX_REACTIONS
    && (forall i {:trigger NormalReaction(h, d.reactions[i])} ::
        0 <= i < |d.reactions| ==> NormalReaction(h, d.reactions[i]))
    && DistinctReactions(d.reactions)
    && |d.frames| <= MAX_FRAMES && DistinctFrames(d.frames)
    && (forall i {:trigger NormalFrame(d.frames[i])} :: 0 <= i < |d.frames| ==> NormalFrame(d.frames[i]))
    && NormalAgent(d.agent)
    && |d.provenance| <= MAX_PROVENANCE
    && (forall i {:trigger NormalEntry(h, d.provenance[i], allowSnapshots)} ::
          0 <= i < |d.provenance| ==> NormalEntry(h, d.provenance[i], allowSnapshots))
    && DistinctEntries(d.provenance)
  }

  /** URL compaction settles after one pass. */
  ghost predicate StableURLs(h: Host) {
    forall s :: h.href(s).Some? ==> h.href(s).value != "" && h.href(h.href(s).value) == h.href(s)
  }

  lemma {:induction false} ObjectsNormalized(objects: seq<Object>)
    ensures NormalizeObjects(objects).Ok? ==>
              var n := NormalizeObjects(objects).value;
                |n| == |objects| && forall i :: 0 <= i < |n| ==> NormalObject(n[i])
  {
    hide NormalObject;
    if objects != [] {
      var k := |objects| - 1;
      ObjectsNormalized(objects[..k]);
      match NormalizeObject(AsInput(objects[k]), None) {
        case Err(_) =>
        case Ok(o) => ObjectNormalized(AsInput(objects[k]), None, o);
      }
    }
  }

  lemma {:induction false} NormalObjectsKept(objects: seq<Object>)
    requires forall i :: 0 <= i < |objects| ==> NormalObject(objects[i])
    ensures NormalizeObjects(objects) == Ok(objects)
  {
    hide NormalizeObject;
    if objects != [] {
      var k := |objects| - 1;
      assert NormalObject(objects[k]);
      NormalObjectsKept(objects[..k]);
      assert objects == objects[..k] + [objects[k]];
    }
  }

  lemma URLNormalized(h: Host, url: string)
    requires StableURLs(h) && CompactURL(h, url).Ok?
    ensures CompactURL(h, CompactURL(h, url).value) == CompactURL(h, url)
  {
    if url != "" { assert h.href(h.href(url).value) == h.href(url); }
  }

  lemma {:induction false} EntryNormalized(h: Host, e: Entry, allow: bool)
    requires StableURLs(h)
    ensures NormalizeEntry(h, e, allow).Ok? ==> NormalEntry(h, NormalizeEntry(h, e, allow).value, allow)
    decreases e
  {
    if NormalizeEntry(h, e, allow).Ok? {
      URLNormalized(h, e.sourceURL);
      if e.snapshot.Some? { DocumentNormalized(h, e.snapshot.value, false); }
    }
  }

  lemma {:induction false} EntriesNormalized(h: Host, entries: seq<Entry>, allow: bool)
    requires StableURLs(h)
    ensures NormalizeEntries(h, entries, allow).Ok? ==>
              var n := NormalizeEntries(h, entries, allow).value;
              |n| == |entries| &&
              forall i ::
                0 <= i < |n| ==> NormalEntry(h, n[i], allow) && NormalizeEntry(h, entries[i], allow) == Ok(n[i])
    decreases entries
  {
    if entries != [] {
      EntryNormalized(h, entries[0], allow);
      EntriesNormalized(h, entries[1..], allow);
      if NormalizeEntries(h, entries, allow).Ok? {
        var n := NormalizeEntries(h, entries, allow).value;
        forall i | 0 <= i < |n|
          ensures NormalEntry(h, n[i], allow) && NormalizeEntry(h, entries[i], allow) == Ok(n[i])
        {
          if i > 0 { assert n[i] == n[1..][i - 1] && entries[i] == entries[1..][i - 1]; }
        }
      }
    }
  }

  lemma {:induction false} NormalEntriesKept(h: Host, entries: seq<Entry>, allow: bool)
    requires forall i :: 0 <= i < |entries| ==> NormalEntry(h, entries[i], allow)
    ensures NormalizeEntries(h, entries, allow) == Ok(entries)
  {
    if entries != [] {
      assert NormalEntry(h, entries[0], allow);
      NormalEntriesKept(h, entries[1..], allow);
      assert entries == [entries[0]] + entries[1..];
    }
  }

  /** A sound document is unchanged by the checks. */
  lemma SoundIsChecked(h: Host, d: Document, allow: bool)
    requires Sound(h, d, allow)
    ensures CheckDocument(h, d, allow) == Ok(d)
  {
    NormalObjectsKept(d.objects);
    NormalEntriesKept(h, d.provenance, allow);
    AngleInRange(d.agent.heading);
  }

  /** What the checks return is sound. */
  lemma {:induction false} CheckedIsSound(h: Host, d: Document, allow: bool)
    requires StableURLs(h)
    ensures CheckDocument(h, d, allow).Ok? ==> Sound(h, CheckDocument(h, d, allow).value, allow)
    decreases d, 0
  {
    if CheckDocument(h, d, allow).Ok? {
      ObjectsNormalized(d.objects);
      EntriesNormalized(h, d.provenance, allow);
      AngleInRange(d.agent.heading);
    }
  }

  /** Validation is idempotent. */
  lemma {:induction false} DocumentNormalized(h: Host, d: Document, allow: bool)
    requires StableURLs(h)
    ensures NormalizeDocument(h, d, allow).Ok? ==>
              var n := NormalizeDocument(h, d, allow).value;
              Sound(h, n, allow) && h.bytes(n) <= MAX_BYTES && NormalizeDocument(h, n, allow) == Ok(n)
    decreases d, 1
  {
    CheckedIsSound(h, d, allow);
    if NormalizeDocument(h, d, allow).Ok? { SoundIsChecked(h, CheckDocument(h, d, allow).value, allow); }
  }

  // ---------- header ----------

  /** The document without the two fields every step renews. */
  function Content(d: Document): Document { d.(revision := 0, updatedAt := "") }

  function Stamped(d: Document, revision: int, updatedAt: string): Document {
    d.(revision := revision, updatedAt := updatedAt)
  }

  lemma StampedSound(h: Host, d: Document, revision: int, updatedAt: string)
    requires Sound(h, d, true) && 0 <= revision <= MAX_SAFE_INTEGER && Timestamp(h, updatedAt)
    ensures Sound(h, Stamped(d, revision, updatedAt), true)
  {}
}
