/**
 Provenance: quoted sources are bundled as flat snapshots, from which any ancestor is
 rebuilt. Digests are only assumed not to collide on the documents at hand.
 */
module BoardShare {
  import opened Basics
  import opened BoardDocument
  import opened BoardCommands
  import opened BoardValidity
  import opened BoardHistory

  // ---------- flattening and digests ----------

  function Bare(e: Entry): Entry { e.(snapshot := None) }

  function BareAll(entries: seq<Entry>): (r: seq<Entry>)
    ensures |r| == |entries| && forall i :: 0 <= i < |r| ==> r[i] == Bare(entries[i])
  {
    if entries == [] then [] else [Bare(entries[0])] + BareAll(entries[1..])
  }

  /** The document with its sources reduced to metadata. */
  function Flat(d: Document): Document { d.(provenance := BareAll(d.provenance)) }

  /** `metadataOnly`: drops the payload and compacts the URL once more. */
  function MetadataOnly(h: Host, entries: seq<Entry>): Result<seq<Entry>, Error> {
    if entries == [] then Ok([])
    else
      match CompactURL(h, entries[0].sourceURL)
      case Err(e) => Err(e)
      case Ok(url) =>
        match MetadataOnly(h, entries[1..])
        case Err(e) => Err(e)
        case Ok(rest) => Ok([Bare(entries[0]).(sourceURL := url)] + rest)
  }

  function WithoutPayloads(h: Host, d: Document): Result<Document, Error> {
    match MetadataOnly(h, d.provenance)
    case Err(e) => Err(e)
    case Ok(entries) => Ok(d.(provenance := entries))
  }

  function SnapshotHash(h: Host, input: Document): Result<string, Error> {
    match Validate(h, input)
    case Err(e) => Err(e)
    case Ok(d) =>
      match WithoutPayloads(h, d)
      case Err(e) => Err(e)
      case Ok(flat) => Ok(h.digest(flat))
  }

  // ---------- resolving and verifying ----------

  function Attach(index: seq<Entry>, metadata: seq<Entry>): Result<seq<Entry>, Error> {
    if metadata == [] then Ok([])
    else
      var i := FindEntry(index, metadata[0].sourceHash);
      if i == |index| || index[i].snapshot.None? then Err(SourceNotFound)
      else
        match Attach(index, metadata[1..])
        case Err(e) => Err(e)
        case Ok(rest) => Ok([metadata[0].(snapshot := index[i].snapshot)] + rest)
  }

  /** Rebuilds a bundled source with the payloads of its own sources. */
  function ResolveSource(h: Host, input: Document, hash: string): Result<Document, Error> {
    match Validate(h, input)
    case Err(e) => Err(e)
    case Ok(d) =>
      var i := FindEntry(d.provenance, hash);
      if i == |d.provenance| || d.provenance[i].snapshot.None? then Err(SourceNotFound)
      else
        var source := d.provenance[i].snapshot.value;
        match Attach(d.provenance, source.provenance)
        case Err(e) => Err(e)
        case Ok(entries) => Validate(h, source.(provenance := entries))
  }

  function VerifyEntry(h: Host, index: seq<Entry>, e: Entry): Result<(), Error> {
    if e.snapshot.None? then Err(SourceNotFound)
    else
      var s := e.snapshot.value;
      match SnapshotHash(h, s)
      case Err(error) => Err(error)
      case Ok(hash) =>
        if hash != e.sourceHash || e.title != s.title || e.author != s.author
          || e.createdAt != s.createdAt then Err(SourceHashMismatch)
        else if exists j ::
                0 <= j < |s.provenance| && !HasSnapshot(index, s.provenance[j].sourceHash) then Err(SourceNotFound)
        else Ok(())
  }

  function VerifyEntries(h: Host, index: seq<Entry>, entries: seq<Entry>): Result<(), Error> {
    if entries == [] then Ok(())
    else
      match VerifyEntry(h, index, entries[0])
      case Err(e) => Err(e)
      case Ok(_) => VerifyEntries(h, index, entries[1..])
  }

  function VerifySources(h: Host, d: Document): Result<(), Error> { VerifyEntries(h, d.provenance, d.provenance) }

  // ---------- forking and quoting ----------

  datatype Selection = Selection(objects: seq<Object>, frames: seq<Frame>)

  /** Fresh ids by position. */
  datatype FreshIds = FreshIds(objectId: nat -> string, frameId: nat -> string)

  function Chosen(objects: seq<Object>, ids: seq<string>): seq<Object> {
    if objects == [] then []
    else (if objects[0].id in ids then [objects[0]] else []) + Chosen(objects[1..], ids)
  }

  function Enclosed(h: Host, objects: seq<Object>, frames: seq<Frame>): seq<Frame> {
    if frames == [] then []
    else (if h.encloses(objects, frames[0]) then [frames[0]] else []) + Enclosed(h, objects, frames[1..])
  }

  function Select(h: Host, source: Document, ids: Option<seq<string>>): Result<Selection, Error> {
    if ids.None? then Ok(Selection(source.objects, source.frames))
    else if |ids.value| > MAX_OBJECTS || exists i ::
            0 <= i < |ids.value| && Find(source.objects, ids.value[i]) == |source.objects| then
      Err(InvalidSnapshot)
    else
      var objects := Chosen(source.objects, ids.value);
      Ok(Selection(objects, if objects == [] then [] else Enclosed(h, objects, source.frames)))
  }

  function Placed(o: Object, id: string, dx: real, dy: real): Object {
    if o.kind == Path then o.(id := id, points := Shifted(o.points, dx, dy))
    else o.(id := id, x := o.x + dx, y := o.y + dy)
  }

  function PlacedObjects(objects: seq<Object>, ids: FreshIds, dx: real, dy: real): (r: seq<Object>)
    ensures |r| == |objects|
  {
    seq(|objects|, i requires 0 <= i < |objects| => Placed(objects[i], ids.objectId(i), dx, dy))
  }

  function PlacedFrames(frames: seq<Frame>, ids: FreshIds, dx: real, dy: real): (r: seq<Frame>)
    ensures |r| == |frames|
  {
    seq(|frames|, i
      requires 0 <= i < |frames| => frames[i].(id := ids.frameId(i), x := frames[i].x + dx, y := frames[i].y + dy))
  }

  function CopyContent(s: Selection, ids: FreshIds, dx: real, dy: real): Result<Selection, Error> {
    if !Coordinate(dx) || !Coordinate(dy) then Err(InvalidSnapshot)
    else Ok(Selection(PlacedObjects(s.objects, ids, dx, dy), PlacedFrames(s.frames, ids, dx, dy)))
  }

  function Except(entries: seq<Entry>, hash: string): seq<Entry> {
    if entries == [] then []
    else (if entries[0].sourceHash != hash then [entries[0]] else []) + Except(entries[1..], hash)
  }

  /** The source itself, flattened, followed by its own sources. */
  function SourceEntries(h: Host, source: Document, url: string): Result<seq<Entry>, Error> {
    match SnapshotHash(h, source)
    case Err(e) => Err(e)
    case Ok(hash) =>
      match CompactURL(h, url)
      case Err(e) => Err(e)
      case Ok(compact) =>
        match WithoutPayloads(h, source)
        case Err(e) => Err(e)
        case Ok(flat) =>
          Ok([Entry(hash, source.title, source.author, source.createdAt, compact, Some(flat))]
            + Except(source.provenance, hash))
  }

  function NewDocument(h: Host, id: string, title: string, author: string, now: string): Result<Document, Error> {
    Validate(h, Document(id, title, author, 0, now, now, [], [], [], Agent(160.0, 160.0, 0.0, false, "#2563eb", 4.0),
      []))
  }

  datatype ForkOptions = ForkOptions(
    author: Option<string>, title: Option<string>, selection: Option<seq<string>>, url: string, id: string, now: string,
      ids: FreshIds)

  function ForkTitle(source: Document, title: Option<string>): string {
    Or(title, source.title[..if |source.title| < 190 then |source.title| else 190] + " · fork")
  }

  /** The fork of a validated and verified source, before it is validated itself. */
  function ForkDraft(h: Host, source: Document, o: ForkOptions): Result<Document, Error> {
    match NewDocument(h, o.id, ForkTitle(source, o.title), Or(o.author, source.author), o.now)
    case Err(e) => Err(e)
    case Ok(blank) =>
      match Select(h, source, o.selection)
      case Err(e) => Err(e)
      case Ok(chosen) =>
        match CopyContent(chosen, o.ids, 0.0, 0.0)
        case Err(e) => Err(e)
        case Ok(content) =>
          match SourceEntries(h, source, o.url)
          case Err(e) => Err(e)
          case Ok(entries) =>
            Ok(blank.(objects := content.objects, frames := content.frames,
                      reactions := if o.selection.None? then source.reactions else [],
                      agent := source.agent, provenance := entries))
  }

  function ValidAndVerified(h: Host, input: Document): Result<Document, Error> {
    match Validate(h, input)
    case Err(e) => Err(e)
    case Ok(d) => if VerifySources(h, d).Err? then Err(VerifySources(h, d).error) else Ok(d)
  }

  function Fork(h: Host, input: Document, o: ForkOptions): Result<Document, Error> {
    match ValidAndVerified(h, input)
    case Err(e) => Err(e)
    case Ok(source) =>
      match ForkDraft(h, source, o)
      case Err(e) => Err(e)
      case Ok(draft) => ValidAndVerified(h, draft)
  }

  datatype QuoteOptions = QuoteOptions(selection: Option<seq<string>>, dx: real, dy: real, url: string, ids: FreshIds)

  function ObjectInputs(objects: seq<Object>): (r: seq<(ObjectInput, string)>)
    ensures |r| == |objects| && forall i :: 0 <= i < |r| ==> r[i] == (AsInput(objects[i]), "")
  {
    seq(|objects|, i requires 0 <= i < |objects| => (AsInput(objects[i]), ""))
  }

  function FrameInputs(frames: seq<Frame>): (r: seq<(FrameInput, string)>)
    ensures |r| == |frames| && forall i :: 0 <= i < |r| ==> r[i] == (FrameAsInput(frames[i]), "")
  {
    seq(|frames|, i requires 0 <= i < |frames| => (FrameAsInput(frames[i]), ""))
  }

  /** The target with the quotation in it, as it is validated when the quotation is prepared. */
  function Quoted(target: Document, content: Selection, merged: seq<Entry>): Document {
    target.(objects := target.objects + content.objects, frames := target.frames + content.frames, provenance := merged)
  }

  /** A prepared quotation: what to copy and the sources it brings. */
  datatype Quotation = Quotation(content: Selection, provenance: seq<Entry>)

  function AsCommand(q: Quotation): Command {
    Quote(q.provenance, ObjectInputs(q.content.objects), FrameInputs(q.content.frames))
  }

  /** What is to be quoted from a validated and verified source. */
  function Gather(h: Host, source: Document, o: QuoteOptions): Result<Quotation, Error> {
    match Select(h, source, o.selection)
    case Err(e) => Err(e)
    case Ok(chosen) =>
      match CopyContent(chosen, o.ids, o.dx, o.dy)
      case Err(e) => Err(e)
      case Ok(content) =>
        match SourceEntries(h, source, o.url)
        case Err(e) => Err(e)
        case Ok(entries) => Ok(Quotation(content, entries))
  }

  function PrepareQuote(
    h: Host, targetInput: Document, sourceInput: Document, o: QuoteOptions): Result<Quotation, Error>
  {
    match Validate(h, targetInput)
    case Err(e) => Err(e)
    case Ok(target) =>
      match Validate(h, sourceInput)
      case Err(e) => Err(e)
      case Ok(source) =>
        if VerifySources(h, target).Err? then Err(VerifySources(h, target).error)
        else if VerifySources(h, source).Err? then Err(VerifySources(h, source).error)
        else QuoteInto(h, target, source, o)
  }

  /** Preparing a quotation, once both documents are validated and verified. */
  function QuoteInto(h: Host, target: Document, source: Document, o: QuoteOptions): Result<Quotation, Error> {
    match Gather(h, source, o)
    case Err(e) => Err(e)
    case Ok(q) =>
      match MergeEntries(target.provenance, q.provenance)
      case Err(e) => Err(e)
      case Ok(merged) =>
        match Validate(h, Quoted(target, q.content, merged))
        case Err(e) => Err(e)
        case Ok(_) => Ok(q)
  }

  // ---------- the loops ----------

  /** The entries are checked one after the other, up to the first that fails. */
  method CheckSources(h: Host, d: Document) returns (r: Result<(), Error>)
    ensures r == VerifySources(h, d)
  {
    hide VerifyEntry;
    for i := 0 to |d.provenance|
      invariant VerifySources(h, d) == VerifyEntries(h, d.provenance, d.provenance[i..])
    {
      assert d.provenance[i..][1..] == d.provenance[i + 1..];
      var entry := VerifyEntry(h, d.provenance, d.provenance[i]);
      if entry.Err? { return Err(entry.error); }
    }
    r := Ok(());
  }

  /** Merging through one growing list, keyed by digest. */
  method MergeSources(base: seq<Entry>, incoming: seq<Entry>) returns (r: Result<seq<Entry>, Error>)
    ensures r == MergeEntries(base, incoming)
  {
    hide Conflict;
    var merged := base;
    for i := 0 to |incoming|
      invariant MergeEntries(base, incoming) == MergeEntries(merged, incoming[i..])
    {
      assert incoming[i..][1..] == incoming[i + 1..];
      var k := FindEntry(merged, incoming[i].sourceHash);
      if k == |merged| { merged := merged + [incoming[i]]; }
      else if Conflict(merged[k], incoming[i]) { return Err(SourceHashMismatch); }
    }
    r := Ok(merged);
  }

  /** `prepareQuoteCommand`: both documents validated, both verified, then merged and checked. */
  method PrepareQuoteCommand(
    h: Host, targetInput: Document, sourceInput: Document, o: QuoteOptions) returns (r: Result<Command, Error>)
    ensures var q := PrepareQuote(h, targetInput, sourceInput, o);
            r == if q.Ok? then Ok(AsCommand(q.value)) else Err(q.error)
  {
    hide Validate, VerifySources, Gather, MergeEntries, Quoted, AsCommand;
    var target := Validate(h, targetInput);
    if target.Err? { return Err(target.error); }
    var source := Validate(h, sourceInput);
    if source.Err? { return Err(source.error); }
    var checkedTarget := CheckSources(h, target.value);
    if checkedTarget.Err? { return Err(checkedTarget.error); }
    var checkedSource := CheckSources(h, source.value);
    if checkedSource.Err? { return Err(checkedSource.error); }
    var q := Gather(h, source.value, o);
    if q.Err? { return Err(q.error); }
    var merged := MergeSources(target.value.provenance, q.value.provenance);
    if merged.Err? { return Err(merged.error); }
    var both := Validate(h, Quoted(target.value, q.value.content, merged.value));
    if both.Err? { return Err(both.error); }
    r := Ok(AsCommand(q.value));
  }
}
