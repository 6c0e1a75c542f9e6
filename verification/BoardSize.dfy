/**
 How many bytes a board takes as JSON in UTF-8. Only the width of a printed number is left to the
 platform; everything else is counted here.
 */
module BoardSize {
  import opened Basics
  import opened BoardDocument

  function DigitCount(n: nat): nat { if n < 10 then 1 else 1 + DigitCount(n / 10) }

  lemma {:induction false} DigitCountGrows(m: nat, n: nat)
    requires m <= n
    ensures DigitCount(m) <= DigitCount(n)
  {
    if n >= 10 && m >= 10 { DigitCountGrows(m / 10, n / 10); }
  }

  /** A character of a string: escaped, or as UTF-8. */
  function CharSize(c: char): nat {
    if c == '"' || c == '\\' || c in {'\U{8}', '\t', '\n', '\U{C}', '\r'} then 2
    else if c < ' ' then 6
    else if c < '\U{80}' then 1
    else if c < '\U{800}' then 2
    else if c < '\U{10000}' then 3
    else 4
  }

  function CharsSize(s: string): nat { if s == "" then 0 else CharsSize(s[..|s| - 1]) + CharSize(s[|s| - 1]) }

  lemma {:induction false} CharsBound(s: string)
    ensures |s| <= CharsSize(s) <= 6 * |s|
  {
    if s != "" { CharsBound(s[..|s| - 1]); }
  }

  lemma {:induction false} PlainTextSize(s: string)
    requires forall i :: 0 <= i < |s| ==> ' ' <= s[i] <= 'z' && s[i] != '"' && s[i] != '\\'
    ensures CharsSize(s) == |s|
  {
    if s != "" { PlainTextSize(s[..|s| - 1]); }
  }

  function TextSize(s: string): nat { 2 + CharsSize(s) }

  /** A field of a record: its quoted key, a colon, its value, and a comma or the brace that closes the record. */
  function Field(key: string, value: nat): nat { |key| + 4 + value }

  /** A list whose elements, each with what follows it, take so many bytes. */
  function Bracketed(elements: nat): nat { if elements == 0 then 2 else 1 + elements }

  function KindName(k: Kind): string {
    match k
    case Path => "path" case Rect => "rect" case Ellipse => "ellipse" case Line => "line"
    case Text => "text" case Note => "note" case Bubble => "bubble"
  }

  function TruthSize(b: bool): nat { if b then 4 else 5 }

  function PointsSize(number: real -> nat, ps: seq<Point>): nat {
    if ps == [] then 0
    else PointsSize(number, ps[..|ps| - 1]) + number(ps[|ps| - 1].x) + number(ps[|ps| - 1].y) + 4
  }

  /** What every kind of object holds, besides its id. */
  function PlainSize(number: real -> nat, o: Object): nat {
    1 + Field("id", 0) + Field("type", TextSize(KindName(o.kind))) + Field("x", number(o.x)) + Field("y", number(o.y))
    + Field("width", number(o.width)) + Field("height", number(o.height)) + Field("stroke", TextSize(o.stroke))
    + Field("fill", TextSize(o.fill)) + Field("strokeWidth", number(o.strokeWidth))
      + Field("rotation", number(o.rotation))
  }

  function ObjectSize(number: real -> nat, o: Object): nat {
    PlainSize(number, o) + TextSize(o.id)
    + (if o.kind == Path then Field("points", Bracketed(PointsSize(number, o.points))) else 0)
    + if HasText(o.kind) then Field("text", TextSize(o.text)) + Field("fontSize", number(o.fontSize)) else 0
  }

  /** The objects, each with what follows it. */
  function ObjectsSize(number: real -> nat, objects: seq<Object>): nat {
    if objects == [] then 0
    else ObjectsSize(number, objects[..|objects| - 1]) + ObjectSize(number, objects[|objects| - 1]) + 1
  }

  function ReactionsSize(reactions: seq<Reaction>): nat {
    if reactions == [] then 0
    else
      var r := reactions[0];
      1 + Field("emoji", TextSize(r.emoji)) + Field("author", TextSize(r.author))
        + Field("createdAt", TextSize(r.createdAt))
      + 1 + ReactionsSize(reactions[1..])
  }

  function FramesSize(number: real -> nat, frames: seq<Frame>): nat {
    if frames == [] then 0
    else
      var f := frames[0];
      1 + Field("id", TextSize(f.id)) + Field("title", TextSize(f.title))
        + Field("description", TextSize(f.description))
      + Field("x", number(f.x)) + Field("y", number(f.y)) + Field("width", number(f.width))
        + Field("height", number(f.height))
      + 1 + FramesSize(number, frames[1..])
  }

  function AgentSize(number: real -> nat, a: Agent): nat {
    1 + Field("x", number(a.x)) + Field("y", number(a.y)) + Field("heading", number(a.heading))
    + Field("penDown", TruthSize(a.penDown)) + Field("color", TextSize(a.color)) + Field("width", number(a.width))
  }

  /** An entry besides its URL and its snapshot. */
  function MetadataSize(e: Entry): nat {
    1 + Field("sourceHash", TextSize(e.sourceHash)) + Field("title", TextSize(e.title))
    + Field("author", TextSize(e.author)) + Field("createdAt", TextSize(e.createdAt)) + Field("sourceURL", 0)
  }

  function EntrySize(number: real -> nat, e: Entry): nat
    decreases e
  {
    MetadataSize(e) + TextSize(e.sourceURL)
    + match e.snapshot case None => 0 case Some(d) => Field("snapshot", JsonSize(number, d))
  }

  function EntriesSize(number: real -> nat, entries: seq<Entry>): nat
    decreases entries, 0
  {
    if entries == [] then 0 else EntrySize(number, entries[0]) + 1 + EntriesSize(number, entries[1..])
  }

  /** What the revision and the time of update take. */
  function HeaderSize(revision: int, updatedAt: string): nat {
    (if revision < 0 then 1 + DigitCount(-revision) else DigitCount(revision)) + TextSize(updatedAt)
  }

  /** The fields besides objects, title and header. */
  function FrameworkSize(number: real -> nat, d: Document): nat
    decreases d, 0
  {
    1 + Field("schema", TextSize("grimpan/1")) + Field("id", TextSize(d.id)) + Field("title", 0)
      + Field("author", TextSize(d.author))
    + Field("revision", 0) + Field("createdAt", TextSize(d.createdAt)) + Field("updatedAt", 0) + Field("objects", 0)
    + Field("reactions", Bracketed(ReactionsSize(d.reactions)))
      + Field("frames", Bracketed(FramesSize(number, d.frames)))
    + Field("agent", AgentSize(number, d.agent)) + Field("provenance", Bracketed(EntriesSize(number, d.provenance)))
  }

  /** `encoder.encode(JSON.stringify(d)).byteLength`. */
  function JsonSize(number: real -> nat, d: Document): nat
    decreases d, 1
  {
    FrameworkSize(number, d) + TextSize(d.title) + HeaderSize(d.revision, d.updatedAt)
    + Bracketed(ObjectsSize(number, d.objects))
  }

  /** The platform whose boards take what their JSON takes. */
  function JsonHost(h: Host, number: real -> nat): Host { h.(bytes := d => JsonSize(number, d)) }

  /** No number a board holds is printed longer than this. */
  ghost predicate Printed(number: real -> nat) { forall v :: 1 <= number(v) <= 25 }

  // ---------- what the size depends on ----------

  lemma StampedSize(number: real -> nat, d: Document, revision: int, updatedAt: string)
    ensures JsonSize(number, Stamped(d, revision, updatedAt)) + HeaderSize(d.revision, d.updatedAt)
            == JsonSize(number, d) + HeaderSize(revision, updatedAt)
  {
    hide HeaderSize, ObjectsSize, TextSize, AgentSize;
  }

  lemma RetitledSize(number: real -> nat, d: Document, title: string)
    ensures JsonSize(number, d.(title := title)) + TextSize(d.title) == JsonSize(number, d) + TextSize(title)
  {
    hide HeaderSize, ObjectsSize, TextSize, AgentSize;
  }

  lemma FilledSize(number: real -> nat, d: Document, objects: seq<Object>)
    ensures JsonSize(number, d.(objects := objects)) + Bracketed(ObjectsSize(number, d.objects))
            == JsonSize(number, d) + Bracketed(ObjectsSize(number, objects))
  {
    hide HeaderSize, ObjectsSize, TextSize, AgentSize;
  }

  lemma JsonStable(h: Host, number: real -> nat)
    requires StableURLs(h)
    ensures StableURLs(JsonHost(h, number))
  {
    var g := JsonHost(h, number);
    forall s | g.href(s).Some? ensures g.href(s).value != "" && g.href(g.href(s).value) == g.href(s) {
      assert g.href == h.href;
    }
  }

  lemma JsonTimes(h: Host, number: real -> nat, s: string)
    ensures Timestamp(JsonHost(h, number), s) <==> Timestamp(h, s)
  {}
}
