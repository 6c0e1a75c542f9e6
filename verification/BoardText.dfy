/**
 The JSON text of a board, field by field in the order in which validation builds it, and its
 bytes in UTF-8. How a number is printed is a parameter.
 */
module BoardText {
  import opened Basics
  import opened BoardDocument
  import opened BoardCanonical
  import opened BoardSize

  // ---------- UTF-8, section 3 of RFC 3629 ----------

  /** The bytes of one character: a lead byte, and six bits in each byte that continues it. */
  function Utf8(c: char): (bytes: seq<nat>)
    ensures forall i :: 0 <= i < |bytes| ==> bytes[i] < 0x100
  {
    var n := c as int;
    if n < 0x80 then [n]
    else if n < 0x800 then [0xC0 + n / 0x40, 0x80 + n % 0x40]
    else if n < 0x10000 then [0xE0 + n / 0x1000, 0x80 + n / 0x40 % 0x40, 0x80 + n % 0x40]
    else [0xF0 + n / 0x40000, 0x80 + n / 0x1000 % 0x40, 0x80 + n / 0x40 % 0x40, 0x80 + n % 0x40]
  }

  function Encoded(s: string): seq<nat> { if s == "" then [] else Utf8(s[0]) + Encoded(s[1..]) }

  lemma {:induction false} EncodedAppend(a: string, b: string)
    ensures Encoded(a + b) == Encoded(a) + Encoded(b)
  {
    hide Utf8, Encoded;
    EncodedStep(a);
    EncodedStep(a + b);
    if a == "" {
      assert a + b == b;
    } else {
      EncodedAppend(a[1..], b);
      assert (a + b)[1..] == a[1..] + b;
      Regrouped(Utf8(a[0]), Encoded(a[1..]), Encoded(b));
    }
  }

  lemma EncodedStep(s: string)
    ensures Encoded(s) == if s == "" then [] else Utf8(s[0]) + Encoded(s[1..])
  {}

  /** How many bytes a text takes. */
  function Length(s: string): nat { |Encoded(s)| }

  lemma LengthAppend(a: string, b: string)
    ensures Length(a + b) == Length(a) + Length(b)
  {
    EncodedAppend(a, b);
  }

  lemma {:induction false} PlainLength(s: string)
    requires forall i :: 0 <= i < |s| ==> s[i] < '\U{80}'
    ensures Length(s) == |s|
  {
    if s != "" { PlainLength(s[1..]); }
  }

  // ---------- strings ----------

  /** Each character takes in a string what CharSize says, escaped or not. */
  lemma EscapedLength(c: char)
    ensures Length(Escaped(c)) == CharSize(c)
  {
    hide Encoded;
    if c == '"' || c == '\\' || c < ' ' {
      PlainLength(Escaped(c));
    } else {
      EncodedStep([c]);
      EncodedStep([c][1..]);
      assert [c][1..] == "";
    }
  }

  lemma {:induction false} CharsSizeFirst(s: string)
    requires s != ""
    ensures CharsSize(s) == CharSize(s[0]) + CharsSize(s[1..])
  {
    hide CharSize;
    var n := |s| - 1;
    if n == 0 {
      assert s[..0] == "" && s[1..] == "";
    } else {
      CharsSizeFirst(s[..n]);
      assert s[..n][1..] == s[1..][..n - 1];
    }
  }

  lemma {:induction false} EscapedAllLength(s: string)
    ensures Length(EscapedAll(s)) == CharsSize(s)
  {
    hide Length, CharSize, Escaped;
    if s == "" {
      NothingLong();
    } else {
      EscapedAllLength(s[1..]);
      EscapedLength(s[0]);
      CharsSizeFirst(s);
      LengthAppend(Escaped(s[0]), EscapedAll(s[1..]));
    }
  }

  lemma NothingLong()
    ensures Length("") == 0
  {}

  lemma QuotedLength(s: string)
    ensures Length(Quoted(s)) == TextSize(s)
  {
    hide Length, EscapedAll, CharsSize;
    EscapedAllLength(s);
    LengthAppend("\"" + EscapedAll(s), "\"");
    LengthAppend("\"", EscapedAll(s));
    OneLong();
  }

  lemma OneLong()
    ensures Length("\"") == Length(",") == Length(":") == Length("{") == Length("}") == Length("[") == Length("]") == 1
  {
    PlainLength("\"");
    PlainLength(",");
    PlainLength(":");
    PlainLength("{");
    PlainLength("}");
    PlainLength("[");
    PlainLength("]");
  }

  // ---------- records and lists ----------

  /** A field of a record. */
  datatype Pair = Pair(key: string, value: string)

  function FieldText(f: Pair): string { Quoted(f.key) + ":" + f.value }

  function FieldTexts(fields: seq<Pair>): (r: seq<string>)
    ensures |r| == |fields| && forall i :: 0 <= i < |r| ==> r[i] == FieldText(fields[i])
  {
    seq(|fields|, i requires 0 <= i < |fields| => FieldText(fields[i]))
  }

  function Record(fields: seq<Pair>): string { "{" + Join(FieldTexts(fields), ",") + "}" }

  function List(texts: seq<string>): string { "[" + Join(texts, ",") + "]" }

  /** The bytes of texts with one more for what follows each. */
  function Total(texts: seq<string>): nat { if texts == [] then 0 else Length(texts[0]) + 1 + Total(texts[1..]) }

  lemma {:induction false} JoinLength(texts: seq<string>)
    requires texts != []
    ensures Length(Join(texts, ",")) + 1 == Total(texts)
  {
    hide Length;
    if |texts| > 1 {
      JoinLength(texts[1..]);
      LengthAppend(texts[0] + ",", Join(texts[1..], ","));
      LengthAppend(texts[0], ",");
      OneLong();
    }
  }

  lemma {:induction false} TotalAppend(a: seq<string>, b: seq<string>)
    ensures Total(a + b) == Total(a) + Total(b)
  {
    hide Length;
    if a == [] {
      assert a + b == b;
    } else {
      assert (a + b)[1..] == a[1..] + b;
      TotalAppend(a[1..], b);
    }
  }

  lemma ListLength(texts: seq<string>)
    ensures Length(List(texts)) == Bracketed(Total(texts))
  {
    hide Length, Join;
    LengthAppend("[" + Join(texts, ","), "]");
    LengthAppend("[", Join(texts, ","));
    OneLong();
    if texts != [] { JoinLength(texts); } else { NothingJoined(); }
  }

  lemma NothingJoined()
    ensures Length(Join([], ",")) == 0
  {}

  /** Keys are plain letters. */
  predicate PlainKey(s: string) { forall i :: 0 <= i < |s| ==> 'A' <= s[i] <= 'z' && s[i] != '\\' }

  predicate PlainKeys(fields: seq<Pair>) { forall i :: 0 <= i < |fields| ==> PlainKey(fields[i].key) }

  /** A field and what follows it. */
  function Room(f: Pair): nat { BoardSize.Field(f.key, Length(f.value)) }

  function FieldsLength(fields: seq<Pair>): nat {
    if fields == [] then 0 else Room(fields[0]) + FieldsLength(fields[1..])
  }

  lemma FieldLength(f: Pair)
    requires PlainKey(f.key)
    ensures Length(FieldText(f)) + 1 == Room(f)
  {
    hide Length, CharsSize;
    QuotedLength(f.key);
    PlainTextSize(f.key);
    LengthAppend(Quoted(f.key) + ":", f.value);
    LengthAppend(Quoted(f.key), ":");
    OneLong();
  }

  lemma {:induction false} FieldsTotal(fields: seq<Pair>)
    requires PlainKeys(fields)
    ensures Total(FieldTexts(fields)) == FieldsLength(fields)
  {
    hide Length, FieldText, PlainKey;
    if fields != [] {
      FieldLength(fields[0]);
      FieldsTotal(fields[1..]);
      assert FieldTexts(fields)[1..] == FieldTexts(fields[1..]);
    }
  }

  /** A record takes a brace and its fields. */
  lemma RecordLength(fields: seq<Pair>)
    requires fields != [] && PlainKeys(fields)
    ensures Length(Record(fields)) == 1 + FieldsLength(fields)
  {
    hide Length, Join, PlainKey;
    FieldsTotal(fields);
    JoinLength(FieldTexts(fields));
    LengthAppend("{" + Join(FieldTexts(fields), ","), "}");
    LengthAppend("{", Join(FieldTexts(fields), ","));
    OneLong();
  }

  lemma {:induction false} FieldsAppend(a: seq<Pair>, b: seq<Pair>)
    ensures FieldsLength(a + b) == FieldsLength(a) + FieldsLength(b)
    ensures PlainKeys(a) && PlainKeys(b) ==> PlainKeys(a + b)
  {
    hide Length, PlainKey;
    if a == [] {
      assert a + b == b;
    } else {
      assert (a + b)[1..] == a[1..] + b;
      FieldsAppend(a[1..], b);
    }
  }

  lemma FourFields(a: Pair, b: Pair, c: Pair, d: Pair)
    ensures FieldsLength([a, b, c, d])
            == Room(a) + Room(b) + Room(c) + Room(d)
    ensures PlainKey(a.key) && PlainKey(b.key) && PlainKey(c.key) && PlainKey(d.key) ==> PlainKeys([a, b, c, d])
  {
    hide Room, PlainKey;
    TwoFields(c, d);
    assert [a, b, c, d][1..] == [b, c, d] && [b, c, d][1..] == [c, d];
    assert FieldsLength([b, c, d]) == Room(b) + FieldsLength([c, d]);
  }

  lemma TwoFields(a: Pair, b: Pair)
    ensures FieldsLength([a, b]) == Room(a) + Room(b)
    ensures PlainKey(a.key) && PlainKey(b.key) ==> PlainKeys([a, b])
  {
    hide Room, PlainKey;
    OneField(b);
    assert [a, b][1..] == [b];
  }

  lemma OneField(a: Pair)
    ensures FieldsLength([a]) == Room(a)
    ensures PlainKey(a.key) ==> PlainKeys([a])
  {
    hide Room, PlainKey;
    assert [a][1..] == [] && FieldsLength([]) == 0;
  }

  /** The keys of all records are plain. */
  lemma KeysArePlain()
    ensures PlainKey("id") && PlainKey("type") && PlainKey("x") && PlainKey("y") && PlainKey("width")
    ensures PlainKey("height") && PlainKey("stroke") && PlainKey("fill")
    ensures PlainKey("strokeWidth") && PlainKey("rotation") && PlainKey("points") && PlainKey("text")
    ensures PlainKey("fontSize")
    ensures PlainKey("emoji") && PlainKey("author") && PlainKey("createdAt") && PlainKey("title")
    ensures PlainKey("description")
    ensures PlainKey("heading") && PlainKey("penDown") && PlainKey("color") && PlainKey("schema")
    ensures PlainKey("revision")
    ensures PlainKey("sourceHash") && PlainKey("sourceURL") && PlainKey("snapshot") && PlainKey("updatedAt")
    ensures PlainKey("objects") && PlainKey("reactions") && PlainKey("frames") && PlainKey("agent")
    ensures PlainKey("provenance")
  {
    hide PlainKey;
    ObjectKeys();
    KindKeys();
    FrameKeys();
    AgentKeys();
    SourceKeys();
    CollectionKeys();
  }

  lemma ObjectKeys()
    ensures PlainKey("id") && PlainKey("type") && PlainKey("x") && PlainKey("y") && PlainKey("width")
    ensures PlainKey("height") && PlainKey("stroke") && PlainKey("fill")
  {}

  lemma KindKeys()
    ensures PlainKey("strokeWidth") && PlainKey("rotation") && PlainKey("points") && PlainKey("text")
    ensures PlainKey("fontSize")
  {}

  lemma FrameKeys()
    ensures PlainKey("emoji") && PlainKey("author") && PlainKey("createdAt") && PlainKey("title")
    ensures PlainKey("description")
  {}

  lemma AgentKeys()
    ensures PlainKey("heading") && PlainKey("penDown") && PlainKey("color") && PlainKey("schema")
    ensures PlainKey("revision")
  {}

  lemma SourceKeys()
    ensures PlainKey("sourceHash") && PlainKey("sourceURL") && PlainKey("snapshot") && PlainKey("updatedAt")
  {}

  lemma CollectionKeys()
    ensures PlainKey("objects") && PlainKey("reactions") && PlainKey("frames") && PlainKey("agent")
    ensures PlainKey("provenance")
  {}

  lemma ValueApart(key: string, value: nat)
    ensures BoardSize.Field(key, value) == BoardSize.Field(key, 0) + value
  {}

  // ---------- the parts of a board ----------

  /** How the platform prints a number. */
  type Numbers = real -> NumberText

  /** The width a number is counted with is that of its text. */
  ghost predicate Counts(number: real -> nat, numbers: Numbers) { forall v :: number(v) == |numbers(v)| }

  lemma NumberLength(number: real -> nat, numbers: Numbers, v: real)
    requires Counts(number, numbers)
    ensures Length(numbers(v)) == number(v)
  {
    forall i | 0 <= i < |numbers(v)| ensures numbers(v)[i] < '\U{80}' { assert NumberChar(numbers(v)[i]); }
    PlainLength(numbers(v));
    assert number(v) == |numbers(v)|;
  }

  function Digits(n: nat): string { if n < 10 then [DigitOf(n)] else Digits(n / 10) + [DigitOf(n % 10)] }

  function DigitOf(d: nat): char
    requires d < 10
  {
    "0123456789"[d]
  }

  /** A whole number, as a revision is. */
  function Whole(n: int): string { if n < 0 then "-" + Digits(-n) else Digits(n) }

  lemma {:induction false} DigitsLength(n: nat)
    ensures Length(Digits(n)) == DigitCount(n)
  {
    hide Length;
    DigitLength(n % 10);
    if n >= 10 {
      DigitsLength(n / 10);
      LengthAppend(Digits(n / 10), [DigitOf(n % 10)]);
    }
  }

  lemma DigitLength(d: nat)
    requires d < 10
    ensures Length([DigitOf(d)]) == 1
  {
    PlainLength([DigitOf(d)]);
  }

  lemma WholeLength(n: int)
    ensures Length(Whole(n)) == if n < 0 then 1 + DigitCount(-n) else DigitCount(n)
  {
    hide Length;
    DigitsLength(if n < 0 then -n else n);
    LengthAppend("-", Digits(if n < 0 then -n else n));
    PlainLength("-");
  }

  function TypeName(k: Kind): string {
    match k
    case Path => "path" case Rect => "rect" case Ellipse => "ellipse" case Line => "line"
    case Text => "text" case Note => "note" case Bubble => "bubble"
  }

  function PointText(numbers: Numbers, p: Point): string { List([numbers(p.x), numbers(p.y)]) }

  function PointTexts(numbers: Numbers, ps: seq<Point>): seq<string> {
    if ps == [] then []
    else PointTexts(numbers, ps[..|ps| - 1]) + [PointText(numbers, ps[|ps| - 1])]
  }

  lemma OneTotal(s: string)
    ensures Total([s]) == Length(s) + 1
  {
    hide Length;
    assert [s][1..] == [] && Total([s][1..]) == 0;
  }

  lemma PointLength(number: real -> nat, numbers: Numbers, p: Point)
    requires Counts(number, numbers)
    ensures Length(PointText(numbers, p)) == number(p.x) + number(p.y) + 3
  {
    hide Length, Counts;
    var x, y := numbers(p.x), numbers(p.y);
    NumberLength(number, numbers, p.x);
    NumberLength(number, numbers, p.y);
    ListLength([x, y]);
    OneTotal(y);
    assert [x, y][1..] == [y] && Total([x, y]) == Length(x) + 1 + Total([x, y][1..]);
  }

  lemma {:induction false} PointsLength(number: real -> nat, numbers: Numbers, ps: seq<Point>)
    requires Counts(number, numbers)
    ensures Total(PointTexts(numbers, ps)) == PointsSize(number, ps)
  {
    hide Length, Counts, PointText;
    if ps != [] {
      var n := |ps| - 1;
      PointsLength(number, numbers, ps[..n]);
      PointLength(number, numbers, ps[n]);
      OneTotal(PointText(numbers, ps[n]));
      TotalAppend(PointTexts(numbers, ps[..n]), [PointText(numbers, ps[n])]);
    }
  }

  /** What every kind of object holds. */
  function PlainFields(numbers: Numbers, o: Object): seq<Pair> {
    [Pair("id", Quoted(o.id)), Pair("type", Quoted(TypeName(o.kind))), Pair("x", numbers(o.x)), Pair("y", numbers(o.y))]
    + [Pair("width", numbers(o.width)), Pair("height", numbers(o.height)), Pair("stroke", Quoted(o.stroke)),
       Pair("fill", Quoted(o.fill))]
    + [Pair("strokeWidth", numbers(o.strokeWidth)), Pair("rotation", numbers(o.rotation))]
  }

  /** What only some kinds hold. */
  function OwnFields(numbers: Numbers, o: Object): seq<Pair> {
    (if o.kind == Path then [Pair("points", List(PointTexts(numbers, o.points)))] else [])
    + if o.kind == Text || o.kind == Note || o.kind == Bubble then
        [Pair("text", Quoted(o.text)), Pair("fontSize", numbers(o.fontSize))]
      else []
  }

  function ObjectText(numbers: Numbers, o: Object): string {
    Record(PlainFields(numbers, o) + OwnFields(numbers, o))
  }

  lemma NameLength(k: Kind)
    ensures Quoted(TypeName(k)) == Quoted(KindName(k))
  {}

  lemma PlainFieldsLength(number: real -> nat, numbers: Numbers, o: Object)
    requires Counts(number, numbers)
    ensures PlainKeys(PlainFields(numbers, o))
    ensures 1 + FieldsLength(PlainFields(numbers, o)) == PlainSize(number, o) + TextSize(o.id)
  {
    hide Length, Counts, Quoted, TypeName, KindName, TextSize, PlainKey, BoardSize.Field;
    KeysArePlain();
    ValueApart("id", TextSize(o.id));
    var a := Pair("id", Quoted(o.id));
    var b := Pair("type", Quoted(TypeName(o.kind)));
    var c, d := Pair("x", numbers(o.x)), Pair("y", numbers(o.y));
    var e, g := Pair("width", numbers(o.width)), Pair("height", numbers(o.height));
    var i, j := Pair("stroke", Quoted(o.stroke)), Pair("fill", Quoted(o.fill));
    var k, l := Pair("strokeWidth", numbers(o.strokeWidth)), Pair("rotation", numbers(o.rotation));
    FourFields(a, b, c, d);
    FourFields(e, g, i, j);
    TwoFields(k, l);
    FieldsAppend([a, b, c, d], [e, g, i, j]);
    FieldsAppend([a, b, c, d] + [e, g, i, j], [k, l]);
    NameLength(o.kind);
    QuotedLength(o.id);
    QuotedLength(KindName(o.kind));
    QuotedLength(o.stroke);
    QuotedLength(o.fill);
    NumberLength(number, numbers, o.x);
    NumberLength(number, numbers, o.y);
    NumberLength(number, numbers, o.width);
    NumberLength(number, numbers, o.height);
    NumberLength(number, numbers, o.strokeWidth);
    NumberLength(number, numbers, o.rotation);
  }

  lemma OwnFieldsLength(number: real -> nat, numbers: Numbers, o: Object)
    requires Counts(number, numbers)
    ensures PlainKeys(OwnFields(numbers, o))
    ensures FieldsLength(OwnFields(numbers, o))
            == (if o.kind == Path then BoardSize.Field("points", Bracketed(PointsSize(number, o.points))) else 0)
               + if HasText(o.kind) then
                   BoardSize.Field("text", TextSize(o.text)) + BoardSize.Field("fontSize", number(o.fontSize))
                 else 0
  {
    hide Length, Counts, Quoted, TextSize, List, PointTexts, PointsSize, Bracketed, PlainKey, BoardSize.Field;
    KeysArePlain();
    var points := Pair("points", List(PointTexts(numbers, o.points)));
    var text, size := Pair("text", Quoted(o.text)), Pair("fontSize", numbers(o.fontSize));
    OneField(points);
    TwoFields(text, size);
    PointsLength(number, numbers, o.points);
    ListLength(PointTexts(numbers, o.points));
    QuotedLength(o.text);
    NumberLength(number, numbers, o.fontSize);
    FieldsAppend(if o.kind == Path then [points] else [], if HasText(o.kind) then [text, size] else []);
  }

  lemma ObjectLength(number: real -> nat, numbers: Numbers, o: Object)
    requires Counts(number, numbers)
    ensures Length(ObjectText(numbers, o)) == ObjectSize(number, o)
  {
    hide Length, Counts, PlainSize, TextSize, Bracketed, PointsSize;
    PlainFieldsLength(number, numbers, o);
    OwnFieldsLength(number, numbers, o);
    FieldsAppend(PlainFields(numbers, o), OwnFields(numbers, o));
    RecordLength(PlainFields(numbers, o) + OwnFields(numbers, o));
  }

  function ObjectTexts(numbers: Numbers, objects: seq<Object>): seq<string> {
    if objects == [] then []
    else ObjectTexts(numbers, objects[..|objects| - 1]) + [ObjectText(numbers, objects[|objects| - 1])]
  }

  lemma {:induction false} ObjectsLength(number: real -> nat, numbers: Numbers, objects: seq<Object>)
    requires Counts(number, numbers)
    ensures Total(ObjectTexts(numbers, objects)) == ObjectsSize(number, objects)
  {
    hide Length, Counts, ObjectText, ObjectSize;
    if objects != [] {
      var n := |objects| - 1;
      ObjectsLength(number, numbers, objects[..n]);
      ObjectLength(number, numbers, objects[n]);
      OneTotal(ObjectText(numbers, objects[n]));
      TotalAppend(ObjectTexts(numbers, objects[..n]), [ObjectText(numbers, objects[n])]);
    }
  }

  function ReactionText(r: Reaction): string {
    Record([Pair("emoji", Quoted(r.emoji)), Pair("author", Quoted(r.author))]
      + [Pair("createdAt", Quoted(r.createdAt))])
  }

  function ReactionTexts(reactions: seq<Reaction>): seq<string> {
    if reactions == [] then [] else [ReactionText(reactions[0])] + ReactionTexts(reactions[1..])
  }

  lemma ReactionLength(r: Reaction)
    ensures Length(ReactionText(r)) + 1
            == 1 + BoardSize.Field("emoji", TextSize(r.emoji)) + BoardSize.Field("author", TextSize(r.author))
               + BoardSize.Field("createdAt", TextSize(r.createdAt)) + 1
  {
    hide Length, Quoted, TextSize, Record, PlainKey, BoardSize.Field;
    KeysArePlain();
    var a, b := Pair("emoji", Quoted(r.emoji)), Pair("author", Quoted(r.author));
    var c := Pair("createdAt", Quoted(r.createdAt));
    TwoFields(a, b);
    OneField(c);
    FieldsAppend([a, b], [c]);
    RecordLength([a, b] + [c]);
    QuotedLength(r.emoji);
    QuotedLength(r.author);
    QuotedLength(r.createdAt);
  }

  lemma {:induction false} ReactionsLength(reactions: seq<Reaction>)
    ensures Total(ReactionTexts(reactions)) == ReactionsSize(reactions)
  {
    hide Length, ReactionText, TextSize, BoardSize.Field;
    if reactions != [] {
      ReactionsLength(reactions[1..]);
      ReactionLength(reactions[0]);
    }
  }

  function FrameText(numbers: Numbers, f: Frame): string {
    Record([Pair("id", Quoted(f.id)), Pair("title", Quoted(f.title)), Pair("description", Quoted(f.description)),
            Pair("x", numbers(f.x))]
           + [Pair("y", numbers(f.y)), Pair("width", numbers(f.width))] + [Pair("height", numbers(f.height))])
  }

  function FrameTexts(numbers: Numbers, frames: seq<Frame>): seq<string> {
    if frames == [] then [] else [FrameText(numbers, frames[0])] + FrameTexts(numbers, frames[1..])
  }

  lemma FrameLength(number: real -> nat, numbers: Numbers, f: Frame)
    requires Counts(number, numbers)
    ensures Length(FrameText(numbers, f)) + 1
            == 1 + BoardSize.Field("id", TextSize(f.id)) + BoardSize.Field("title", TextSize(f.title))
               + BoardSize.Field("description", TextSize(f.description)) + BoardSize.Field("x", number(f.x))
               + BoardSize.Field("y", number(f.y)) + BoardSize.Field("width", number(f.width))
               + BoardSize.Field("height", number(f.height)) + 1
  {
    hide Length, Quoted, TextSize, Record, Counts, PlainKey, BoardSize.Field;
    KeysArePlain();
    var a, b := Pair("id", Quoted(f.id)), Pair("title", Quoted(f.title));
    var c, d := Pair("description", Quoted(f.description)), Pair("x", numbers(f.x));
    var e, g, i := Pair("y", numbers(f.y)), Pair("width", numbers(f.width)), Pair("height", numbers(f.height));
    FourFields(a, b, c, d);
    TwoFields(e, g);
    OneField(i);
    FieldsAppend([a, b, c, d], [e, g]);
    FieldsAppend([a, b, c, d] + [e, g], [i]);
    RecordLength([a, b, c, d] + [e, g] + [i]);
    QuotedLength(f.id);
    QuotedLength(f.title);
    QuotedLength(f.description);
    NumberLength(number, numbers, f.x);
    NumberLength(number, numbers, f.y);
    NumberLength(number, numbers, f.width);
    NumberLength(number, numbers, f.height);
  }

  lemma {:induction false} FramesLength(number: real -> nat, numbers: Numbers, frames: seq<Frame>)
    requires Counts(number, numbers)
    ensures Total(FrameTexts(numbers, frames)) == FramesSize(number, frames)
  {
    hide Length, FrameText, TextSize, Counts, BoardSize.Field;
    if frames != [] {
      FramesLength(number, numbers, frames[1..]);
      FrameLength(number, numbers, frames[0]);
    }
  }

  function TruthText(b: bool): string { if b then "true" else "false" }

  lemma TruthLength(b: bool)
    ensures Length(TruthText(b)) == TruthSize(b)
  {
    PlainLength(TruthText(b));
  }

  function AgentText(numbers: Numbers, a: Agent): string {
    Record([Pair("x", numbers(a.x)), Pair("y", numbers(a.y)), Pair("heading", numbers(a.heading)),
            Pair("penDown", TruthText(a.penDown))]
           + [Pair("color", Quoted(a.color)), Pair("width", numbers(a.width))])
  }

  lemma AgentLength(number: real -> nat, numbers: Numbers, a: Agent)
    requires Counts(number, numbers)
    ensures Length(AgentText(numbers, a)) == AgentSize(number, a)
  {
    hide Length, Quoted, TextSize, Record, Counts, TruthText, TruthSize, PlainKey, BoardSize.Field;
    KeysArePlain();
    var x, y, heading := Pair("x", numbers(a.x)), Pair("y", numbers(a.y)), Pair("heading", numbers(a.heading));
    var pen := Pair("penDown", TruthText(a.penDown));
    var color, width := Pair("color", Quoted(a.color)), Pair("width", numbers(a.width));
    FourFields(x, y, heading, pen);
    TwoFields(color, width);
    FieldsAppend([x, y, heading, pen], [color, width]);
    RecordLength([x, y, heading, pen] + [color, width]);
    TruthLength(a.penDown);
    QuotedLength(a.color);
    NumberLength(number, numbers, a.x);
    NumberLength(number, numbers, a.y);
    NumberLength(number, numbers, a.heading);
    NumberLength(number, numbers, a.width);
  }

  // ---------- the whole board ----------

  function MetadataFields(e: Entry): seq<Pair> {
    [Pair("sourceHash", Quoted(e.sourceHash)), Pair("title", Quoted(e.title)), Pair("author", Quoted(e.author)),
     Pair("createdAt", Quoted(e.createdAt))]
    + [Pair("sourceURL", Quoted(e.sourceURL))]
  }

  function EntryText(numbers: Numbers, e: Entry): string
    decreases e
  {
    match e.snapshot
    case None => Record(MetadataFields(e))
    case Some(d) => Record(MetadataFields(e) + [Pair("snapshot", DocumentText(numbers, d))])
  }

  function EntryTexts(numbers: Numbers, entries: seq<Entry>): seq<string>
    decreases entries, 0
  {
    if entries == [] then [] else [EntryText(numbers, entries[0])] + EntryTexts(numbers, entries[1..])
  }

  function HeaderFields(d: Document): seq<Pair> {
    [Pair("schema", Quoted("grimpan/1")), Pair("id", Quoted(d.id)), Pair("title", Quoted(d.title)),
     Pair("author", Quoted(d.author))]
  }

  function MiddleFields(numbers: Numbers, d: Document): seq<Pair> {
    [Pair("revision", Whole(d.revision)), Pair("createdAt", Quoted(d.createdAt)),
     Pair("updatedAt", Quoted(d.updatedAt)), Pair("objects", List(ObjectTexts(numbers, d.objects)))]
  }

  /** `JSON.stringify` of a board. */
  function DocumentText(numbers: Numbers, d: Document): string
    decreases d, 1
  {
    Record(
      HeaderFields(d) + MiddleFields(numbers, d)
      + [Pair("reactions", List(ReactionTexts(d.reactions))), Pair("frames", List(FrameTexts(numbers, d.frames))),
         Pair("agent", AgentText(numbers, d.agent)), Pair("provenance", List(EntryTexts(numbers, d.provenance)))])
  }

  lemma MetadataLength(e: Entry)
    ensures PlainKeys(MetadataFields(e)) && MetadataFields(e) != []
    ensures 1 + FieldsLength(MetadataFields(e)) == MetadataSize(e) + TextSize(e.sourceURL)
  {
    hide Length, Quoted, TextSize, PlainKey, BoardSize.Field;
    KeysArePlain();
    ValueApart("sourceURL", TextSize(e.sourceURL));
    var a, b := Pair("sourceHash", Quoted(e.sourceHash)), Pair("title", Quoted(e.title));
    var c, d := Pair("author", Quoted(e.author)), Pair("createdAt", Quoted(e.createdAt));
    var url := Pair("sourceURL", Quoted(e.sourceURL));
    FourFields(a, b, c, d);
    OneField(url);
    FieldsAppend([a, b, c, d], [url]);
    QuotedLength(e.sourceHash);
    QuotedLength(e.title);
    QuotedLength(e.author);
    QuotedLength(e.createdAt);
    QuotedLength(e.sourceURL);
  }

  lemma {:induction false} EntryLength(number: real -> nat, numbers: Numbers, e: Entry)
    requires Counts(number, numbers)
    ensures Length(EntryText(numbers, e)) == EntrySize(number, e)
    decreases e
  {
    hide Length, TextSize, Record, Counts, MetadataSize, MetadataFields, JsonSize, DocumentText, PlainKey,
      BoardSize.Field;
    KeysArePlain();
    MetadataLength(e);
    match e.snapshot {
      case None => RecordLength(MetadataFields(e));
      case Some(d) =>
        SizeIsTextLength(number, numbers, d);
        var snapshot := Pair("snapshot", DocumentText(numbers, d));
        OneField(snapshot);
        FieldsAppend(MetadataFields(e), [snapshot]);
        RecordLength(MetadataFields(e) + [snapshot]);
    }
  }

  lemma {:induction false} EntriesLength(number: real -> nat, numbers: Numbers, entries: seq<Entry>)
    requires Counts(number, numbers)
    ensures Total(EntryTexts(numbers, entries)) == EntriesSize(number, entries)
    decreases entries, 0
  {
    hide Length, Counts, EntryText, EntrySize;
    if entries != [] {
      EntryLength(number, numbers, entries[0]);
      EntriesLength(number, numbers, entries[1..]);
    }
  }

  lemma HeaderLength(d: Document)
    ensures PlainKeys(HeaderFields(d))
    ensures FieldsLength(HeaderFields(d))
            == BoardSize.Field("schema", TextSize("grimpan/1")) + BoardSize.Field("id", TextSize(d.id))
               + BoardSize.Field("title", TextSize(d.title)) + BoardSize.Field("author", TextSize(d.author))
  {
    hide Length, Quoted, TextSize, PlainKey, BoardSize.Field;
    KeysArePlain();
    FourFields(Pair("schema", Quoted("grimpan/1")), Pair("id", Quoted(d.id)), Pair("title", Quoted(d.title)),
               Pair("author", Quoted(d.author)));
    QuotedLength("grimpan/1");
    QuotedLength(d.id);
    QuotedLength(d.title);
    QuotedLength(d.author);
  }

  lemma MiddleLength(number: real -> nat, numbers: Numbers, d: Document)
    requires Counts(number, numbers)
    ensures PlainKeys(MiddleFields(numbers, d))
    ensures FieldsLength(MiddleFields(numbers, d))
            == BoardSize.Field("revision", 0) + HeaderSize(d.revision, d.updatedAt)
               + BoardSize.Field("createdAt", TextSize(d.createdAt)) + BoardSize.Field("updatedAt", 0)
               + BoardSize.Field("objects", 0) + Bracketed(ObjectsSize(number, d.objects))
  {
    hide Length, Quoted, TextSize, Counts, List, Whole, Bracketed, DigitCount, ObjectTexts, ObjectsSize, PlainKey,
      BoardSize.Field;
    KeysArePlain();
    var objects := ObjectTexts(numbers, d.objects);
    FourFields(Pair("revision", Whole(d.revision)), Pair("createdAt", Quoted(d.createdAt)),
               Pair("updatedAt", Quoted(d.updatedAt)), Pair("objects", List(objects)));
    WholeLength(d.revision);
    QuotedLength(d.createdAt);
    QuotedLength(d.updatedAt);
    ListLength(objects);
    ObjectsLength(number, numbers, d.objects);
    ValueApart("revision", Length(Whole(d.revision)));
    ValueApart("updatedAt", TextSize(d.updatedAt));
    ValueApart("objects", Bracketed(ObjectsSize(number, d.objects)));
  }

  lemma CollectionLengths(number: real -> nat, numbers: Numbers, d: Document)
    requires Counts(number, numbers)
    ensures Length(List(ReactionTexts(d.reactions))) == Bracketed(ReactionsSize(d.reactions))
    ensures Length(List(FrameTexts(numbers, d.frames))) == Bracketed(FramesSize(number, d.frames))
    ensures Length(AgentText(numbers, d.agent)) == AgentSize(number, d.agent)
  {
    hide Length, Counts, List, Bracketed, AgentText, AgentSize, ReactionTexts, FrameTexts, ReactionsSize, FramesSize;
    ListLength(ReactionTexts(d.reactions));
    ReactionsLength(d.reactions);
    ListLength(FrameTexts(numbers, d.frames));
    FramesLength(number, numbers, d.frames);
    AgentLength(number, numbers, d.agent);
  }

  /** The bytes counted for a board are those of its JSON text, whatever it holds and however it is nested. */
  lemma {:induction false} SizeIsTextLength(number: real -> nat, numbers: Numbers, d: Document)
    requires Counts(number, numbers)
    ensures Length(DocumentText(numbers, d)) == JsonSize(number, d)
    decreases d, 1
  {
    hide Length, TextSize, Record, Counts, HeaderFields, MiddleFields, List, Bracketed, AgentSize, AgentText,
      HeaderSize,
      ReactionTexts, FrameTexts, EntryTexts, ReactionsSize, FramesSize, EntriesSize, ObjectsSize, PlainKey,
      BoardSize.Field;
    KeysArePlain();
    var reactions := Pair("reactions", List(ReactionTexts(d.reactions)));
    var frames := Pair("frames", List(FrameTexts(numbers, d.frames)));
    var agent := Pair("agent", AgentText(numbers, d.agent));
    var provenance := Pair("provenance", List(EntryTexts(numbers, d.provenance)));
    var last := [reactions, frames, agent, provenance];
    HeaderLength(d);
    MiddleLength(number, numbers, d);
    FourFields(reactions, frames, agent, provenance);
    FieldsAppend(HeaderFields(d), MiddleFields(numbers, d));
    FieldsAppend(HeaderFields(d) + MiddleFields(numbers, d), last);
    RecordLength(HeaderFields(d) + MiddleFields(numbers, d) + last);
    CollectionLengths(number, numbers, d);
    ListLength(EntryTexts(numbers, d.provenance));
    EntriesLength(number, numbers, d.provenance);
    ValueApart("title", TextSize(d.title));
  }
}
