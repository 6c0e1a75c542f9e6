/** A board that is exactly as large as boards may be: text objects full of Korean letters. */
module BoardFull {
  import opened Basics
  import opened BoardDocument
  import opened BoardSize

  const BOXES := 110

  lemma {:induction false} RepeatSize(c: char, n: nat)
    ensures CharsSize(Repeat(c, n)) == n * CharSize(c)
  {
    if n > 0 {
      RepeatSize(c, n - 1);
      assert Repeat(c, n)[..n - 1] == Repeat(c, n - 1);
    }
  }

  /** A text of so many bytes, three to a letter as far as possible. */
  function Letters(bytes: nat): string { Repeat('x', bytes % 3) + Repeat('\U{AC00}', bytes / 3) }

  lemma {:induction false} CharsAppend(s: string, t: string)
    ensures CharsSize(s + t) == CharsSize(s) + CharsSize(t)
  {
    if t == "" {
      assert s + t == s;
    } else {
      CharsAppend(s, t[..|t| - 1]);
      assert (s + t)[..|s + t| - 1] == s + t[..|t| - 1];
    }
  }

  lemma LettersSize(bytes: nat)
    ensures CharsSize(Letters(bytes)) == bytes && |Letters(bytes)| <= bytes / 3 + 2
  {
    RepeatSize('x', bytes % 3);
    RepeatSize('\U{AC00}', bytes / 3);
    CharsAppend(Repeat('x', bytes % 3), Repeat('\U{AC00}', bytes / 3));
  }

  /** Boxes are named a, aa, and so on, and after that b, bb, and so on. */
  function BoxId(k: nat): string { if k <= 55 then Repeat('a', k) else Repeat('b', k - 55) }

  function Box(k: nat, bytes: nat): Object {
    Object(BoxId(k), Text, 0.0, 0.0, 0.0, 0.0, "red", "red", 1.0, 0.0, [], Letters(bytes), 24.0)
  }

  lemma BoxIsNormal(k: nat, bytes: nat)
    requires 1 <= k <= BOXES && bytes <= 29994
    ensures NormalObject(Box(k, bytes))
  {
    LettersSize(bytes);
    AngleInRange(0.0);
    assert Identifier(BoxId(k));
    assert Color("red") by { assert Lower("red") == "red"; }
  }

  /** The first box takes what the others leave over. */
  function Boxes(k: nat, bytes: nat, extra: nat): (r: seq<Object>)
    ensures |r| == k && forall i :: 0 <= i < k ==> r[i] == Box(i + 1, bytes + if i == 0 then extra else 0)
  {
    if k == 0 then [] else Boxes(k - 1, bytes, extra) + [Box(k, bytes + if k == 1 then extra else 0)]
  }

  lemma {:induction false} BoxesSize(number: real -> nat, k: nat, bytes: nat, extra: nat)
    requires Printed(number)
    ensures ObjectsSize(number, Boxes(k, bytes, extra))
            == EmptyBoxes(number, k) + k * bytes + if k == 0 then 0 else extra
  {
    hide ObjectSize, Boxes, ObjectsSize, Printed, Box;
    if k == 0 {
      NoBoxes(number, bytes, extra);
      NoBoxes(number, 0, 0);
    } else {
      var more := if k == 1 then extra else 0;
      BoxesSize(number, k - 1, bytes, extra);
      OneMoreBox(number, k, bytes, extra);
      OneMoreBox(number, k, 0, 0);
      BoxSize(number, k, bytes + more);
      assert k * bytes == (k - 1) * bytes + bytes;
    }
  }

  /** What the boxes take without their texts. */
  function EmptyBoxes(number: real -> nat, k: nat): nat { ObjectsSize(number, Boxes(k, 0, 0)) }

  lemma {:induction false} EmptyBoxesAreSmall(number: real -> nat, k: nat)
    requires Printed(number) && k <= BOXES
    ensures EmptyBoxes(number, k) <= 800 * k
  {
    hide ObjectSize, Boxes, ObjectsSize, Printed, Box;
    if k == 0 {
      NoBoxes(number, 0, 0);
    } else {
      EmptyBoxesAreSmall(number, k - 1);
      OneMoreBox(number, k, 0, 0);
      BoxSize(number, k, 0);
    }
  }

  lemma NoBoxes(number: real -> nat, bytes: nat, extra: nat)
    ensures ObjectsSize(number, Boxes(0, bytes, extra)) == 0
  {}

  lemma OneMoreBox(number: real -> nat, k: nat, bytes: nat, extra: nat)
    requires k >= 1
    ensures ObjectsSize(number, Boxes(k, bytes, extra))
            == ObjectsSize(number, Boxes(k - 1, bytes, extra))
               + ObjectSize(number, Box(k, bytes + if k == 1 then extra else 0)) + 1
  {
    hide ObjectSize, Box;
    assert Boxes(k, bytes, extra)[..k - 1] == Boxes(k - 1, bytes, extra);
  }

  lemma BoxSize(number: real -> nat, k: nat, bytes: nat)
    requires Printed(number)
    ensures ObjectSize(number, Box(k, bytes)) == ObjectSize(number, Box(k, 0)) + bytes
    ensures k <= BOXES ==> ObjectSize(number, Box(k, 0)) <= 799
  {
    hide CharsSize, Letters, BoxId, PlainSize;
    LettersSize(bytes);
    LettersSize(0);
    PlainBox(number, k, 0);
    PlainBox(number, k, bytes);
    if k <= BOXES { BoxIdsAreShort(k); }
    CharsBound(BoxId(k));
  }

  lemma PlainBox(number: real -> nat, k: nat, bytes: nat)
    requires Printed(number)
    ensures PlainSize(number, Box(k, bytes)) == PlainSize(number, Box(k, 0)) <= 330
  {
    hide CharsSize, Letters, BoxId;
    CharsBound("text");
    CharsBound("red");
  }

  lemma BoxIdsAreShort(k: nat)
    requires k <= BOXES
    ensures |BoxId(k)| <= 55
  {}

  lemma {:induction false} BoxesHaveNoPoints(k: nat, bytes: nat, extra: nat)
    ensures PointSum(Boxes(k, bytes, extra)) == 0
  {
    hide Letters, BoxId;
    if k > 0 {
      BoxesHaveNoPoints(k - 1, bytes, extra);
      assert Boxes(k, bytes, extra)[..k - 1] == Boxes(k - 1, bytes, extra);
    }
  }

  lemma BoxesAreDistinct(k: nat, bytes: nat, extra: nat)
    requires k <= BOXES
    ensures DistinctObjects(Boxes(k, bytes, extra))
  {
    hide Letters;
    var boxes := Boxes(k, bytes, extra);
    forall i, j | 0 <= i < j < k ensures boxes[i].id != boxes[j].id { IdsDiffer(i + 1, j + 1); }
  }

  lemma IdsDiffer(i: nat, j: nat)
    requires 1 <= i < j
    ensures BoxId(i) != BoxId(j)
  {
    if i <= 55 < j {
      assert BoxId(i)[0] == 'a' && BoxId(j)[0] == 'b';
    } else {
      assert |BoxId(i)| < |BoxId(j)|;
    }
  }

  // ---------- the board ----------

  function Blank(title: string, revision: int, updatedAt: string): Document {
    Document("board", title, "", revision, updatedAt, updatedAt, [], [], [], Agent(0.0, 0.0, 0.0, false, "red", 1.0),
      [])
  }

  function FilledBoard(title: string, revision: int, updatedAt: string, bytes: nat, extra: nat): Document {
    Blank(title, revision, updatedAt).(objects := Boxes(BOXES, bytes, extra))
  }

  lemma PlainFields()
    ensures Color("red") && Identifier("board")
  {
    assert Lower("red") == "red";
  }

  lemma FilledIsSound(h: Host, title: string, revision: int, updatedAt: string, bytes: nat, extra: nat)
    requires |title| <= 200 && 0 <= revision <= MAX_SAFE_INTEGER && Timestamp(h, updatedAt) && bytes + extra <= 29994
    ensures Sound(h, FilledBoard(title, revision, updatedAt, bytes, extra), true)
  {
    hide Timestamp, NormalObject, Box, Boxes, Color, Identifier;
    var boxes := Boxes(BOXES, bytes, extra);
    forall i | 0 <= i < |boxes| ensures NormalObject(boxes[i]) {
      BoxIsNormal(i + 1, bytes + if i == 0 then extra else 0);
    }
    BoxesAreDistinct(BOXES, bytes, extra);
    BoxesHaveNoPoints(BOXES, bytes, extra);
    PlainFields();
  }

  lemma BlankIsSmall(number: real -> nat, h: Host, title: string, revision: int, updatedAt: string)
    requires Printed(number) && |title| <= 200 && 0 <= revision <= MAX_SAFE_INTEGER && Timestamp(h, updatedAt)
    ensures JsonSize(number, Blank(title, revision, updatedAt)) <= 3000
  {
    hide CharsSize, AgentSize, HeaderSize, FrameworkSize;
    CharsBound(title);
    BlankHeader(h, revision, updatedAt);
    BlankFramework(number, h, title, revision, updatedAt);
  }

  lemma BlankHeader(h: Host, revision: int, updatedAt: string)
    requires 0 <= revision <= MAX_SAFE_INTEGER && Timestamp(h, updatedAt)
    ensures HeaderSize(revision, updatedAt) <= 258
  {
    hide CharsSize, DigitCount;
    CharsBound(updatedAt);
    TenTo16();
    DigitCountSmall(revision, 16);
  }

  lemma SmallAgent(number: real -> nat, a: Agent)
    requires Printed(number) && a.color == "red"
    ensures AgentSize(number, a) <= 300
  {
    hide CharsSize;
    CharsBound("red");
  }

  lemma BlankFramework(number: real -> nat, h: Host, title: string, revision: int, updatedAt: string)
    requires Printed(number) && Timestamp(h, updatedAt)
    ensures FrameworkSize(number, Blank(title, revision, updatedAt)) <= 1400
  {
    hide CharsSize, AgentSize;
    CharsBound(updatedAt);
    CharsBound("grimpan/1");
    CharsBound("board");
    CharsBound("");
    SmallAgent(number, Blank(title, revision, updatedAt).agent);
  }

  lemma {:induction false} DigitCountSmall(n: nat, k: nat)
    requires k >= 1 && n < Ten(k)
    ensures DigitCount(n) <= k
  {
    if n >= 10 { DigitCountSmall(n / 10, k - 1); }
  }

  function Ten(k: nat): nat { if k == 0 then 1 else 10 * Ten(k - 1) }

  lemma TenTo16()
    ensures Ten(16) == 10000000000000000
  {
    assert Ten(2) == 100 && Ten(4) == 100 * Ten(2) && Ten(6) == 100 * Ten(4) && Ten(8) == 100 * Ten(6);
    assert Ten(10) == 100 * Ten(8) && Ten(12) == 100 * Ten(10) && Ten(14) == 100 * Ten(12) && Ten(16) == 100 * Ten(14);
  }

  const LEAST := 100000

  /** Under every header there is a sound board of exactly any size from there on to the limit. */
  lemma BoardOfSize(h: Host, number: real -> nat, title: string, revision: nat, updatedAt: string, size: nat)
    returns (d: Document)
    requires Printed(number) && |title| <= 200 && revision <= MAX_SAFE_INTEGER && Timestamp(h, updatedAt)
    requires LEAST <= size <= MAX_BYTES
    ensures Sound(JsonHost(h, number), d, true) && JsonSize(number, d) == size
    ensures exists boxes :: d == Blank(title, revision, updatedAt).(objects := boxes)
  {
    hide JsonSize, Timestamp, Sound, Boxes, ObjectsSize, Printed, JsonHost;
    var blank := Blank(title, revision, updatedAt);
    BlankIsSmall(number, h, title, revision, updatedAt);
    EmptyBoxesAreSmall(number, BOXES);
    var room := size + 1 - JsonSize(number, blank) - EmptyBoxes(number, BOXES);
    var bytes, extra := room / BOXES, room % BOXES;
    d := FilledBoard(title, revision, updatedAt, bytes, extra);
    BoxesSize(number, BOXES, bytes, extra);
    NoBoxes(number, bytes, extra);
    FilledSize(number, blank, Boxes(BOXES, bytes, extra));
    BlankTakesTwo(number, blank);
    assert BOXES * bytes + extra == room;
    assert ObjectsSize(number, Boxes(BOXES, bytes, extra)) == EmptyBoxes(number, BOXES) + room;
    assert JsonSize(number, d) == size;
    JsonTimes(h, number, updatedAt);
    FilledIsSound(JsonHost(h, number), title, revision, updatedAt, bytes, extra);
  }

  /** Under every header there is a valid board of exactly the size that boards may have. */
  lemma FullBoard(h: Host, number: real -> nat, title: string, revision: nat, updatedAt: string) returns (d: Document)
    requires Printed(number) && |title| <= 200 && revision <= MAX_SAFE_INTEGER && Timestamp(h, updatedAt)
    ensures d.title == title && d.revision == revision && d.updatedAt == updatedAt
    ensures Sound(JsonHost(h, number), d, true) && JsonSize(number, d) == MAX_BYTES
  {
    hide JsonSize, Timestamp, Sound, Printed, JsonHost;
    d := BoardOfSize(h, number, title, revision, updatedAt, MAX_BYTES);
  }

  lemma BlankTakesTwo(number: real -> nat, d: Document)
    requires d.objects == []
    ensures Bracketed(ObjectsSize(number, d.objects)) == 2
  {}
}
