/** Reading a snapshot back: the lengths frame the bodies, so nothing in a body is mistaken for a header. */
module TtlSnapshot {
  import opened Basics
  import opened TtlBoard

  /** What a reader sees of a message. */
  datatype View = View(unix: int, body: string)

  /** Newest first, as in the snapshot. */
  function Views(messages: seq<Message>): seq<View> {
    if messages == [] then []
    else
      var m := messages[|messages| - 1];
      [View(Unix(m.expiresAt), m.body)] + Views(messages[..|messages| - 1])
  }

  function LineEnd(s: string): (i: nat)
    ensures i <= |s| && (i < |s| ==> s[i] == '\n') && forall k :: 0 <= k < i ==> s[k] != '\n'
  {
    if s == "" || s[0] == '\n' then 0 else 1 + LineEnd(s[1..])
  }

  function NatOf(s: string): nat {
    if s == "" then 0
    else NatOf(s[..|s| - 1]) * 10 + if '0' <= s[|s| - 1] <= '9' then s[|s| - 1] as int - '0' as int else 0
  }

  function IntOf(s: string): int { if s != "" && s[0] == '-' then 0 - NatOf(s[1..]) else NatOf(s) }

  /** A header line with its value, and what follows it. */
  function Field(name: string, s: string): Option<(string, string)> {
    if !(name <= s) then None
    else
      var rest := s[|name|..];
      var i := LineEnd(rest);
      if i == |rest| then None else Some((rest[..i], rest[i + 1..]))
  }

  function Parse(s: string): Option<seq<View>>
    decreases |s|
  {
    if s == "" then Some([])
    else
      match Field(EXPIRES, s)
      case None => None
      case Some((unix, afterExpires)) =>
        match Field(LENGTH, afterExpires)
        case None => None
        case Some((length, framed)) =>
          var n := NatOf(length);
          if |framed| < n + 3 || framed[0] != '\n' || framed[1 + n] != '\n' || framed[2 + n] != '\n' then None
          else
            match Parse(framed[n + 3..])
            case None => None
            case Some(views) => Some([View(IntOf(unix), framed[1..1 + n])] + views)
  }

  // ---------- numbers ----------

  predicate AllDigits(s: string) { forall i :: 0 <= i < |s| ==> '0' <= s[i] <= '9' }

  lemma {:induction false} DigitsRead(n: nat)
    ensures NatOf(Digits(n)) == n && Digits(n) != "" && AllDigits(Digits(n))
  {
    if n >= 10 {
      DigitsRead(n / 10);
      assert Digits(n)[..|Digits(n)| - 1] == Digits(n / 10);
    } else {
      assert Digits(n)[..0] == "";
    }
  }

  lemma DecimalRead(n: int)
    ensures IntOf(Decimal(n)) == n && forall i :: 0 <= i < |Decimal(n)| ==> Decimal(n)[i] != '\n'
    ensures n >= 0 ==> NatOf(Decimal(n)) == n
  {
    DigitsRead(if n < 0 then -n else n);
  }

  lemma {:induction false} NoLeadingZero(n: nat)
    ensures AllDigits(Digits(n)) && Digits(n) != "" && (Digits(n)[0] == '0' <==> n == 0)
    ensures |Digits(n)| > 1 ==> n >= 10
  {
    if n >= 10 { NoLeadingZero(n / 10); }
  }

  /** Numbers are printed with a sign exactly when negative, and without leading zeros. */
  lemma DecimalText(n: int)
    ensures var digits := if n < 0 then Decimal(n)[1..] else Decimal(n);
            && (n < 0 ==> Decimal(n)[0] == '-') && AllDigits(digits) && digits != ""
            && (digits[0] == '0' <==> n == 0) && (n == 0 ==> digits == "0")
  {
    hide Digits;
    NoLeadingZero(if n < 0 then -n else n);
    assert n == 0 ==> Digits(0) == "0" by { ZeroText(); }
  }

  lemma ZeroText()
    ensures Digits(0) == "0"
  {}

  /** One message on the wire. */
  lemma FrameText(m: Message)
    ensures Render([m])
            == "Expires-At-Unix: " + Decimal(m.expiresAt / 1000000000) + "\n"
               + "Content-Length: " + Decimal(|m.body|) + "\n\n" + m.body + "\n\n"
  {
    hide Decimal;
    assert [m][..0] == [] && Render([m][..0]) == "";
    assert Framed(m) + "" == Framed(m);
  }

  // ---------- the round trip ----------

  lemma FieldRead(name: string, value: string, rest: string)
    requires forall i :: 0 <= i < |value| ==> value[i] != '\n'
    ensures Field(name, name + value + "\n" + rest) == Some((value, rest))
  {
    var s := name + value + "\n" + rest;
    var t := value + "\n" + rest;
    assert s[|name|..] == t;
    assert t[|value|] == '\n';
    assert forall k :: 0 <= k < |value| ==> t[k] == value[k];
    assert LineEnd(t) == |value|;
    assert s == name + t && t[..|value|] == value && t[|value| + 1..] == rest;
  }

  lemma FrameRead(m: Message, rest: string)
    requires Parse(rest).Some?
    ensures Parse(Framed(m) + rest) == Some([View(Unix(m.expiresAt), m.body)] + Parse(rest).value)
  {
    hide Field, Decimal, NatOf, IntOf, LineEnd;
    var unix, length := Decimal(Unix(m.expiresAt)), Decimal(|m.body|);
    var framed := "\n" + m.body + "\n\n" + rest;
    var afterExpires := LENGTH + length + "\n" + framed;
    assert Framed(m) + rest == EXPIRES + unix + "\n" + afterExpires;
    DecimalRead(Unix(m.expiresAt));
    DecimalRead(|m.body|);
    FieldRead(EXPIRES, unix, afterExpires);
    FieldRead(LENGTH, length, framed);
    assert framed[|m.body| + 3..] == rest && framed[1..1 + |m.body|] == m.body;
  }

  /** Parsing a snapshot gives back every message, whatever the bodies hold. */
  lemma {:induction false} RenderRead(messages: seq<Message>)
    ensures Parse(Render(messages)) == Some(Views(messages))
  {
    hide Framed;
    if messages != [] {
      RenderRead(messages[..|messages| - 1]);
      FrameRead(messages[|messages| - 1], Render(messages[..|messages| - 1]));
    }
  }

  /** Two boards with the same snapshot show the same messages. */
  lemma RenderIsInjective(a: seq<Message>, b: seq<Message>)
    ensures Render(a) == Render(b) <==> Views(a) == Views(b)
  {
    RenderRead(a);
    RenderRead(b);
    if Views(a) == Views(b) { SameViews(a, b); }
  }

  lemma {:induction false} SameViews(a: seq<Message>, b: seq<Message>)
    requires Views(a) == Views(b)
    ensures Render(a) == Render(b)
  {
    hide Decimal, Unix;
    if a != [] && b != [] {
      var x, y := a[|a| - 1], b[|b| - 1];
      assert Views(a)[0] == Views(b)[0] && Views(a)[1..] == Views(a[..|a| - 1]) && Views(b)[1..] == Views(b[..|b| - 1]);
      SameViews(a[..|a| - 1], b[..|b| - 1]);
      assert Framed(x) == Framed(y);
    }
  }
}
