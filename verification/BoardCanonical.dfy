/**
 The text whose digest names a board: JSON with the keys of every object sorted, and without
 the two collections that boards did not always have when these are empty. Two boards have the
 same text exactly when they are the same, so only the digest itself could confuse them. Keys
 are plain letters, which every platform orders alike; a number is the text it is printed as.
 */
module BoardCanonical {
  import opened Basics
  import opened PythonText
  import opened BoardDocument
  import BoardShare
  import BoardProvenance

  predicate NumberChar(c: char) { '0' <= c <= '9' || c == '+' || c == '-' || c == '.' || c == 'e' }

  type NumberText = s: string | s != "" && forall i :: 0 <= i < |s| ==> NumberChar(s[i]) witness "0"

  datatype Json =
    | Null
    | Truth(b: bool)
    | Number(text: NumberText)
    | Str(s: string)
    | Arr(items: seq<Json>)
    | Obj(fields: map<string, Json>)

  // ---------- strings ----------

  function HexDigit(n: nat): char
    requires n < 16
  {
    if n < 10 then '0' + n as char else 'a' + (n - 10) as char
  }

  function Escaped(c: char): string {
    if c == '"' then "\\\""
    else if c == '\\' then "\\\\"
    else if c == '\U{8}' then "\\b"
    else if c == '\t' then "\\t"
    else if c == '\n' then "\\n"
    else if c == '\U{C}' then "\\f"
    else if c == '\r' then "\\r"
    else if c < ' ' then "\\u00" + [HexDigit(c as int / 16), HexDigit(c as int % 16)]
    else [c]
  }

  function EscapedAll(s: string): string { if s == "" then "" else Escaped(s[0]) + EscapedAll(s[1..]) }

  function Quoted(s: string): string { "\"" + EscapedAll(s) + "\"" }

  lemma EscapedOnce(c: char, d: char, x: string, y: string)
    requires Escaped(c) + x == Escaped(d) + y
    ensures c == d && x == y
  {
    var s := Escaped(c) + x;
    assert s[0] == Escaped(c)[0] == Escaped(d)[0];
    if s[0] == '\\' {
      assert s[1] == Escaped(c)[1] == Escaped(d)[1];
      if s[1] == 'u' {
        assert s[4] == Escaped(c)[4] == Escaped(d)[4] && s[5] == Escaped(c)[5] == Escaped(d)[5];
      }
    }
    assert c == d;
    assert s[|Escaped(c)|..] == x && s[|Escaped(d)|..] == y;
  }

  /** A string literal after its opening quote, and what follows it. */
  function Literal(s: string, x: string): string { EscapedAll(s) + "\"" + x }

  lemma LiteralOpens(s: string, x: string)
    ensures if s == "" then Literal(s, x) == "\"" + x
            else Literal(s, x) == Escaped(s[0]) + Literal(s[1..], x) && Literal(s, x)[0] != '"'
  {
    if s != "" { assert Literal(s, x)[0] == Escaped(s[0])[0]; }
  }

  lemma {:induction false} LiteralOnce(s: string, t: string, x: string, y: string)
    requires Literal(s, x) == Literal(t, y)
    ensures s == t && x == y
  {
    hide Escaped, Literal;
    LiteralOpens(s, x);
    LiteralOpens(t, y);
    if s == "" || t == "" {
      assert x == Literal(s, x)[1..] && y == Literal(t, y)[1..];
    } else {
      EscapedOnce(s[0], t[0], Literal(s[1..], x), Literal(t[1..], y));
      LiteralOnce(s[1..], t[1..], x, y);
      assert s == [s[0]] + s[1..] == [t[0]] + t[1..] == t;
    }
  }

  // ---------- reading strings, section 7 of RFC 8259 ----------

  function HexValue(c: char): Option<nat> {
    if '0' <= c <= '9' then Some(c as int - '0' as int)
    else if 'a' <= c <= 'f' then Some(10 + (c as int - 'a' as int))
    else if 'A' <= c <= 'F' then Some(10 + (c as int - 'A' as int))
    else None
  }

  /** The character of four hexadecimal digits; halves of surrogate pairs are not read. */
  function CodeUnit(t: string): Option<char>
    requires |t| >= 4
  {
    var a, b, c, d := HexValue(t[0]), HexValue(t[1]), HexValue(t[2]), HexValue(t[3]);
    if a.None? || b.None? || c.None? || d.None? then None
    else
      var n := ((a.value * 16 + b.value) * 16 + c.value) * 16 + d.value;
      if 0xD800 <= n < 0xE000 || n >= 0x10000 then None else Some(n as char)
  }

  /** What a backslash and a letter stand for. */
  function Unescaped(letter: char): Option<char> {
    if letter == '"' || letter == '\\' || letter == '/' then Some(letter)
    else if letter == 'b' then Some('\U{8}')
    else if letter == 'f' then Some('\U{C}')
    else if letter == 'n' then Some('\U{A}')
    else if letter == 'r' then Some('\U{D}')
    else if letter == 't' then Some('\U{9}')
    else None
  }

  /** The first character of a string literal after its opening quote, and the rest of the text. */
  function ReadChar(t: string): Option<(char, string)> {
    if t == "" || t[0] == '"' || t[0] < '\U{20}' then None
    else if t[0] != '\\' then Some((t[0], t[1..]))
    else if |t| >= 6 && t[1] == 'u' then
      match CodeUnit(t[2..6])
      case None => None
      case Some(c) => Some((c, t[6..]))
    else if |t| >= 2 && Unescaped(t[1]).Some? then Some((Unescaped(t[1]).value, t[2..]))
    else None
  }

  /** A string literal after its opening quote: what it stands for, and the rest of the text. */
  function ReadString(t: string): Option<(string, string)>
    decreases |t|
  {
    if t != "" && t[0] == '"' then Some(("", t[1..]))
    else
      match ReadChar(t)
      case None => None
      case Some((c, rest)) =>
        match ReadString(rest)
        case None => None
        case Some((s, after)) => Some(([c] + s, after))
  }

  lemma HexDigitReads(n: nat)
    requires n < 16
    ensures HexValue(HexDigit(n)) == Some(n)
  {}

  lemma CharReadsBack(c: char, rest: string)
    ensures ReadChar(Escaped(c) + rest) == Some((c, rest)) && (Escaped(c) + rest)[0] != '"'
  {
    var t := Escaped(c) + rest;
    assert t[|Escaped(c)|..] == rest;
    if c < ' ' && |Escaped(c)| == 6 {
      var code := c as int;
      HexDigitReads(code / 16);
      HexDigitReads(code % 16);
      assert t[2..6] == ['0', '0', HexDigit(code / 16), HexDigit(code % 16)];
    }
  }

  /** Every string literal written stands for the string. */
  lemma {:induction false} StringReadsBack(s: string, x: string)
    ensures ReadString(Literal(s, x)) == Some((s, x))
  {
    hide Escaped, ReadChar, Literal;
    LiteralOpens(s, x);
    if s == "" {
      assert Literal(s, x)[1..] == x;
    } else {
      CharReadsBack(s[0], Literal(s[1..], x));
      StringReadsBack(s[1..], x);
      assert [s[0]] + s[1..] == s;
    }
  }

  // ---------- keys in order ----------

  lemma {:induction false} LeastExists(keys: set<string>)
    requires keys != {}
    ensures exists k :: k in keys && forall j :: j in keys ==> StrLeq(k, j)
  {
    var k :| k in keys;
    var rest := keys - {k};
    StrLeqOrder(k, k, k);
    if rest == {} {
      assert keys == {k};
    } else {
      LeastExists(rest);
      var m :| m in rest && forall j :: j in rest ==> StrLeq(m, j);
      StrLeqOrder(k, m, m);
      forall j | j in keys ensures StrLeq(if StrLeq(k, m) then k else m, j) { StrLeqOrder(k, m, j); }
    }
  }

  ghost function Sorted(keys: set<string>): (r: seq<string>)
    ensures forall k :: k in r <==> k in keys
    ensures forall i, j :: 0 <= i < j < |r| ==> r[i] != r[j] && StrLeq(r[i], r[j])
  {
    if keys == {} then []
    else
      LeastExists(keys);
      var k :| k in keys && forall j :: j in keys ==> StrLeq(k, j);
      [k] + Sorted(keys - {k})
  }

  // ---------- the text ----------

  /** Each part after a comma. */
  function Following(parts: seq<string>): string {
    if parts == [] then "" else "," + parts[0] + Following(parts[1..])
  }

  /** `canonical`. */
  ghost function Canonical(v: Json): string
    decreases v, 1
  {
    match v
    case Null => "null"
    case Truth(b) => if b then "true" else "false"
    case Number(text) => text
    case Str(s) => Quoted(s)
    case Arr(items) => "[" + Join(Texts(items), ",") + "]"
    case Obj(fields) => "{" + Join(FieldTexts(v), ",") + "}"
  }

  ghost function Texts(items: seq<Json>): (r: seq<string>)
    ensures |r| == |items| && forall i :: 0 <= i < |r| ==> r[i] == Canonical(items[i])
    decreases items, 0
  {
    seq(|items|, i requires 0 <= i < |items| => Canonical(items[i]))
  }

  ghost function Field(v: Json, key: string): string
    requires v.Obj? && key in v.fields
    decreases v, 0, 0
  {
    Quoted(key) + ":" + Canonical(v.fields[key])
  }

  ghost function FieldTexts(v: Json): (r: seq<string>)
    requires v.Obj?
    ensures |r| == |Sorted(v.fields.Keys)| && forall i :: 0 <= i < |r| ==> r[i] == Field(v, Sorted(v.fields.Keys)[i])
    decreases v, 0, 1
  {
    var keys := Sorted(v.fields.Keys);
    seq(|keys|, i requires 0 <= i < |keys| => Field(v, keys[i]))
  }

  // ---------- one text, one value ----------

  predicate IsClosing(c: char) { c == ',' || c == ']' || c == '}' }

  /** What may follow a value inside another one. */
  predicate Closes(x: string) { x == "" || IsClosing(x[0]) }

  /** Neither text is the other one closed early. */
  predicate Apart(p: string, q: string) {
    && (p < q ==> !IsClosing(q[|p|]))
    && (q < p ==> !IsClosing(p[|q|]))
  }

  lemma ClosedEarly(p: string, q: string, x: string, y: string)
    requires p + x == q + y && |p| < |q| && Closes(x)
    ensures p < q && IsClosing(q[|p|])
  {
    var u := p + x;
    assert u == q + y;
    assert p == u[..|p|] == q[..|p|];
    assert u[|p|] == x[0];
  }

  lemma ApartOnce(p: string, q: string, x: string, y: string)
    requires Apart(p, q) && Closes(x) && Closes(y) && p + x == q + y
    ensures p == q && x == y
  {
    if |p| < |q| { ClosedEarly(p, q, x, y); }
    if |q| < |p| { ClosedEarly(q, p, y, x); }
    var u := p + x;
    assert u[..|p|] == p && u[..|q|] == q && u[|p|..] == x && u[|q|..] == y;
  }

  /** The rest of a list, its closing bracket, and what follows. */
  function Listed(parts: seq<string>, close: char, x: string): string { Following(parts) + [close] + x }

  lemma ListedOpens(parts: seq<string>, close: char, x: string)
    ensures if parts == [] then Listed(parts, close, x) == [close] + x
            else Listed(parts, close, x) == "," + (parts[0] + Listed(parts[1..], close, x))
    ensures IsClosing(close) ==> Closes(Listed(parts, close, x))
  {}

  lemma {:induction false} ListedOnce(parts: seq<string>, others: seq<string>, close: char, x: string, y: string)
    requires Listed(parts, close, x) == Listed(others, close, y)
    requires close != ',' && IsClosing(close)
    requires forall i :: 0 <= i < |parts| && i < |others| ==> Apart(parts[i], others[i])
    ensures parts == others && x == y
  {
    hide Apart, Listed;
    ListedOpens(parts, close, x);
    ListedOpens(others, close, y);
    var u := Listed(parts, close, x);
    if parts == [] || others == [] {
      assert x == u[1..] && y == u[1..];
    } else {
      var v, w := Listed(parts[1..], close, x), Listed(others[1..], close, y);
      ListedOpens(parts[1..], close, x);
      ListedOpens(others[1..], close, y);
      assert u[1..] == parts[0] + v && u[1..] == others[0] + w;
      ApartOnce(parts[0], others[0], v, w);
      forall i | 0 <= i < |parts[1..]| && i < |others[1..]| ensures Apart(parts[1..][i], others[1..][i]) {
        assert Apart(parts[i + 1], others[i + 1]);
      }
      ListedOnce(parts[1..], others[1..], close, x, y);
      assert parts == [parts[0]] + parts[1..] == [others[0]] + others[1..] == others;
    }
  }

  predicate Opens(parts: seq<string>) { parts != [] ==> parts[0] != "" && !IsClosing(parts[0][0]) }

  lemma {:induction false} JoinIsFollowing(parts: seq<string>)
    requires parts != []
    ensures "," + Join(parts, ",") == Following(parts)
  {
    if |parts| > 1 {
      JoinIsFollowing(parts[1..]);
      CommaFirst(parts[0], Join(parts[1..], ","));
    } else {
      assert Following(parts[1..]) == "";
    }
  }

  lemma CommaFirst(first: string, rest: string)
    ensures "," + (first + "," + rest) == "," + first + ("," + rest)
  {}

  lemma JoinOpens(parts: seq<string>, close: char, x: string)
    requires Opens(parts) && IsClosing(close)
    ensures var u := Join(parts, ",") + [close] + x;
            && (IsClosing(u[0]) <==> parts == [])
            && (if parts == [] then u[1..] == x else "," + u == Listed(parts, close, x))
  {
    if parts != [] { JoinIsFollowing(parts); }
  }

  /** What is joined can be told apart again, as long as no part can be mistaken for another one closed early. */
  lemma JoinOnce(parts: seq<string>, others: seq<string>, close: char, x: string, y: string)
    requires Join(parts, ",") + [close] + x == Join(others, ",") + [close] + y
    requires close != ',' && IsClosing(close) && Opens(parts) && Opens(others)
    requires forall i :: 0 <= i < |parts| && i < |others| ==> Apart(parts[i], others[i])
    ensures parts == others && x == y
  {
    hide Apart, Join, Listed, Opens;
    JoinOpens(parts, close, x);
    JoinOpens(others, close, y);
    if parts != [] { ListedOnce(parts, others, close, x, y); }
  }

  /** What a value is, told by the first character of its text. */
  function Shape(c: char): nat {
    match c case 'n' => 0 case 't' => 1 case 'f' => 2 case '"' => 3 case '[' => 4 case '{' => 5 case _ => 6
  }

  function ShapeOf(v: Json): nat {
    match v
    case Null => 0
    case Truth(b) => if b then 1 else 2
    case Str(_) => 3
    case Arr(_) => 4
    case Obj(_) => 5
    case Number(_) => 6
  }

  lemma CanonicalOpens(v: Json)
    ensures Canonical(v) != "" && Shape(Canonical(v)[0]) == ShapeOf(v) && !IsClosing(Canonical(v)[0])
  {
    hide Join, EscapedAll;
    if v.Number? { assert NumberChar(v.text[0]); }
  }

  lemma NumbersApart(s: NumberText, t: NumberText)
    ensures Apart(s, t)
  {
    if s < t { assert NumberChar(t[|s|]); }
    if t < s { assert NumberChar(s[|t|]); }
  }

  /** A text can be read as a value followed by something in one way only. */
  lemma {:induction false} ReadOnce(a: Json, b: Json, x: string, y: string)
    requires Canonical(a) + x == Canonical(b) + y && Closes(x) && Closes(y)
    ensures a == b && x == y
    decreases a, 2
  {
    hide Apart, Join, Closes, Literal, Texts, FieldTexts, Shape, Canonical;
    CanonicalOpens(a);
    CanonicalOpens(b);
    Body(a, x);
    Body(b, y);
    assert ShapeOf(a) == ShapeOf(b) by { assert (Canonical(a) + x)[0] == Canonical(a)[0] == Canonical(b)[0]; }
    if a.Number? {
      NumbersApart(a.text, b.text);
      ApartOnce(a.text, b.text, x, y);
    } else if a.Str? {
      LiteralOnce(a.s, b.s, x, y);
    } else if a.Arr? {
      ItemsOnce(a.items, b.items, x, y);
    } else if a.Obj? {
      FieldsOnce(a, b, x, y);
    } else {
      assert (Canonical(a) + x)[|Canonical(a)|..] == x && (Canonical(b) + y)[|Canonical(a)|..] == y;
    }
  }

  /** A text behind its first character. */
  lemma Body(v: Json, x: string)
    ensures Canonical(v) != ""
    ensures var rest := (Canonical(v) + x)[1..];
            && (v.Number? ==> Canonical(v) == v.text)
            && (v.Str? ==> rest == Literal(v.s, x))
            && (v.Arr? ==> rest == Join(Texts(v.items), ",") + "]" + x)
            && (v.Obj? ==> rest == Join(FieldTexts(v), ",") + "}" + x)
  {
    hide Join, EscapedAll, Texts, FieldTexts;
  }

  lemma {:induction false} AreApart(a: Json, b: Json)
    ensures Apart(Canonical(a), Canonical(b))
    decreases a, 3
  {
    hide Canonical;
    var p, q := Canonical(a), Canonical(b);
    if p < q && IsClosing(q[|p|]) {
      assert p + q[|p|..] == q + "";
      ReadOnce(a, b, q[|p|..], "");
    } else if q < p && IsClosing(p[|q|]) {
      assert p + "" == q + p[|q|..];
      ReadOnce(a, b, "", p[|q|..]);
    }
  }

  lemma {:induction false} ItemsOnce(items: seq<Json>, others: seq<Json>, x: string, y: string)
    requires Join(Texts(items), ",") + "]" + x == Join(Texts(others), ",") + "]" + y
    ensures items == others && x == y
    decreases items, 0
  {
    hide Apart, Join, Canonical;
    forall i | 0 <= i < |items| && i < |others| ensures Apart(Texts(items)[i], Texts(others)[i]) {
      AreApart(items[i], others[i]);
    }
    if items != [] { CanonicalOpens(items[0]); }
    if others != [] { CanonicalOpens(others[0]); }
    JoinOnce(Texts(items), Texts(others), ']', x, y);
    forall i | 0 <= i < |items| ensures items[i] == others[i] {
      assert Texts(items)[i] == Texts(others)[i];
      ReadOnce(items[i], others[i], "", "");
    }
  }

  lemma {:induction false} FieldsOnce(a: Json, b: Json, x: string, y: string)
    requires a.Obj? && b.Obj? && Join(FieldTexts(a), ",") + "}" + x == Join(FieldTexts(b), ",") + "}" + y
    ensures a == b && x == y
    decreases a, 1
  {
    hide Apart, Join, Field, Sorted;
    var ks, js := Sorted(a.fields.Keys), Sorted(b.fields.Keys);
    var parts, others := FieldTexts(a), FieldTexts(b);
    forall i | 0 <= i < |parts| && i < |others| ensures Apart(parts[i], others[i]) { FieldsApart(a, b, ks[i], js[i]); }
    if parts != [] { FieldOpens(a, ks[0]); }
    if others != [] { FieldOpens(b, js[0]); }
    JoinOnce(parts, others, '}', x, y);
    forall i | 0 <= i < |ks| ensures ks[i] == js[i] && a.fields[ks[i]] == b.fields[js[i]] {
      assert parts[i] == others[i];
      FieldOnce(a, b, ks[i], js[i], "", "");
    }
    SameFields(a, b, ks, js);
  }

  lemma SameFields(a: Json, b: Json, ks: seq<string>, js: seq<string>)
    requires a.Obj? && b.Obj? && |ks| == |js|
    requires (forall k :: k in ks <==> k in a.fields) && forall k :: k in js <==> k in b.fields
    requires forall i :: 0 <= i < |ks| ==> ks[i] == js[i] && a.fields[ks[i]] == b.fields[js[i]]
    ensures a == b
  {
    assert ks == js;
    assert a.fields.Keys == b.fields.Keys;
    assert a.fields == b.fields;
  }

  lemma FieldOpens(v: Json, k: string)
    requires v.Obj? && k in v.fields
    ensures Field(v, k) != "" && !IsClosing(Field(v, k)[0])
  {}

  lemma {:induction false} FieldOnce(a: Json, b: Json, k: string, j: string, x: string, y: string)
    requires a.Obj? && b.Obj? && k in a.fields && j in b.fields
    requires Field(a, k) + x == Field(b, j) + y && Closes(x) && Closes(y)
    ensures k == j && a.fields[k] == b.fields[j] && x == y
    decreases a, 0, 0
  {
    hide Canonical, EscapedAll, Closes;
    var u := Field(a, k) + x;
    var v, w := Canonical(a.fields[k]) + x, Canonical(b.fields[j]) + y;
    assert u[1..] == Literal(k, ":" + v) && u[1..] == Literal(j, ":" + w);
    LiteralOnce(k, j, ":" + v, ":" + w);
    assert (":" + v)[1..] == v && (":" + w)[1..] == w;
    ReadOnce(a.fields[k], b.fields[j], x, y);
  }

  lemma {:induction false} FieldsApart(a: Json, b: Json, k: string, j: string)
    requires a.Obj? && b.Obj? && k in a.fields && j in b.fields
    ensures Apart(Field(a, k), Field(b, j))
    decreases a, 0, 1
  {
    hide Field;
    var p, q := Field(a, k), Field(b, j);
    if p < q && IsClosing(q[|p|]) {
      assert p + q[|p|..] == q + "";
      FieldOnce(a, b, k, j, q[|p|..], "");
    } else if q < p && IsClosing(p[|q|]) {
      assert p + "" == q + p[|q|..];
      FieldOnce(a, b, k, j, "", p[|q|..]);
    }
  }

  /** Two values have the same text exactly when they are the same; a map of fields has no order. */
  lemma SameTextSameValue(a: Json, b: Json)
    ensures Canonical(a) == Canonical(b) <==> a == b
  {
    if Canonical(a) == Canonical(b) { ReadOnce(a, b, "", ""); }
  }

  // ---------- boards ----------

  const LATER_COLLECTIONS: seq<string> := ["reactions", "frames"]

  /** The fields of a board without the later collections that are empty. */
  function Trimmed(fields: map<string, Json>): map<string, Json> {
    map k | k in fields && !(k in LATER_COLLECTIONS && fields[k] == Arr([])) :: fields[k]
  }

  /** The text that is digested. */
  ghost function DigestedText(fields: map<string, Json>): string { Canonical(Obj(Trimmed(fields))) }

  predicate HasCollections(fields: map<string, Json>) { forall k :: k in LATER_COLLECTIONS ==> k in fields }

  /** Leaving out what is empty confuses no boards that have both collections, as every validated one has. */
  lemma SameDigestedText(a: map<string, Json>, b: map<string, Json>)
    requires HasCollections(a) && HasCollections(b)
    ensures DigestedText(a) == DigestedText(b) <==> a == b
  {
    hide Canonical;
    SameTextSameValue(Obj(Trimmed(a)), Obj(Trimmed(b)));
    if Trimmed(a) == Trimmed(b) {
      forall k | k in a || k in b ensures k in a && k in b && a[k] == b[k] {
        assert k in Trimmed(a) <==> k in Trimmed(b);
        if k in Trimmed(a) { assert Trimmed(a)[k] == Trimmed(b)[k]; }
      }
      assert a.Keys == b.Keys;
    }
  }

  /** A board from before the later collections keeps its text when validation adds them empty. */
  lemma OldTextsStay(fields: map<string, Json>)
    requires forall k :: k in LATER_COLLECTIONS ==> k !in fields
    ensures DigestedText(fields["reactions" := Arr([])]["frames" := Arr([])]) == Canonical(Obj(fields))
  {
    hide Canonical;
    assert Trimmed(fields["reactions" := Arr([])]["frames" := Arr([])]) == fields;
  }

  /**
   If boards differ in their fields when they differ at all, and no two texts at hand share a
   digest, then no two boards do.
   */
  lemma DigestsOfBoards(h: Host, all: iset<Document>, fields: Document -> map<string, Json>, sha: string -> string)
    requires forall d ::
             d in all ==>
             h.digest(d) == sha(DigestedText(fields(d))) && Digest(h.digest(d)) && HasCollections(fields(d))
    requires forall a, b :: a in all && b in all && fields(a) == fields(b) ==> a == b
    requires forall a, b :: a in all && b in all && sha(DigestedText(fields(a))) == sha(DigestedText(fields(b))) ==>
               DigestedText(fields(a)) == DigestedText(fields(b))
    ensures BoardProvenance.CollisionFree(h, all)
  {
    hide DigestedText, Digest, HasCollections;
    forall a, b | a in all && b in all && h.digest(a) == h.digest(b) ensures a == b {
      SameDigestedText(fields(a), fields(b));
    }
  }
}
