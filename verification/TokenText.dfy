/** Text rules around the tokenizer: whitespace, reserved markers, joining and splitting. */
module TokenText {
  import opened Basics
  import opened PythonText

  const WORD_START: string := "▁"
  const MARK: char := '▁'
  const SPECIAL_PIECES: seq<string> := ["[PAD]", "[UNK]", "[CLS]", "[SEP]", "[MASK]"]
  const UNK: string := "[UNK]"

  datatype TextError = ReservedMarker | Blank

  function WordLength(t: string): (n: nat)
    ensures n <= |t|
    ensures forall i :: 0 <= i < n ==> !IsSpace(t[i])
    ensures n < |t| ==> IsSpace(t[n])
  {
    if t == "" || IsSpace(t[0]) then 0 else 1 + WordLength(t[1..])
  }

  /** `text.split()`: the maximal runs of non-space characters. */
  function Split(t: string): seq<string>
    decreases |t|
  {
    if t == "" then []
    else if IsSpace(t[0]) then Split(t[1..])
    else [t[..WordLength(t)]] + Split(t[WordLength(t)..])
  }

  predicate IsReserved(text: string) {
    Contains(text, WORD_START) || exists i :: 0 <= i < |SPECIAL_PIECES| && Contains(text, SPECIAL_PIECES[i])
  }

  /** `normalize_text` on a text whose NFKC form is given. */
  function Normalize(nfkc: string): Result<string, TextError> {
    if IsReserved(nfkc) then Err(ReservedMarker)
    else if Split(nfkc) == [] then Err(Blank)
    else Ok(Join(Split(nfkc), " "))
  }

  ghost predicate Plain(w: string) {
    w != "" && forall i :: 0 <= i < |w| ==> !IsSpace(w[i])
  }

  /** A word that can reach training or encoding. */
  ghost predicate CleanWord(w: string) { Plain(w) && !IsReserved(w) }

  lemma ContainsWider(left: string, w: string, right: string, part: string)
    requires Contains(w, part)
    ensures Contains(left + w + right, part)
  {
    var i :| 0 <= i <= |w| && PartAt(w, part, i);
    var t := left + w + right;
    assert t[|left| + i..|left| + i + |part|] == w[i..i + |part|];
    assert PartAt(t, part, |left| + i);
  }

  lemma ReservedWider(left: string, w: string, right: string)
    requires IsReserved(w)
    ensures IsReserved(left + w + right)
  {
    if Contains(w, WORD_START) {
      ContainsWider(left, w, right, WORD_START);
    } else {
      var i :| 0 <= i < |SPECIAL_PIECES| && Contains(w, SPECIAL_PIECES[i]);
      ContainsWider(left, w, right, SPECIAL_PIECES[i]);
    }
  }

  lemma {:induction false} SplitWords(t: string)
    ensures forall w :: w in Split(t) ==> Plain(w)
    ensures !IsReserved(t) ==> forall w :: w in Split(t) ==> CleanWord(w)
    decreases |t|
  {
    if t == "" {
    } else if IsSpace(t[0]) {
      SplitWords(t[1..]);
      if IsReserved(t[1..]) { ReservedWider(t[..1], t[1..], ""); assert t[..1] + t[1..] + "" == t; }
    } else {
      var n := WordLength(t);
      SplitWords(t[n..]);
      if IsReserved(t[n..]) { ReservedWider(t[..n], t[n..], ""); assert t[..n] + t[n..] + "" == t; }
      if IsReserved(t[..n]) { ReservedWider("", t[..n], t[n..]); assert "" + t[..n] + t[n..] == t; }
    }
  }

  lemma {:induction false} PlainWordLength(w: string, rest: string)
    requires (forall i :: 0 <= i < |w| ==> !IsSpace(w[i])) && (rest == "" || IsSpace(rest[0]))
    ensures WordLength(w + rest) == |w|
  {
    if w == "" {
      assert w + rest == rest;
    } else {
      PlainWordLength(w[1..], rest);
      assert (w + rest)[1..] == w[1..] + rest && (w + rest)[0] == w[0];
    }
  }

  lemma JoinSteps(words: seq<string>)
    ensures Join(words, " ") ==
            if words == [] then "" else if |words| == 1 then words[0] else words[0] + (" " + Join(words[1..], " "))
  {
    if |words| > 1 { Regrouped(words[0], " ", Join(words[1..], " ")); }
  }

  lemma NothingToSplit()
    ensures Split("") == []
  {}

  lemma SpaceSkipped(rest: string)
    ensures Split(" " + rest) == Split(rest)
  {
    assert (" " + rest)[1..] == rest;
  }

  lemma FirstWord(w: string, rest: string)
    requires Plain(w) && (rest == "" || IsSpace(rest[0]))
    ensures Split(w + rest) == [w] + Split(rest)
  {
    PlainWordLength(w, rest);
    assert (w + rest)[..|w|] == w && (w + rest)[|w|..] == rest;
    assert (w + rest)[0] == w[0];
  }

  /** Splitting a normalized text gives back the words it was joined from. */
  lemma {:induction false} SplitJoin(words: seq<string>)
    requires forall w :: w in words ==> Plain(w)
    ensures Split(Join(words, " ")) == words
  {
    hide Split, Join, Plain;
    JoinSteps(words);
    if words == [] {
      assert Split("") == [] by { NothingToSplit(); }
    } else {
      assert words[0] in words && forall w :: w in words[1..] ==> w in words;
      SplitJoin(words[1..]);
      FirstWord(words[0], if |words| == 1 then "" else " " + Join(words[1..], " "));
      if |words| == 1 {
        assert Split("") == [] by { NothingToSplit(); }
        assert words[0] + "" == words[0] && words == [words[0]];
      } else {
        assert (" " + Join(words[1..], " "))[1..] == Join(words[1..], " ");
        SpaceSkipped(Join(words[1..], " "));
      }
    }
  }

  /** Normalizing is idempotent, and the words of the result are those of the input. */
  lemma NormalizeWords(nfkc: string)
    requires Normalize(nfkc).Ok?
    ensures Split(Normalize(nfkc).value) == Split(nfkc)
    ensures forall w :: w in Split(nfkc) ==> CleanWord(w)
    ensures Split(nfkc) != []
  {
    SplitWords(nfkc);
    SplitJoin(Split(nfkc));
  }

  // ---------- decoding text ----------

  function Replace(t: string, from: char, to: char): string {
    if t == "" then "" else [if t[0] == from then to else t[0]] + Replace(t[1..], from, to)
  }

  function LStrip(t: string): string {
    if t != "" && IsSpace(t[0]) then LStrip(t[1..]) else t
  }

  function RStrip(t: string): string {
    if t != "" && IsSpace(t[|t| - 1]) then RStrip(t[..|t| - 1]) else t
  }

  /** `t.strip()`. */
  function Strip(t: string): string { RStrip(LStrip(t)) }

  lemma ReplaceStep(t: string, from: char, to: char)
    ensures Replace(t, from, to) ==
            if t == "" then "" else [if t[0] == from then to else t[0]] + Replace(t[1..], from, to)
  {}

  lemma {:induction false} ReplaceAppend(a: string, b: string, from: char, to: char)
    ensures Replace(a + b, from, to) == Replace(a, from, to) + Replace(b, from, to)
  {
    hide Replace;
    ReplaceStep(a, from, to);
    ReplaceStep(a + b, from, to);
    if a == "" {
      assert a + b == b;
    } else {
      ReplaceAppend(a[1..], b, from, to);
      assert (a + b)[1..] == a[1..] + b && (a + b)[0] == a[0];
      Regrouped([if a[0] == from then to else a[0]], Replace(a[1..], from, to), Replace(b, from, to));
    }
  }

  lemma {:induction false} ReplaceAbsent(t: string, from: char, to: char)
    requires from !in t
    ensures Replace(t, from, to) == t
  {
    if t != "" { ReplaceAbsent(t[1..], from, to); }
  }

  /** The word with every character outside the alphabet shown as `[UNK]`. */
  function ShowUnknown(w: string, alphabet: set<char>): string {
    if w == "" then "" else (if w[0] in alphabet then w[..1] else UNK) + ShowUnknown(w[1..], alphabet)
  }

  lemma ShowStep(w: string, alphabet: set<char>)
    ensures ShowUnknown(w, alphabet) ==
            if w == "" then "" else (if w[0] in alphabet then w[..1] else UNK) + ShowUnknown(w[1..], alphabet)
  {}

  lemma {:induction false} ShowAppend(a: string, b: string, alphabet: set<char>)
    ensures ShowUnknown(a + b, alphabet) == ShowUnknown(a, alphabet) + ShowUnknown(b, alphabet)
  {
    hide ShowUnknown;
    ShowStep(a, alphabet);
    ShowStep(a + b, alphabet);
    if a == "" {
      assert a + b == b;
    } else {
      ShowAppend(a[1..], b, alphabet);
      assert (a + b)[1..] == a[1..] + b && (a + b)[..1] == a[..1];
      Regrouped(if a[0] in alphabet then a[..1] else UNK, ShowUnknown(a[1..], alphabet), ShowUnknown(b, alphabet));
    }
  }

  lemma {:induction false} ShowKnown(w: string, alphabet: set<char>)
    requires forall c :: c in w ==> c in alphabet
    ensures ShowUnknown(w, alphabet) == w
  {
    if w != "" { ShowKnown(w[1..], alphabet); }
  }

  lemma {:induction false} ShowPlain(w: string, alphabet: set<char>)
    requires Plain(w) && MARK !in w
    ensures var r := ShowUnknown(w, alphabet); r != "" && !IsSpace(r[0]) && !IsSpace(r[|r| - 1]) && MARK !in r
  {
    var first := if w[0] in alphabet then w[..1] else UNK;
    if |w| == 1 {
      assert w[1..] == "" && first + "" == first;
    } else {
      forall i | 0 <= i < |w[1..]| ensures !IsSpace(w[1..][i]) { assert w[1..][i] == w[i + 1]; }
      ShowPlain(w[1..], alphabet);
    }
  }

  /** What a decoder that shows unknown characters gives for a list of words. */
  function ShowWords(words: seq<string>, alphabet: set<char>): seq<string> {
    if words == [] then [] else [ShowUnknown(words[0], alphabet)] + ShowWords(words[1..], alphabet)
  }

  /** The pieces of the words, each led by the word mark. */
  function Marked(words: seq<string>): string {
    if words == [] then "" else WORD_START + words[0] + Marked(words[1..])
  }

  lemma MarkReplaced(t: string)
    ensures Replace(WORD_START + t, MARK, ' ') == " " + Replace(t, MARK, ' ')
  {
    assert (WORD_START + t)[1..] == t;
  }

  lemma {:induction false} MarkedIsJoined(words: seq<string>, alphabet: set<char>)
    requires forall w :: w in words ==> Plain(w) && MARK !in w
    ensures Replace(Marked(ShowWords(words, alphabet)), MARK, ' ')
            == if words == [] then "" else " " + Join(ShowWords(words, alphabet), " ")
  {
    hide Replace, Marked, ShowWords, Join, Plain;
    if words == [] {
      NothingMarked(alphabet);
    } else {
      assert words[0] in words && forall w :: w in words[1..] ==> w in words;
      var shown, rest := ShowWords(words, alphabet), ShowWords(words[1..], alphabet);
      FirstShown(words, alphabet);
      ShowPlain(words[0], alphabet);
      MarkedIsJoined(words[1..], alphabet);
      MarkedHead(shown[0], rest);
      JoinSteps(shown);
      if rest != [] { Regrouped(" ", shown[0], " " + Join(rest, " ")); }
    }
  }

  lemma NothingMarked(alphabet: set<char>)
    ensures Replace(Marked(ShowWords([], alphabet)), MARK, ' ') == ""
  {}

  lemma FirstShown(words: seq<string>, alphabet: set<char>)
    requires words != []
    ensures var shown, rest := ShowWords(words, alphabet), ShowWords(words[1..], alphabet);
            |shown| == |words| && shown == [ShowUnknown(words[0], alphabet)] + rest && shown[1..] == rest
  {}

  lemma MarkedHead(r: string, rest: seq<string>)
    requires MARK !in r
    ensures Replace(Marked([r] + rest), MARK, ' ') == " " + r + Replace(Marked(rest), MARK, ' ')
  {
    var tail := Marked(rest);
    assert ([r] + rest)[1..] == rest;
    assert Marked([r] + rest) == WORD_START + (r + tail);
    MarkReplaced(r + tail);
    ReplaceAppend(r, tail, MARK, ' ');
    ReplaceAbsent(r, MARK, ' ');
  }

  lemma {:induction false} JoinEnds(words: seq<string>)
    requires words != []
    requires forall w :: w in words ==> w != "" && !IsSpace(w[0]) && !IsSpace(w[|w| - 1])
    ensures var j := Join(words, " "); j != "" && !IsSpace(j[0]) && !IsSpace(j[|j| - 1])
  {
    if |words| > 1 { JoinEnds(words[1..]); }
  }

  lemma {:induction false} ShownEnds(words: seq<string>, alphabet: set<char>)
    requires forall w :: w in words ==> Plain(w) && MARK !in w
    ensures forall r :: r in ShowWords(words, alphabet) ==> r != "" && !IsSpace(r[0]) && !IsSpace(r[|r| - 1])
  {
    if words != [] {
      ShowPlain(words[0], alphabet);
      ShownEnds(words[1..], alphabet);
    }
  }

  lemma StripLead(t: string)
    requires t != "" && !IsSpace(t[0]) && !IsSpace(t[|t| - 1])
    ensures Strip(" " + t) == t
  {
    assert (" " + t)[1..] == t;
    assert LStrip(t) == t && LStrip(" " + t) == t;
  }

  lemma DecodedText(words: seq<string>, alphabet: set<char>)
    requires words != [] && forall w :: w in words ==> Plain(w) && MARK !in w
    ensures Strip(Replace(Marked(ShowWords(words, alphabet)), MARK, ' ')) == Join(ShowWords(words, alphabet), " ")
  {
    MarkedIsJoined(words, alphabet);
    ShownEnds(words, alphabet);
    JoinEnds(ShowWords(words, alphabet));
    StripLead(Join(ShowWords(words, alphabet), " "));
  }

  lemma CleanHasNoMark(w: string)
    requires CleanWord(w)
    ensures MARK !in w
  {
    if MARK in w {
      var i :| 0 <= i < |w| && w[i] == MARK;
      assert w[i..i + 1] == WORD_START && PartAt(w, WORD_START, i);
      assert Contains(w, WORD_START);
    }
  }
}
