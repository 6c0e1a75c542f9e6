/**
 The same for the words an encoder is given: each begins with the word mark and is otherwise a clean
 word of the text.
 */
module BpeWords {
  import opened Basics
  import opened BpeMerges
  import opened BpeOrders
  import opened PythonText
  import T = TokenText

  /** The two orders cut every word of a text alike. */
  ghost predicate AgreeOnText(merges: seq<Pair>, ranks: map<Pair, nat>) {
    forall w :: T.CleanWord(w) ==> AgreeOn(merges, ranks, T.WORD_START + w)
  }

  predicate AgreeOn(merges: seq<Pair>, ranks: map<Pair, nat>, w: string) {
    LowestRankFirst(Chars(w), ranks) == ApplyAll(merges, Chars(w))
  }

  /** What may stand in a marked word: a clean word, with or without the mark in front. */
  ghost predicate Fitting(t: string) { T.CleanWord(t) || (t != "" && t[0] == T.MARK && T.CleanWord(t[1..])) }

  /** Learned order joins the text of every product that may stand in a marked word. */
  ghost predicate JoinsFittingProducts(merges: seq<Pair>) {
    forall j :: 0 <= j < |merges| && LeftInTwo(merges, j) ==> !Fitting(Joined(merges[j]))
  }

  /** Some letter that words may hold is in no merge. */
  ghost predicate SpareLetter(merges: seq<Pair>, c: char) {
    && c != T.MARK && !IsSpace(c) && (forall i :: 0 <= i < |T.SPECIAL_PIECES| ==> c !in T.SPECIAL_PIECES[i])
    && forall j :: 0 <= j < |merges| ==> c !in merges[j].0 && c !in merges[j].1
  }

  // ---------- parts of clean words ----------

  lemma PartOfClean(w: string, i: nat, n: nat)
    requires T.CleanWord(w) && i < i + n <= |w|
    ensures T.CleanWord(w[i..i + n])
  {
    assert w == w[..i] + w[i..i + n] + w[i + n..];
    if T.IsReserved(w[i..i + n]) { T.ReservedWider(w[..i], w[i..i + n], w[i + n..]); }
  }

  /** A product left in two that occurs in a marked word may stand in one. */
  lemma OccurringFits(merges: seq<Pair>, j: nat, w: string)
    requires j < |merges| && LeftInTwo(merges, j) && T.CleanWord(w)
    requires Contains(T.WORD_START + w, Joined(merges[j]))
    ensures Fitting(Joined(merges[j]))
  {
    hide T.CleanWord;
    var t, marked := Joined(merges[j]), T.WORD_START + w;
    CutNonEmpty(merges, t);
    assert merges[j].0 in [merges[j].0, merges[j].1] && merges[j].1 in [merges[j].0, merges[j].1];
    assert |t| >= 2;
    var i :| 0 <= i <= |marked| && PartAt(marked, t, i);
    if i > 0 {
      assert t == w[i - 1..i - 1 + |t|];
      PartOfClean(w, i - 1, |t|);
    } else {
      assert t[0] == marked[0] && t[1..] == w[..|t| - 1] == w[0..0 + (|t| - 1)];
      PartOfClean(w, 0, |t| - 1);
    }
  }

  // ---------- a letter that separates ----------

  /** A symbol that is in no pair merged keeps the two sides apart. */
  lemma {:induction false} MergeAround(front: Symbols, x: string, back: Symbols, p: Pair)
    requires p.0 != x && p.1 != x
    ensures Merge(front + [x] + back, p) == Merge(front, p) + [x] + Merge(back, p)
  {
    hide Merge;
    var s := front + [x] + back;
    MergeHead(s, p);
    if front == [] {
      NothingToMerge(p);
      assert s == [x] + back && s[1..] == back && s[0] == x;
      assert [] + [x] + Merge(back, p) == [x] + Merge(back, p);
    } else {
      MergeHead(front, p);
      var n := if StartsWith(front, p) then 2 else 1;
      assert StartsWith(s, p) <==> n == 2 by { SameStart(front, x, back, p); }
      assert s[n..] == front[n..] + [x] + back && s[0] == front[0];
      MergeAround(front[n..], x, back, p);
      var head := if n == 2 then Joined(p) else s[0];
      assert Merge(s, p) == [head] + (Merge(front[n..], p) + [x] + Merge(back, p))
                         == [head] + Merge(front[n..], p) + [x] + Merge(back, p);
    }
  }

  lemma SameStart(front: Symbols, x: string, back: Symbols, p: Pair)
    requires front != [] && p.0 != x && p.1 != x
    ensures StartsWith(front + [x] + back, p) <==> StartsWith(front, p)
  {}

  lemma {:induction false} ApplyAround(merges: seq<Pair>, front: Symbols, x: string, back: Symbols)
    requires forall j :: 0 <= j < |merges| ==> merges[j].0 != x && merges[j].1 != x
    ensures ApplyAll(merges, front + [x] + back) == ApplyAll(merges, front) + [x] + ApplyAll(merges, back)
  {
    if merges != [] {
      var before, p := merges[..|merges| - 1], merges[|merges| - 1];
      ApplyAround(before, front, x, back);
      MergeAround(ApplyAll(before, front), x, ApplyAll(before, back), p);
    }
  }

  lemma {:induction false} OneSymbolStays(merges: seq<Pair>, x: string)
    ensures ApplyAll(merges, [x]) == [x]
  {
    if merges != [] {
      var p := merges[|merges| - 1];
      OneSymbolStays(merges[..|merges| - 1], x);
      MergeHead([x], p);
      NothingToMerge(p);
    }
  }

  /** A clean word stays clean behind a spare letter. */
  lemma SpareInFront(merges: seq<Pair>, c: char, t: string)
    requires SpareLetter(merges, c) && T.CleanWord(t)
    ensures T.CleanWord([c] + t)
  {
    var w := [c] + t;
    forall piece | c !in piece && piece != "" && Contains(w, piece) ensures Contains(t, piece) {
      var i :| 0 <= i <= |w| && PartAt(w, piece, i);
      assert w[i..i + |piece|][0] == w[i] == piece[0];
      assert w[i] in piece;
      assert t[i - 1..i - 1 + |piece|] == w[i..i + |piece|];
      assert PartAt(t, piece, i - 1);
    }
  }

  lemma CharsAfter(c: char, t: string)
    ensures Chars(T.WORD_START + ([c] + t)) == [T.WORD_START] + [[c]] + Chars(t)
  {
    var w := T.WORD_START + ([c] + t);
    assert w[..1] == T.WORD_START && w[1..] == [c] + t;
    assert ([c] + t)[..1] == [c] && ([c] + t)[1..] == t;
    assert Chars([c] + t) == [[c]] + Chars(t);
    assert Chars(w) == [T.WORD_START] + ([[c]] + Chars(t));
  }

  function Letters(s: string): (r: set<char>)
    ensures forall c :: c in r <==> c in s
  {
    set c | c in s
  }

  function LettersOf(merges: seq<Pair>): (r: set<char>)
    ensures forall j :: 0 <= j < |merges| ==> Letters(merges[j].0) + Letters(merges[j].1) <= r
  {
    if merges == [] then {}
    else LettersOf(merges[..|merges| - 1]) + Letters(merges[|merges| - 1].0) + Letters(merges[|merges| - 1].1)
  }

  const SYLLABLES := 11172

  /** The first n Korean syllables. */
  function Syllables(n: nat): (r: set<char>)
    requires n <= SYLLABLES
    ensures |r| == n && forall c :: c in r ==> 0xAC00 <= c as int < 0xAC00 + n
  {
    if n == 0 then {} else Syllables(n - 1) + {(0xAC00 + n - 1) as char}
  }

  lemma {:induction false} Outnumbered(a: set<char>, b: set<char>)
    requires a <= b
    ensures |a| <= |b|
  {
    if a != {} {
      var c :| c in a;
      Outnumbered(a - {c}, b - {c});
    }
  }

  /** Merges of fewer letters than there are Korean syllables leave a letter spare. */
  lemma SomeLetterIsSpare(merges: seq<Pair>) returns (c: char)
    requires |LettersOf(merges)| < SYLLABLES
    ensures SpareLetter(merges, c)
  {
    hide Syllables;
    if Syllables(SYLLABLES) <= LettersOf(merges) { Outnumbered(Syllables(SYLLABLES), LettersOf(merges)); }
    c :| c in Syllables(SYLLABLES) && c !in LettersOf(merges);
    SyllableIsPlain(c);
    forall j | 0 <= j < |merges| ensures c !in merges[j].0 && c !in merges[j].1 {
      assert Letters(merges[j].0) + Letters(merges[j].1) <= LettersOf(merges);
      assert c !in Letters(merges[j].0) && c !in Letters(merges[j].1);
    }
  }

  lemma SyllableIsPlain(c: char)
    requires 0xAC00 <= c as int < 0xAC00 + SYLLABLES
    ensures c != T.MARK && !IsSpace(c) && forall i :: 0 <= i < |T.SPECIAL_PIECES| ==> c !in T.SPECIAL_PIECES[i]
  {
  }

  // ---------- exactly when ----------

  /** A product that may stand in a marked word, and is left in two, stands in one on which the orders differ. */
  lemma FittingDiffers(merges: seq<Pair>, ranks: map<Pair, nat>, c: char, j: nat) returns (w: string)
    requires RanksOf(ranks, merges) && SpareLetter(merges, c)
    requires j < |merges| && LeftInTwo(merges, j) && Fitting(Joined(merges[j]))
    ensures T.CleanWord(w) && !AgreeOn(merges, ranks, T.WORD_START + w)
  {
    hide T.CleanWord;
    var q := merges[j];
    var t := Joined(q);
    if T.CleanWord(t) {
      w := [c] + t;
      SpareInFront(merges, c, t);
      CharsAfter(c, t);
      assert forall j :: 0 <= j < |merges| ==> merges[j].0 != [c] && merges[j].1 != [c] by { LetterInNone(merges, c); }
      ApplyAround(merges, [T.WORD_START], [c], Chars(t));
      OneSymbolStays(merges, T.WORD_START);
      var s := Chars(T.WORD_START + w);
      assert ApplyAll(merges, s)[2] == q.0 && ApplyAll(merges, s)[2 + 1] == q.1;
      GreedyIsDone(s, ranks, q);
    } else {
      w := t[1..];
      assert t == T.WORD_START + w;
      ProductDiffers(merges, ranks, j);
    }
  }

  lemma LetterInNone(merges: seq<Pair>, c: char)
    requires SpareLetter(merges, c)
    ensures forall j :: 0 <= j < |merges| ==> merges[j].0 != [c] && merges[j].1 != [c]
  {
    forall j | 0 <= j < |merges| ensures merges[j].0 != [c] && merges[j].1 != [c] { assert c in [c]; }
  }

  /**
   The two orders cut all words of texts alike if learned order joins every product that may stand in
   a marked word; and only if, as long as some letter is in no merge.
   */
  lemma OrdersAgreeOnTextIff(merges: seq<Pair>, ranks: map<Pair, nat>)
    requires Distinct(merges) && RanksOf(ranks, merges)
    ensures JoinsFittingProducts(merges) ==> AgreeOnText(merges, ranks)
    ensures (exists c :: SpareLetter(merges, c)) && AgreeOnText(merges, ranks) ==> JoinsFittingProducts(merges)
  {
    hide LeftInTwo, Fitting, T.CleanWord, SpareLetter, AgreeOn;
    if JoinsFittingProducts(merges) {
      forall w | T.CleanWord(w) ensures AgreeOn(merges, ranks, T.WORD_START + w) { MarkedAgrees(merges, ranks, w); }
    }
    if (exists c :: SpareLetter(merges, c)) && !JoinsFittingProducts(merges) {
      var c :| SpareLetter(merges, c);
      var j :| 0 <= j < |merges| && LeftInTwo(merges, j) && Fitting(Joined(merges[j]));
      var w := FittingDiffers(merges, ranks, c, j);
    }
  }

  lemma MarkedAgrees(merges: seq<Pair>, ranks: map<Pair, nat>, w: string)
    requires Distinct(merges) && RanksOf(ranks, merges) && JoinsFittingProducts(merges) && T.CleanWord(w)
    ensures AgreeOn(merges, ranks, T.WORD_START + w)
  {
    hide LeftInTwo, Fitting, T.CleanWord;
    forall j | 0 <= j < |merges| && LeftInTwo(merges, j) ensures !Contains(T.WORD_START + w, Joined(merges[j])) {
      if Contains(T.WORD_START + w, Joined(merges[j])) { OccurringFits(merges, j, w); }
    }
    OrdersAgreeIn(merges, ranks, T.WORD_START + w);
  }
}
