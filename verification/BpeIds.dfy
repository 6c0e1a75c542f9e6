/** What the ids of a text stand for, told by the pieces they name. */
module BpeIds {
  import opened Basics
  import opened BpeMerges
  import opened Counters
  import opened BpeTraining
  import opened PythonText
  import opened ScratchBpe
  import T = TokenText

  predicate IsControlPiece(piece: string) {
    piece == "[PAD]" || piece == "[CLS]" || piece == "[SEP]" || piece == "[MASK]"
  }

  /** The five special pieces come first, and no piece comes twice. */
  ghost predicate Usable(pieces: seq<string>) {
    && |pieces| >= 5 && pieces[0] == "[PAD]" && pieces[1] == "[UNK]" && pieces[2] == "[CLS]" && pieces[3] == "[SEP]"
    && pieces[4] == "[MASK]" && Distinct(pieces)
  }

  /** Whatever was trained or loaded has such pieces. */
  lemma AcceptableIsUsable(pieces: seq<string>, merges: seq<Pair>)
    requires Acceptable(Save(pieces, merges))
    ensures Usable(pieces)
  {
    hide FitsPieces, Distinct, MergeLists;
    assert forall i :: 0 <= i < 5 ==> pieces[i] == pieces[..5][i];
  }

  // ---------- ids and pieces ----------

  lemma ControlIds(pieces: seq<string>, id: nat)
    requires Usable(pieces) && id < |pieces|
    ensures IsControl(id) <==> IsControlPiece(pieces[id])
  {
    assert id >= 5 ==> forall k :: 0 <= k < 5 ==> pieces[id] != pieces[k];
    assert pieces[1][1] == 'U' && pieces[0][1] == 'P' && pieces[2][1] == 'C' && pieces[3][1] == 'S'
      && pieces[4][1] == 'M';
  }

  /** The piece an id names: the symbol itself, or `[UNK]` if it is no piece. */
  lemma IdNames(pieces: seq<string>, x: string)
    requires Usable(pieces)
    ensures var id := PieceId(Enumerated(pieces), x);
            id < |pieces| && pieces[id] == if x in pieces then x else "[UNK]"
  {
    EnumeratedIndex(pieces);
  }

  // ---------- the cut of a text ----------

  /** The symbols of all words, each marked and cut by itself. */
  function CutWords(merges: seq<Pair>, words: seq<string>): Symbols {
    if words == [] then []
    else LowestRankFirst(Chars(T.WORD_START + words[0]), Enumerated(merges)) + CutWords(merges, words[1..])
  }

  lemma {:induction false} CutWordsSnoc(merges: seq<Pair>, words: seq<string>)
    requires words != []
    ensures var n := |words| - 1;
            CutWords(merges, words)
            == CutWords(merges, words[..n]) + LowestRankFirst(Chars(T.WORD_START + words[n]), Enumerated(merges))
  {
    hide LowestRankFirst, Chars;
    var n := |words| - 1;
    var last := LowestRankFirst(Chars(T.WORD_START + words[n]), Enumerated(merges));
    if n == 0 {
      assert words[1..] == [] && words[..0] == [];
      assert last + [] == [] + last;
    } else {
      CutWordsSnoc(merges, words[1..]);
      assert words[1..][..n - 1] == words[..n][1..];
      Regrouped(LowestRankFirst(Chars(T.WORD_START + words[0]), Enumerated(merges)), CutWords(merges, words[..n][1..]),
        last);
    }
  }

  lemma {:induction false} LowestRankKeepsText(s: Symbols, ranks: map<Pair, nat>)
    ensures Concat(LowestRankFirst(s, ranks)) == Concat(s)
    decreases |s|
  {
    match BestPair(s, ranks)
    case None =>
    case Some(p) =>
      MergeKeepsText(s, p);
      LowestRankKeepsText(Merge(s, p), ranks);
  }

  /** The symbols spell the marked words. */
  lemma {:induction false} CutWordsSpell(merges: seq<Pair>, words: seq<string>)
    ensures Concat(CutWords(merges, words)) == T.Marked(words)
  {
    if words != [] {
      var w := T.WORD_START + words[0];
      var first, rest := LowestRankFirst(Chars(w), Enumerated(merges)), CutWords(merges, words[1..]);
      CutWordsSpell(merges, words[1..]);
      LowestRankKeepsText(Chars(w), Enumerated(merges));
      CharsConcat(w);
      ConcatAppend(first, rest);
    }
  }

  lemma {:induction false} SymbolStands(s: Symbols, x: string) returns (left: string, right: string)
    requires x in s
    ensures Concat(s) == left + x + right
  {
    if s[0] == x {
      left, right := "", Concat(s[1..]);
    } else {
      var before, after := SymbolStands(s[1..], x);
      left, right := s[0] + before, after;
      assert s[0] + (before + x + after) == s[0] + before + x + after;
    }
  }

  /** No symbol of an accepted word is a special piece, whatever the merges. */
  lemma SymbolIsOrdinary(merges: seq<Pair>, w: string, x: string)
    requires T.CleanWord(w) && x in LowestRankFirst(Chars(T.WORD_START + w), Enumerated(merges))
    ensures x !in T.SPECIAL_PIECES
  {
    hide LowestRankFirst;
    var symbols := LowestRankFirst(Chars(T.WORD_START + w), Enumerated(merges));
    var left, right := SymbolStands(symbols, x);
    LowestRankKeepsText(Chars(T.WORD_START + w), Enumerated(merges));
    CharsConcat(T.WORD_START + w);
    if x in T.SPECIAL_PIECES {
      var k :| 0 <= k < |T.SPECIAL_PIECES| && T.SPECIAL_PIECES[k] == x;
      SpecialInStart(w, left, k, right);
    }
  }

  lemma {:induction false} CutIsOrdinary(merges: seq<Pair>, words: seq<string>, x: string)
    requires (forall w :: w in words ==> T.CleanWord(w)) && x in CutWords(merges, words)
    ensures x !in T.SPECIAL_PIECES
  {
    hide LowestRankFirst, T.CleanWord;
    var first := LowestRankFirst(Chars(T.WORD_START + words[0]), Enumerated(merges));
    if x in first {
      assert words[0] in words;
      SymbolIsOrdinary(merges, words[0], x);
    } else {
      assert forall w :: w in words[1..] ==> w in words;
      CutIsOrdinary(merges, words[1..], x);
    }
  }

  // ---------- the ids of a text ----------

  /** Each id names its symbol, or `[UNK]` if the symbol is no piece. */
  ghost predicate Name(pieces: seq<string>, ids: seq<nat>, symbols: Symbols) {
    |ids| == |symbols| && forall k :: 0 <= k < |ids| ==>
      ids[k] < |pieces| && pieces[ids[k]] == if symbols[k] in pieces then symbols[k] else "[UNK]"
  }

  lemma {:induction false} SymbolsNamed(pieces: seq<string>, symbols: Symbols)
    requires Usable(pieces)
    ensures Name(pieces, PieceIds(Enumerated(pieces), symbols), symbols)
  {
    hide Usable;
    if symbols != [] {
      IdNames(pieces, symbols[0]);
      SymbolsNamed(pieces, symbols[1..]);
    }
  }

  lemma {:induction false} WordsNamed(pieces: seq<string>, merges: seq<Pair>, words: seq<string>)
    requires Usable(pieces)
    ensures Name(pieces, WordIds(Enumerated(pieces), Enumerated(merges), words), CutWords(merges, words))
  {
    hide Usable, LowestRankFirst, Chars, PieceIds, Name, CutWords;
    if words == [] {
      NothingNamed(pieces, merges);
    } else {
      var n := |words| - 1;
      var last := LowestRankFirst(Chars(T.WORD_START + words[n]), Enumerated(merges));
      WordsNamed(pieces, merges, words[..n]);
      CutWordsSnoc(merges, words);
      SymbolsNamed(pieces, last);
      NameAppend(pieces, WordIds(Enumerated(pieces), Enumerated(merges), words[..n]), CutWords(merges, words[..n]),
                 PieceIds(Enumerated(pieces), last), last);
    }
  }

  lemma NothingNamed(pieces: seq<string>, merges: seq<Pair>)
    ensures Name(pieces, WordIds(Enumerated(pieces), Enumerated(merges), []), CutWords(merges, []))
  {}

  lemma NameAppend(pieces: seq<string>, a: seq<nat>, s: Symbols, b: seq<nat>, t: Symbols)
    requires Name(pieces, a, s) && Name(pieces, b, t)
    ensures Name(pieces, a + b, s + t)
  {}

  lemma NothingCut(merges: seq<Pair>, words: seq<string>)
    requires words != []
    ensures CutWords(merges, words) != []
  {
    CutWordsSpell(merges, words);
    assert T.Marked(words)[0] == T.WORD_START[0];
  }

  /**
   The ids of an accepted text: first one that names `[CLS]`, last one that names `[SEP]`, and
   between them those given without special tokens, which name the symbols of the marked words.
   */
  lemma EncodedNames(pieces: seq<string>, merges: seq<Pair>, nfkc: string)
    requires Acceptable(Save(pieces, merges)) && T.Normalize(nfkc).Ok?
    ensures var ids, inner := EncodeText(pieces, merges, nfkc, true), EncodeText(pieces, merges, nfkc, false);
            var symbols := CutWords(merges, T.Split(nfkc));
            && ids.Ok? && inner.Ok? && |ids.value| == |inner.value| + 2 && inner.value != []
            && ids.value[1..|ids.value| - 1] == inner.value
            && ids.value[0] < |pieces| && pieces[ids.value[0]] == "[CLS]"
            && ids.value[|ids.value| - 1] < |pieces| && pieces[ids.value[|ids.value| - 1]] == "[SEP]"
            && Name(pieces, inner.value, symbols) && Concat(symbols) == T.Marked(T.Split(nfkc))
            && forall k :: 0 <= k < |inner.value| ==> !IsControlPiece(pieces[inner.value[k]])
  {
    hide Acceptable, Save, T.CleanWord, LowestRankFirst, Chars;
    AcceptableIsUsable(pieces, merges);
    T.NormalizeWords(nfkc);
    var words := T.Split(nfkc);
    var symbols := CutWords(merges, words);
    var inner := WordIds(Enumerated(pieces), Enumerated(merges), words);
    WordsNamed(pieces, merges, words);
    CutWordsSpell(merges, words);
    NothingCut(merges, words);
    forall k | 0 <= k < |inner| ensures !IsControlPiece(pieces[inner[k]]) {
      CutIsOrdinary(merges, words, symbols[k]);
      OrdinaryIsNoControl(symbols[k]);
    }
  }

  lemma OrdinaryIsNoControl(x: string)
    ensures x !in T.SPECIAL_PIECES ==> !IsControlPiece(x)
    ensures !IsControlPiece("[UNK]")
  {
    var s := T.SPECIAL_PIECES;
    assert s[0] == "[PAD]" && s[2] == "[CLS]" && s[3] == "[SEP]" && s[4] == "[MASK]";
    assert "[UNK]"[1] == 'U';
  }

  // ---------- decoding ----------

  /** The ids that name no control. */
  function Visible(pieces: seq<string>, ids: seq<int>): seq<int>
    requires forall k :: 0 <= k < |ids| ==> 0 <= ids[k] < |pieces|
  {
    if ids == [] then []
    else
      var n := |ids| - 1;
      Visible(pieces, ids[..n]) + if IsControlPiece(pieces[ids[n]]) then [] else [ids[n]]
  }

  /** Decoding fails for the first id that is no index into the pieces, and for nothing else. */
  lemma {:induction false} ShownIff(pieces: seq<string>, ids: seq<int>, skip: bool)
    ensures var r := ShownPieces(pieces, ids, skip);
            && (r.Ok? <==> forall k :: 0 <= k < |ids| ==> 0 <= ids[k] < |pieces|)
            && (r.Err? ==> exists k ::
                0 <= k < |ids| && r.error == OutsideVocabulary(ids[k]) && !(0 <= ids[k] < |pieces|)
                                       && forall j :: 0 <= j < k ==> 0 <= ids[j] < |pieces|)
  {
    if ids != [] {
      var n := |ids| - 1;
      ShownIff(pieces, ids[..n], skip);
      assert forall k :: 0 <= k < n ==> ids[..n][k] == ids[k];
    }
  }

  lemma ShownSnoc(pieces: seq<string>, ids: seq<int>, id: int, skip: bool)
    requires ShownPieces(pieces, ids, skip).Ok? && 0 <= id < |pieces|
    ensures ShownPieces(pieces, ids + [id], skip)
            == Ok(ShownPieces(pieces, ids, skip).value + if skip && IsControl(id) then [] else [pieces[id]])
  {
    assert (ids + [id])[..|ids|] == ids;
    var shown := ShownPieces(pieces, ids, skip).value;
    assert shown + [] == shown;
  }

  lemma {:induction false} VisibleShown(pieces: seq<string>, ids: seq<int>)
    requires Usable(pieces) && forall k :: 0 <= k < |ids| ==> 0 <= ids[k] < |pieces|
    ensures forall k :: 0 <= k < |Visible(pieces, ids)| ==> 0 <= Visible(pieces, ids)[k] < |pieces|
    ensures ShownPieces(pieces, ids, true).Ok?
    ensures ShownPieces(pieces, ids, true) == ShownPieces(pieces, Visible(pieces, ids), false)
  {
    if ids != [] {
      hide Usable, ShownPieces, IsControlPiece, IsControl;
      var n := |ids| - 1;
      VisibleShown(pieces, ids[..n]);
      ControlIds(pieces, ids[n]);
      var before := Visible(pieces, ids[..n]);
      assert ids == ids[..n] + [ids[n]];
      ShownSnoc(pieces, ids[..n], ids[n], true);
      ShownSnoc(pieces, before, ids[n], false);
      var shown := ShownPieces(pieces, before, false).value;
      assert shown + [] == shown && before + [] == before;
    }
  }

  /** Skipping special tokens is decoding the other ids: padding, markers and masks are dropped, `[UNK]` is shown. */
  lemma SkippingIsVisible(pieces: seq<string>, ids: seq<int>)
    requires Usable(pieces) && forall k :: 0 <= k < |ids| ==> 0 <= ids[k] < |pieces|
    ensures DecodeIds(pieces, ids, true) == DecodeIds(pieces, Visible(pieces, ids), false)
  {
    hide Usable, DecodeIds, ShownPieces;
    VisibleShown(pieces, ids);
    SameShownDecodes(pieces, ids, Visible(pieces, ids));
  }

  lemma SameShownDecodes(pieces: seq<string>, a: seq<int>, b: seq<int>)
    requires ShownPieces(pieces, a, true) == ShownPieces(pieces, b, false)
    ensures DecodeIds(pieces, a, true) == DecodeIds(pieces, b, false)
  {
    hide ShownPieces;
  }

  /** Without skipping, the decoded text stands between the two markers. */
  lemma DecodedBetweenMarkers(wordCounts: Counter<string>, merges: seq<Pair>, nfkc: string)
    requires TrainedOn(wordCounts, merges) && T.Normalize(nfkc).Ok?
    ensures var pieces := Vocabulary(Alphabet(wordCounts), merges);
            var ids := EncodeText(pieces, merges, nfkc, true);
            ids.Ok? && DecodeIds(pieces, ids.value, false)
              == Ok("[CLS]" + (" " + Join(T.ShowWords(T.Split(nfkc), Known(wordCounts)), " ")) + "[SEP]")
  {
    hide TrainedOn, T.Normalize, T.ShowWords, T.Marked, Enumerated, WordIds, Vocabulary, T.Plain, T.CleanWord;
    var pieces := Vocabulary(Alphabet(wordCounts), merges);
    SavedIsAcceptable(wordCounts, merges);
    AcceptableIsUsable(pieces, merges);
    EncodedNames(pieces, merges, nfkc);
    var ids, inner := EncodeText(pieces, merges, nfkc, true).value, EncodeText(pieces, merges, nfkc, false).value;
    T.NormalizeWords(nfkc);
    var words, known := T.Split(nfkc), Known(wordCounts);
    WordsDecode(wordCounts, merges, words, false);
    assert inner == WordIds(Enumerated(pieces), Enumerated(merges), words);
    assert ids == [ids[0]] + inner + [ids[|ids| - 1]];
    ShownBetween(pieces, ids[0], inner, ids[|ids| - 1]);
    forall w | w in words ensures T.Plain(w) && T.MARK !in w { CleanIsPlain(w); }
    T.MarkedIsJoined(words, known);
    TextBetween(T.Marked(T.ShowWords(words, known)), " " + Join(T.ShowWords(words, known), " "));
  }

  lemma CleanIsPlain(w: string)
    requires T.CleanWord(w)
    ensures T.Plain(w) && T.MARK !in w
  {
    T.CleanHasNoMark(w);
  }

  lemma ShownBetween(pieces: seq<string>, first: nat, ids: seq<nat>, last: nat)
    requires first < |pieces| && last < |pieces| && ShownPieces(pieces, ids, false).Ok?
    ensures var shown := ShownPieces(pieces, [first] + ids + [last], false);
            shown.Ok? && Concat(shown.value)
              == pieces[first] + Concat(ShownPieces(pieces, ids, false).value) + pieces[last]
  {
    hide Concat, ShownPieces;
    assert ShownPieces(pieces, [], false) == Ok([]) by { NothingShown(pieces); }
    ShownSnoc(pieces, [], first, false);
    assert [] + [first] == [first] && [] + [pieces[first]] == [pieces[first]];
    ShownAppend(pieces, [first], ids, false);
    ShownSnoc(pieces, [first] + ids, last, false);
    var shown := ShownPieces(pieces, ids, false).value;
    ConcatAppend([pieces[first]], shown);
    ConcatAppend([pieces[first]] + shown, [pieces[last]]);
    ConcatOne(pieces[first]);
    ConcatOne(pieces[last]);
  }

  lemma NothingShown(pieces: seq<string>)
    ensures ShownPieces(pieces, [], false) == Ok([])
  {}

  lemma ConcatOne(x: string)
    ensures Concat([x]) == x
  {
    assert [x][1..] == [] && Concat([x][1..]) == "";
  }

  /** Turning marks into spaces and stripping leaves the markers where they are. */
  lemma TextBetween(marked: string, text: string)
    requires T.Replace(marked, T.MARK, ' ') == text
    ensures T.Strip(T.Replace("[CLS]" + marked + "[SEP]", T.MARK, ' ')) == "[CLS]" + text + "[SEP]"
  {
    hide T.Replace, T.LStrip, T.RStrip;
    T.ReplaceAppend("[CLS]" + marked, "[SEP]", T.MARK, ' ');
    T.ReplaceAppend("[CLS]", marked, T.MARK, ' ');
    T.ReplaceAbsent("[CLS]", T.MARK, ' ');
    T.ReplaceAbsent("[SEP]", T.MARK, ' ');
    NothingToStrip("[CLS]" + text + "[SEP]");
  }

  lemma NothingToStrip(t: string)
    requires t != "" && !IsSpace(t[0]) && !IsSpace(t[|t| - 1])
    ensures T.Strip(t) == t
  {}
}
