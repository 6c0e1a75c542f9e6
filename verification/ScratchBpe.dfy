/**
 The trained tokenizer: training, encoding, decoding, saving and loading, and the laws
 that connect them.
 */
module ScratchBpe {
  import opened Basics
  import opened BpeMerges
  import opened Counters
  import opened BpeTraining
  import opened PythonText
  import T = TokenText

  const UNK_ID: nat := 1
  const CLS_ID: nat := 2
  const SEP_ID: nat := 3
  const NORMALIZATION: string := "NFKC+collapse_whitespace"

  datatype Error =
    | BadParameter | BadText(why: T.TextError) | NothingToLearn | NotReady | OutsideVocabulary(id: int)
    | UnknownFormat | BadPieces | MergesWithoutPieces | DuplicateMerges

  /** What is saved to disk. */
  datatype Saved = Saved(version: int, normalization: string, wordStart: string, pieces: seq<string>,
    merges: seq<Symbols>)

  // ---------- tables ----------

  /** `{item: i for i, item in enumerate(items)}`: a later duplicate wins. */
  function Enumerated<K(==)>(items: seq<K>): map<K, nat> {
    if items == [] then map[] else Enumerated(items[..|items| - 1])[items[|items| - 1] := |items| - 1]
  }

  lemma {:induction false} EnumeratedIndex<K>(items: seq<K>)
    ensures forall k :: k in Enumerated(items) ==> Enumerated(items)[k] < |items| && items[Enumerated(items)[k]] == k
    ensures forall i :: 0 <= i < |items| ==> items[i] in Enumerated(items)
  {
    if items != [] {
      var n := |items| - 1;
      EnumeratedIndex(items[..n]);
      assert forall i :: 0 <= i < n ==> items[..n][i] == items[i];
    }
  }

  lemma EnumeratedAppend<K>(items: seq<K>, last: K)
    ensures Enumerated(items + [last]) == Enumerated(items)[last := |items|]
  {
    assert (items + [last])[..|items|] == items;
  }

  function Products(merges: seq<Pair>): (ps: seq<string>)
    ensures |ps| == |merges| && forall i :: 0 <= i < |merges| ==> ps[i] == Joined(merges[i])
  {
    if merges == [] then [] else Products(merges[..|merges| - 1]) + [Joined(merges[|merges| - 1])]
  }

  // ---------- words and alphabet of a training text ----------

  /** All words of all texts in order, or the first text error. */
  function AllWords(texts: seq<string>): Result<seq<string>, Error> {
    if texts == [] then Ok([])
    else
      match AllWords(texts[..|texts| - 1])
      case Err(e) => Err(e)
      case Ok(words) =>
        match T.Normalize(texts[|texts| - 1])
        case Err(e) => Err(BadText(e))
        case Ok(text) => Ok(words + T.Split(text))
  }

  function CountWords(words: seq<string>): Counter<string> {
    if words == [] then [] else Add(CountWords(words[..|words| - 1]), words[|words| - 1], 1)
  }

  lemma {:induction false} CountWordsCounts(words: seq<string>, w: string)
    ensures DistinctKeys(CountWords(words))
    ensures Get(CountWords(words), w) == multiset(words)[w]
    ensures HasKey(CountWords(words), w) <==> w in words
  {
    if words != [] {
      var n := |words| - 1;
      CountWordsCounts(words[..n], w);
      AddGet(CountWords(words[..n]), words[n], 1, w);
      assert words == words[..n] + [words[n]];
    }
  }

  predicate Ascending(s: string) {
    forall i, j :: 0 <= i < j < |s| ==> s[i] < s[j]
  }

  function InsertChar(s: string, c: char): string {
    if s == "" || c < s[0] then [c] + s
    else if c == s[0] then s
    else [s[0]] + InsertChar(s[1..], c)
  }

  /** `sorted(set(text))`. */
  function SortedSet(text: string): string {
    if text == "" then "" else InsertChar(SortedSet(text[..|text| - 1]), text[|text| - 1])
  }

  lemma {:induction false} InsertCharSorts(s: string, c: char)
    requires Ascending(s)
    ensures Ascending(InsertChar(s, c))
    ensures forall x :: x in InsertChar(s, c) <==> x in s || x == c
  {
    if s != "" && c > s[0] {
      InsertCharSorts(s[1..], c);
      var t := InsertChar(s[1..], c);
      assert s == [s[0]] + s[1..];
      forall j | 0 <= j < |t| ensures s[0] < t[j] {
        assert t[j] in t;
      }
    }
  }

  lemma {:induction false} SortedSetSorts(text: string)
    ensures Ascending(SortedSet(text))
    ensures forall x :: x in SortedSet(text) <==> x in text
  {
    if text != "" {
      var n := |text| - 1;
      SortedSetSorts(text[..n]);
      InsertCharSorts(SortedSet(text[..n]), text[n]);
      assert text == text[..n] + [text[n]];
    }
  }

  function AllText(wordCounts: Counter<string>): string {
    if wordCounts == [] then "" else AllText(wordCounts[..|wordCounts| - 1]) + wordCounts[|wordCounts| - 1].0
  }

  function Alphabet(wordCounts: Counter<string>): string { SortedSet(T.WORD_START + AllText(wordCounts)) }

  /** The vocabulary: special pieces, alphabet, then one piece per merge. */
  function Vocabulary(alphabet: string, merges: seq<Pair>): seq<string> {
    T.SPECIAL_PIECES + Chars(alphabet) + Products(merges)
  }

  lemma {:induction false} CharsAt(s: string)
    ensures |Chars(s)| == |s| && forall i :: 0 <= i < |s| ==> Chars(s)[i] == [s[i]]
  {
    if s != "" { CharsAt(s[1..]); }
  }

  /** What training guarantees about its inputs and outputs. */
  ghost predicate TrainedOn(wordCounts: Counter<string>, merges: seq<Pair>) {
    && DistinctKeys(wordCounts)
    && (forall i :: 0 <= i < |wordCounts| ==> T.CleanWord(wordCounts[i].0))
    && Attested(Starts(wordCounts), merges)
  }

  lemma {:induction false} AllTextHas(wordCounts: Counter<string>, i: nat, c: char)
    requires i < |wordCounts| && c in wordCounts[i].0
    ensures c in AllText(wordCounts)
  {
    var n := |wordCounts| - 1;
    if i < n { AllTextHas(wordCounts[..n], i, c); }
  }

  lemma SpecialInStart(w: string, left: string, k: nat, right: string)
    requires k < |T.SPECIAL_PIECES| && T.WORD_START + w == left + T.SPECIAL_PIECES[k] + right
    ensures T.IsReserved(w)
  {
    var special := T.SPECIAL_PIECES[k];
    assert (T.WORD_START + w)[0] != special[0];
    assert left != "";
    assert left[0] == (T.WORD_START + w)[0];
    assert w == (T.WORD_START + w)[1..] == left[1..] + special + right;
    assert PartAt(special, special, 0);
    T.ContainsWider(left[1..], special, right, special);
  }

  /** Where the product of an attested merge stands in a training word. */
  lemma ProductInWord(words: seq<string>, merges: seq<Pair>, i: nat) returns (w: string, left: string, right: string)
    requires Attested(words, merges) && i < |merges|
    ensures w in words && w == left + Joined(merges[i]) + right
  {
    assert AttestedAt(words, merges, i);
    w :| w in words && Occurs(merges[i], ApplyAll(merges[..i], Chars(w)));
    var s := ApplyAll(merges[..i], Chars(w));
    var k :| 0 <= k < |s| - 1 && s[k] == merges[i].0 && s[k + 1] == merges[i].1;
    left, right := Concat(s[..k]), Concat(s[k + 2..]);
    ApplyAllKeepsText(merges[..i], Chars(w));
    CharsConcat(w);
    ConcatAround(s, k);
  }

  lemma ConcatAround(s: Symbols, k: nat)
    requires k + 1 < |s|
    ensures Concat(s) == Concat(s[..k]) + (s[k] + s[k + 1]) + Concat(s[k + 2..])
  {
    hide Concat;
    var two := [s[k], s[k + 1]];
    AroundTwo(s, k);
    ConcatAppend(s[..k] + two, s[k + 2..]);
    ConcatAppend(s[..k], two);
    ConcatTwo(s[k], s[k + 1]);
  }

  lemma AroundTwo<T>(s: seq<T>, k: nat)
    requires k + 1 < |s|
    ensures s == s[..k] + [s[k], s[k + 1]] + s[k + 2..]
  {}

  lemma ConcatTwo(a: string, b: string)
    ensures Concat([a, b]) == a + b
  {
    assert [a, b][1..] == [b] && [b][1..] == [];
    assert Concat([b]) == b;
  }

  /** A product is no special piece, no single character, and made of alphabet characters. */
  lemma ProductIsNew(wordCounts: Counter<string>, merges: seq<Pair>, i: nat)
    requires TrainedOn(wordCounts, merges) && i < |merges|
    ensures Joined(merges[i]) !in T.SPECIAL_PIECES
    ensures |Joined(merges[i])| >= 2
    ensures forall c :: c in Joined(merges[i]) ==> c in Alphabet(wordCounts)
  {
    var w, left, right := ProductInWord(Starts(wordCounts), merges, i);
    var k :| 0 <= k < |wordCounts| && w == T.WORD_START + wordCounts[k].0;
    AttestedNonEmpty(Starts(wordCounts), merges, i);
    if Joined(merges[i]) in T.SPECIAL_PIECES {
      var n :| 0 <= n < |T.SPECIAL_PIECES| && T.SPECIAL_PIECES[n] == Joined(merges[i]);
      SpecialInStart(wordCounts[k].0, left, n, right);
    }
    forall c | c in Joined(merges[i]) ensures c in Alphabet(wordCounts) {
      assert c in w;
      if c !in T.WORD_START { AllTextHas(wordCounts, k, c); }
      SortedSetSorts(T.WORD_START + AllText(wordCounts));
    }
  }

  /** The guard `joined not in self.piece_to_id` is always true: the vocabulary has no duplicates. */
  lemma VocabularyIsDistinct(wordCounts: Counter<string>, merges: seq<Pair>)
    requires TrainedOn(wordCounts, merges)
    ensures Distinct(Vocabulary(Alphabet(wordCounts), merges))
    ensures |Vocabulary(Alphabet(wordCounts), merges)| == 5 + |Alphabet(wordCounts)| + |merges|
  {
    var alphabet := Alphabet(wordCounts);
    var v := Vocabulary(alphabet, merges);
    var a := |alphabet|;
    CharsAt(alphabet);
    SortedSetSorts(T.WORD_START + AllText(wordCounts));
    forall i | 5 + a <= i < |v| ensures v[i] == Joined(merges[i - 5 - a]) && |v[i]| >= 2 && v[i] !in T.SPECIAL_PIECES {
      ProductIsNew(wordCounts, merges, i - 5 - a);
    }
    forall i, j | 0 <= i < j < |v| ensures v[i] != v[j] {
      if i >= 5 + a {
        ProductsAreDistinct(Starts(wordCounts), merges, i - 5 - a, j - 5 - a);
      } else if j >= 5 + a {
        if i < 5 { assert v[i] in T.SPECIAL_PIECES; }
      } else if i >= 5 {
        assert v[i] == [alphabet[i - 5]] && v[j] == [alphabet[j - 5]];
      } else if j >= 5 {
        assert v[j] == [alphabet[j - 5]] && |v[i]| > 1;
      }
    }
  }

  // ---------- encoding and decoding ----------

  function PieceId(pieceToId: map<string, nat>, piece: string): nat {
    if piece in pieceToId then pieceToId[piece] else UNK_ID
  }

  function PieceIds(pieceToId: map<string, nat>, symbols: Symbols): seq<nat> {
    if symbols == [] then [] else [PieceId(pieceToId, symbols[0])] + PieceIds(pieceToId, symbols[1..])
  }

  function WordIds(pieceToId: map<string, nat>, ranks: map<Pair, nat>, words: seq<string>): seq<nat> {
    if words == [] then []
    else WordIds(pieceToId, ranks, words[..|words| - 1])
         + PieceIds(pieceToId, LowestRankFirst(Chars(T.WORD_START + words[|words| - 1]), ranks))
  }

  /** The ids a tokenizer with these pieces and merges gives to a text. */
  function EncodeText(pieces: seq<string>, merges: seq<Pair>, nfkc: string, addSpecial: bool): Result<seq<nat>, Error> {
    match T.Normalize(nfkc)
    case Err(e) => Err(BadText(e))
    case Ok(text) =>
      var ids := WordIds(Enumerated(pieces), Enumerated(merges), T.Split(text));
      Ok(if addSpecial then [CLS_ID] + ids + [SEP_ID] else ids)
  }

  predicate IsControl(id: int) { id == 0 || id == 2 || id == 3 || id == 4 }

  /** The shown pieces of the ids, or the first id outside the vocabulary. */
  function ShownPieces(pieces: seq<string>, ids: seq<int>, skipSpecial: bool): Result<seq<string>, Error> {
    if ids == [] then Ok([])
    else
      var n := |ids| - 1;
      match ShownPieces(pieces, ids[..n], skipSpecial)
      case Err(e) => Err(e)
      case Ok(shown) =>
        if !(0 <= ids[n] < |pieces|) then Err(OutsideVocabulary(ids[n]))
        else Ok(if skipSpecial && IsControl(ids[n]) then shown else shown + [pieces[ids[n]]])
  }

  function DecodeIds(pieces: seq<string>, ids: seq<int>, skipSpecial: bool): Result<string, Error> {
    match ShownPieces(pieces, ids, skipSpecial)
    case Err(e) => Err(e)
    case Ok(shown) => Ok(T.Strip(T.Replace(Concat(shown), T.MARK, ' ')))
  }

  // ---------- saving and loading ----------

  function MergeLists(merges: seq<Pair>): (lists: seq<Symbols>)
    ensures |lists| == |merges| && forall i :: 0 <= i < |merges| ==> lists[i] == [merges[i].0, merges[i].1]
  {
    if merges == [] then [] else MergeLists(merges[..|merges| - 1]) + [[merges[|merges| - 1].0, merges[|merges| - 1].1]]
  }

  function Save(pieces: seq<string>, merges: seq<Pair>): Saved {
    Saved(1, NORMALIZATION, T.WORD_START, pieces, MergeLists(merges))
  }

  predicate FitsPieces(merge: Symbols, pieces: seq<string>) {
    |merge| == 2 && merge[0] in pieces && merge[1] in pieces && merge[0] + merge[1] in pieces
  }

  /** The saved state is accepted exactly when none of the four complaints applies. */
  ghost predicate Acceptable(saved: Saved) {
    && saved.version == 1 && saved.wordStart == T.WORD_START && saved.normalization == NORMALIZATION
    && |saved.pieces| >= 5 && saved.pieces[..5] == T.SPECIAL_PIECES && Distinct(saved.pieces)
    && (forall i :: 0 <= i < |saved.merges| ==> FitsPieces(saved.merges[i], saved.pieces))
    && Distinct(saved.merges)
  }

  // ---------- laws ----------

  lemma EnumeratedRanks(merges: seq<Pair>)
    ensures RanksOf(Enumerated(merges), merges)
  {
    EnumeratedIndex(merges);
  }

  /** For every word, seen in training or not, the encoder cuts by learned order. */
  lemma EncoderCutsInLearnedOrder(wordCounts: Counter<string>, merges: seq<Pair>, w: string)
    requires TrainedOn(wordCounts, merges)
    ensures LowestRankFirst(Chars(w), Enumerated(merges)) == ApplyAll(merges, Chars(w))
  {
    AttestedIsWellOrdered(Starts(wordCounts), merges);
    EnumeratedRanks(merges);
    LowestRankIsLearnedOrder(merges, Enumerated(merges), Chars(w));
  }

  /** Every training word is encoded by exactly the cut it ended training with. */
  lemma TrainingWordsKeepTheirCut(wordCounts: Counter<string>, merges: seq<Pair>, i: nat)
    requires TrainedOn(wordCounts, merges) && i < |wordCounts|
    ensures Cut(merges, wordCounts)[i].0 == LowestRankFirst(Chars(T.WORD_START + wordCounts[i].0), Enumerated(merges))
  {
    EncoderCutsInLearnedOrder(wordCounts, merges, T.WORD_START + wordCounts[i].0);
  }

  /** Saving a trained tokenizer and loading it is accepted. */
  lemma SavedIsAcceptable(wordCounts: Counter<string>, merges: seq<Pair>)
    requires TrainedOn(wordCounts, merges)
    ensures Acceptable(Save(Vocabulary(Alphabet(wordCounts), merges), merges))
  {
    var pieces := Vocabulary(Alphabet(wordCounts), merges);
    var lists := MergeLists(merges);
    VocabularyIsDistinct(wordCounts, merges);
    assert pieces[..5] == T.SPECIAL_PIECES;
    forall i, j | 0 <= i < j < |lists| ensures lists[i] != lists[j] {
      ProductsAreDistinct(Starts(wordCounts), merges, i, j);
      assert lists[i][0] == merges[i].0 && lists[i][1] == merges[i].1 && lists[j][0] == merges[j].0
        && lists[j][1] == merges[j].1;
    }
    forall i | 0 <= i < |lists| ensures FitsPieces(lists[i], pieces) {
      ProductIsPiece(wordCounts, merges, i);
      AttestedComponent(wordCounts, merges, i, merges[i].0);
      AttestedComponent(wordCounts, merges, i, merges[i].1);
    }
  }

  lemma ProductIsPiece(wordCounts: Counter<string>, merges: seq<Pair>, i: nat)
    requires i < |merges|
    ensures Joined(merges[i]) in Vocabulary(Alphabet(wordCounts), merges)
  {
    assert Joined(merges[i]) == Products(merges)[i];
  }

  /** What a merge joins is itself a piece. */
  lemma AttestedComponent(wordCounts: Counter<string>, merges: seq<Pair>, i: nat, x: string)
    requires TrainedOn(wordCounts, merges) && i < |merges| && (x == merges[i].0 || x == merges[i].1)
    ensures x in Vocabulary(Alphabet(wordCounts), merges)
  {
    var starts := Starts(wordCounts);
    assert AttestedAt(starts, merges, i);
    var w :| w in starts && Occurs(merges[i], ApplyAll(merges[..i], Chars(w)));
    OccurringSymbols(merges[i], ApplyAll(merges[..i], Chars(w)));
    SymbolOrigin(merges[..i], w, x);
    if |x| == 1 {
      ProductIsNew(wordCounts, merges, i);
      assert x[0] in Joined(merges[i]) && x == [x[0]];
      KnownCharIsPiece(wordCounts, merges, x[0]);
    } else {
      var j :| 0 <= j < i && x == Joined(merges[..i][j]);
      ProductIsPiece(wordCounts, merges, j);
    }
  }

  lemma KnownCharIsPiece(wordCounts: Counter<string>, merges: seq<Pair>, c: char)
    requires TrainedOn(wordCounts, merges)
    ensures [c] in Vocabulary(Alphabet(wordCounts), merges) <==> c in Alphabet(wordCounts)
  {
    var alphabet := Alphabet(wordCounts);
    var v := Vocabulary(alphabet, merges);
    CharsAt(alphabet);
    assert forall k :: 0 <= k < 5 ==> v[k] == T.SPECIAL_PIECES[k] && |v[k]| > 1;
    if c in alphabet {
      var i :| 0 <= i < |alphabet| && alphabet[i] == c;
      assert v[5 + i] == [c];
    }
    if [c] in v {
      var i :| 0 <= i < |v| && v[i] == [c];
      if i >= 5 + |alphabet| {
        ProductIsNew(wordCounts, merges, i - 5 - |alphabet|);
      } else if i >= 5 {
        assert v[i] == [alphabet[i - 5]] && [c][0] == c;
      }
    }
  }

  ghost function Known(wordCounts: Counter<string>): set<char> { set c | c in Alphabet(wordCounts) }

  /** A decoded symbol shows itself, or `[UNK]` for a character training never saw. */
  lemma DecodedSymbol(wordCounts: Counter<string>, merges: seq<Pair>, w: string, x: string)
    requires TrainedOn(wordCounts, merges) && x in ApplyAll(merges, Chars(w))
    ensures var pieces := Vocabulary(Alphabet(wordCounts), merges);
            var id := PieceId(Enumerated(pieces), x);
            id < |pieces| && !IsControl(id) && pieces[id] == T.ShowUnknown(x, Known(wordCounts))
  {
    var pieces := Vocabulary(Alphabet(wordCounts), merges);
    var id := PieceId(Enumerated(pieces), x);
    SymbolOrigin(merges, w, x);
    EnumeratedIndex(pieces);
    assert forall k :: 0 <= k < 5 ==> pieces[k] == T.SPECIAL_PIECES[k];
    if |x| == 1 {
      KnownCharIsPiece(wordCounts, merges, x[0]);
      assert x == [x[0]] && x[1..] == "";
      assert T.ShowUnknown(x, Known(wordCounts)) == (if x[0] in Known(wordCounts) then x[..1] else T.UNK) + "";
    } else {
      var i :| 0 <= i < |merges| && x == Joined(merges[i]);
      ProductIsPiece(wordCounts, merges, i);
      ProductIsNew(wordCounts, merges, i);
      T.ShowKnown(x, Known(wordCounts));
    }
  }

  lemma {:induction false} ShownAppend(pieces: seq<string>, a: seq<int>, b: seq<int>, skip: bool)
    requires ShownPieces(pieces, a, skip).Ok? && ShownPieces(pieces, b, skip).Ok?
    ensures ShownPieces(pieces, a + b, skip)
            == Ok(ShownPieces(pieces, a, skip).value + ShownPieces(pieces, b, skip).value)
  {
    var before := ShownPieces(pieces, a, skip).value;
    if b == [] {
      assert a + b == a && before + [] == before;
    } else {
      var n := |b| - 1;
      ShownAppend(pieces, a, b[..n], skip);
      var shown := ShownPieces(pieces, b[..n], skip).value;
      assert (a + b)[..|a + b| - 1] == a + b[..n] && (a + b)[|a + b| - 1] == b[n];
      assert before + (shown + [pieces[b[n]]]) == before + shown + [pieces[b[n]]];
    }
  }

  lemma {:induction false} SymbolsDecode(
    wordCounts: Counter<string>, merges: seq<Pair>, w: string, symbols: Symbols, skip: bool)
    requires TrainedOn(wordCounts, merges) && forall x :: x in symbols ==> x in ApplyAll(merges, Chars(w))
    ensures var pieces := Vocabulary(Alphabet(wordCounts), merges);
            var shown := ShownPieces(pieces, PieceIds(Enumerated(pieces), symbols), skip);
            shown.Ok? && Concat(shown.value) == T.ShowUnknown(Concat(symbols), Known(wordCounts))
  {
    if symbols != [] {
      var pieces := Vocabulary(Alphabet(wordCounts), merges);
      var known := Known(wordCounts);
      var x, rest := symbols[0], symbols[1..];
      var id := PieceId(Enumerated(pieces), x);
      SymbolsDecode(wordCounts, merges, w, rest, skip);
      DecodedSymbol(wordCounts, merges, w, x);
      var ids := PieceIds(Enumerated(pieces), rest);
      OneShown(pieces, id, skip);
      ShownAppend(pieces, [id], ids, skip);
      var shown := ShownPieces(pieces, ids, skip).value;
      assert PieceIds(Enumerated(pieces), symbols) == [id] + ids;
      assert ShownPieces(pieces, [id] + ids, skip) == Ok([pieces[id]] + shown);
      assert Concat([pieces[id]] + shown) == pieces[id] + Concat(shown) by {
        assert ([pieces[id]] + shown)[1..] == shown;
      }
      T.ShowAppend(x, Concat(rest), known);
    }
  }

  lemma OneShown(pieces: seq<string>, id: nat, skip: bool)
    requires id < |pieces| && !IsControl(id)
    ensures ShownPieces(pieces, [id], skip) == Ok([pieces[id]])
  {
    assert [id][..0] == [];
    assert ShownPieces(pieces, [id][..0], skip) == Ok([]) && [] + [pieces[id]] == [pieces[id]];
  }

  lemma {:induction false} WordsDecode(wordCounts: Counter<string>, merges: seq<Pair>, words: seq<string>, skip: bool)
    requires TrainedOn(wordCounts, merges)
    ensures var pieces := Vocabulary(Alphabet(wordCounts), merges);
            var shown := ShownPieces(pieces, WordIds(Enumerated(pieces), Enumerated(merges), words), skip);
            shown.Ok? && Concat(shown.value) == T.Marked(T.ShowWords(words, Known(wordCounts)))
  {
    if words != [] {
      var pieces := Vocabulary(Alphabet(wordCounts), merges);
      var n := |words| - 1;
      var w := T.WORD_START + words[n];
      WordsDecode(wordCounts, merges, words[..n], skip);
      EncoderCutsInLearnedOrder(wordCounts, merges, w);
      var symbols := ApplyAll(merges, Chars(w));
      SymbolsDecode(wordCounts, merges, w, symbols, skip);
      ApplyAllKeepsText(merges, Chars(w));
      CharsConcat(w);
      var before := WordIds(Enumerated(pieces), Enumerated(merges), words[..n]);
      var last := PieceIds(Enumerated(pieces), symbols);
      ShownAppend(pieces, before, last, skip);
      ConcatAppend(ShownPieces(pieces, before, skip).value, ShownPieces(pieces, last, skip).value);
      ShowStart(wordCounts, words[n]);
      MarkedLast(words, Known(wordCounts));
    }
  }

  lemma ShowStart(wordCounts: Counter<string>, w: string)
    ensures T.ShowUnknown(T.WORD_START + w, Known(wordCounts)) == T.WORD_START + T.ShowUnknown(w, Known(wordCounts))
  {
    var text := T.WORD_START + AllText(wordCounts);
    SortedSetSorts(text);
    assert text[0] == T.WORD_START[0] && text[0] in text;
    assert T.WORD_START[0] in Known(wordCounts);
    var start := T.WORD_START + w;
    assert start[1..] == w && start[..1] == T.WORD_START && start[0] in Known(wordCounts);
  }

  lemma {:induction false} MarkedLast(words: seq<string>, known: set<char>)
    requires words != []
    ensures var n := |words| - 1;
            T.Marked(T.ShowWords(words, known))
            == T.Marked(T.ShowWords(words[..n], known)) + (T.WORD_START + T.ShowUnknown(words[n], known))
  {
    var n := |words| - 1;
    var shown := T.ShowWords(words, known);
    if n == 0 {
      assert words[1..] == [];
      assert shown == [T.ShowUnknown(words[0], known)] && shown[1..] == [];
      assert T.Marked(shown) == T.WORD_START + shown[0] + T.Marked([]);
    } else {
      MarkedLast(words[1..], known);
      assert words[1..][..n - 1] == words[..n][1..];
      assert shown[1..] == T.ShowWords(words[1..], known);
      var front := T.ShowWords(words[..n], known);
      assert front[1..] == T.ShowWords(words[..n][1..], known);
    }
  }

  /** Decoding an encoded text gives the normalized text with unseen characters shown as `[UNK]`. */
  lemma DecodeOfEncode(wordCounts: Counter<string>, merges: seq<Pair>, nfkc: string, addSpecial: bool)
    requires TrainedOn(wordCounts, merges) && T.Normalize(nfkc).Ok?
    ensures var pieces := Vocabulary(Alphabet(wordCounts), merges);
            var ids := EncodeText(pieces, merges, nfkc, addSpecial);
            ids.Ok? && DecodeIds(pieces, ids.value, true)
              == Ok(Join(T.ShowWords(T.Split(nfkc), Known(wordCounts)), " "))
  {
    var pieces := Vocabulary(Alphabet(wordCounts), merges);
    T.NormalizeWords(nfkc);
    var words := T.Split(nfkc);
    WordsDecode(wordCounts, merges, words, true);
    forall w | w in words ensures T.Plain(w) && T.MARK !in w { T.CleanHasNoMark(w); }
    T.DecodedText(words, Known(wordCounts));
    ControlsHidden(pieces, WordIds(Enumerated(pieces), Enumerated(merges), words));
  }

  lemma ControlsHidden(pieces: seq<string>, ids: seq<int>)
    requires |pieces| >= 5 && ShownPieces(pieces, ids, true).Ok?
    ensures ShownPieces(pieces, [CLS_ID] + ids + [SEP_ID], true) == ShownPieces(pieces, ids, true)
  {
    HiddenControl(pieces, CLS_ID);
    HiddenControl(pieces, SEP_ID);
    HiddenAround(pieces, [CLS_ID], ids, [SEP_ID]);
  }

  lemma HiddenAround(pieces: seq<string>, a: seq<int>, ids: seq<int>, b: seq<int>)
    requires ShownPieces(pieces, a, true) == ShownPieces(pieces, b, true) == Ok([])
    requires ShownPieces(pieces, ids, true).Ok?
    ensures ShownPieces(pieces, a + ids + b, true) == ShownPieces(pieces, ids, true)
  {
    ShownAppend(pieces, a, ids, true);
    ShownAppend(pieces, a + ids, b, true);
    var shown := ShownPieces(pieces, ids, true).value;
    assert [] + shown == shown && shown + [] == shown;
  }

  lemma HiddenControl(pieces: seq<string>, id: nat)
    requires id < |pieces| && IsControl(id)
    ensures ShownPieces(pieces, [id], true) == Ok([])
  {
    assert [id][..0] == [];
    assert ShownPieces(pieces, [id][..0], true) == Ok([]);
  }

  /** Texts written in the learned alphabet come back normalized and otherwise unchanged. */
  lemma KnownTextsRoundTrip(wordCounts: Counter<string>, merges: seq<Pair>, nfkc: string, addSpecial: bool)
    requires TrainedOn(wordCounts, merges) && T.Normalize(nfkc).Ok?
    requires forall c :: c in nfkc && !IsSpace(c) ==> c in Alphabet(wordCounts)
    ensures var pieces := Vocabulary(Alphabet(wordCounts), merges);
            DecodeIds(pieces, EncodeText(pieces, merges, nfkc, addSpecial).value, true) == Ok(T.Normalize(nfkc).value)
  {
    DecodeOfEncode(wordCounts, merges, nfkc, addSpecial);
    ShowKnownWords(nfkc, Known(wordCounts));
  }

  lemma {:induction false} ShowKnownWords(t: string, known: set<char>)
    requires forall c :: c in t && !IsSpace(c) ==> c in known
    ensures T.ShowWords(T.Split(t), known) == T.Split(t)
    decreases |t|
  {
    if t == "" {
    } else if IsSpace(t[0]) {
      ShowKnownWords(t[1..], known);
    } else {
      var n := T.WordLength(t);
      ShowKnownWords(t[n..], known);
      T.ShowKnown(t[..n], known);
    }
  }
}
