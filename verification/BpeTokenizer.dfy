/** The tokenizer object: its tables are rebuilt step by step by training and by loading. */
module BpeTokenizer {
  import opened Basics
  import opened BpeMerges
  import opened BpeOrders
  import opened BpeWords
  import opened PythonText
  import opened Counters
  import opened BpeTraining
  import opened ScratchBpe
  import T = TokenText

  class ScratchBPE {
    var pieces: seq<string>
    var pieceToId: map<string, nat>
    var merges: seq<Pair>
    var mergeRanks: map<Pair, nat>
    var ready: bool

    ghost predicate Valid()
      reads this
    {
      && pieceToId == Enumerated(pieces)
      && (ready ==> mergeRanks == Enumerated(merges))
    }

    /** The tables are those of a completed training on these word counts. */
    ghost predicate FittedOn(wordCounts: Counter<string>)
      reads this
    {
      && Valid() && ready
      && TrainedOn(wordCounts, merges)
      && pieces == Vocabulary(Alphabet(wordCounts), merges)
    }

    constructor ()
      ensures Valid() && !ready && pieces == T.SPECIAL_PIECES && merges == []
    {
      pieces := T.SPECIAL_PIECES;
      pieceToId := Enumerated(T.SPECIAL_PIECES);
      merges := [];
      mergeRanks := map[];
      ready := false;
    }

    method Reset()
      modifies this
      ensures Valid() && !ready && pieces == T.SPECIAL_PIECES && merges == []
    {
      pieces := T.SPECIAL_PIECES;
      pieceToId := Enumerated(T.SPECIAL_PIECES);
      merges := [];
      mergeRanks := map[];
      ready := false;
    }

    static method CollectWords(texts: seq<string>) returns (r: Result<Counter<string>, Error>)
      ensures r == match AllWords(texts) case Err(e) => Err(e) case Ok(words) => Ok(CountWords(words))
    {
      var counts: Counter<string> := [];
      ghost var seen: seq<string> := [];
      assert texts[..0] == [];
      for i := 0 to |texts|
        invariant AllWords(texts[..i]) == Ok(seen) && counts == CountWords(seen)
      {
        assert texts[..i + 1][..i] == texts[..i];
        match T.Normalize(texts[i]) {
          case Err(e) =>
            FirstTextError(texts, i);
            return Err(BadText(e));
          case Ok(text) =>
            var words := T.Split(text);
            counts := CountInto(counts, words, seen);
            seen := seen + words;
        }
      }
      assert texts[..|texts|] == texts;
      r := Ok(counts);
    }

    static method CountInto(
      counts: Counter<string>, words: seq<string>, ghost seen: seq<string>) returns (r: Counter<string>)
      requires counts == CountWords(seen)
      ensures r == CountWords(seen + words)
    {
      r := counts;
      assert seen + words[..0] == seen;
      for k := 0 to |words|
        invariant r == CountWords(seen + words[..k])
      {
        r := Add(r, words[k], 1);
        assert (seen + words[..k + 1])[..|seen| + k] == seen + words[..k];
      }
      assert words[..|words|] == words;
    }

    /** Learns the merges of the texts; on any complaint the object is left as it was. */
    method Fit(texts: seq<string>, numMerges: int, minPairFrequency: int) returns (r: Result<(), Error>)
      modifies this
      ensures r.Err? ==> pieces == old(pieces) && pieceToId == old(pieceToId) && merges == old(merges)
                         && mergeRanks == old(mergeRanks) && ready == old(ready)
      ensures r == if numMerges < 0 || minPairFrequency < 1 then Err(BadParameter)
                   else match AllWords(texts)
                        case Err(e) => Err(e)
                        case Ok(words) => if words == [] then Err(NothingToLearn) else Ok(())
      ensures r.Ok? ==>
                var wordCounts := CountWords(AllWords(texts).value);
                FittedOn(wordCounts) && Learned(wordCounts, numMerges, minPairFrequency, merges)
    {
      if numMerges < 0 || minPairFrequency < 1 { return Err(BadParameter); }
      var collected := CollectWords(texts);
      if collected.Err? { return Err(collected.error); }
      var wordCounts := collected.value;
      ghost var words := AllWords(texts).value;
      assert words == [] <==> wordCounts == [] by {
        if words != [] { CountWordsCounts(words, words[0]); }
      }
      if wordCounts == [] { return Err(NothingToLearn); }
      CountedWordsAreClean(texts);
      Reset();
      LearnMerges(wordCounts, numMerges, minPairFrequency);
      mergeRanks := Enumerated(merges);
      ready := true;
      r := Ok(());
    }

    /** The training loop, started from the special pieces alone. */
    method LearnMerges(wordCounts: Counter<string>, numMerges: nat, minPairFrequency: nat)
      requires minPairFrequency >= 1 && TrainedOn(wordCounts, [])
      requires pieces == T.SPECIAL_PIECES && merges == []
      modifies `merges, `pieces, `pieceToId
      ensures TrainedOn(wordCounts, merges) && Learned(wordCounts, numMerges, minPairFrequency, merges)
      ensures pieces == Vocabulary(Alphabet(wordCounts), merges) && pieceToId == Enumerated(pieces)
    {
      pieces := pieces + Chars(Alphabet(wordCounts));
      pieceToId := Enumerated(pieces);
      var segmented := SingleCharacters(wordCounts);
      assert pieces == Vocabulary(Alphabet(wordCounts), []);
      for step := 0 to numMerges
        invariant |merges| == step
        invariant forall i :: 0 <= i < step ==> LearnedAt(wordCounts, minPairFrequency, merges, i)
        invariant TrainedOn(wordCounts, merges)
        invariant segmented == Cut(merges, wordCounts)
        invariant pieces == Vocabulary(Alphabet(wordCounts), merges) && pieceToId == Enumerated(pieces)
      {
        var candidate := BestCandidate(segmented, minPairFrequency);
        if candidate.None? { break; }
        ghost var before := merges;
        ExtendLearned(wordCounts, minPairFrequency, merges, candidate.value);
        AppendMerge(candidate.value, wordCounts);
        segmented := Recut(segmented, candidate.value, before, wordCounts);
      }
    }

    /** Records a merge and its piece; the guard on the piece is always true. */
    method AppendMerge(pair: Pair, ghost wordCounts: Counter<string>)
      requires TrainedOn(wordCounts, merges + [pair])
      requires pieces == Vocabulary(Alphabet(wordCounts), merges) && pieceToId == Enumerated(pieces)
      modifies `merges, `pieces, `pieceToId
      ensures merges == old(merges) + [pair]
      ensures pieces == Vocabulary(Alphabet(wordCounts), merges) && pieceToId == Enumerated(pieces)
      ensures pieces == old(pieces) + [Joined(pair)]
    {
      merges := merges + [pair];
      assert merges[..|merges| - 1] == old(merges);
      var joined := pair.0 + pair.1;
      VocabularyIsDistinct(wordCounts, merges);
      assert Vocabulary(Alphabet(wordCounts), merges) == pieces + [joined];
      LastIsNew(pieces, joined);
      EnumeratedAppend(pieces, joined);
      if joined !in pieceToId {
        pieceToId := pieceToId[joined := |pieces|];
        pieces := pieces + [joined];
      }
    }

    method Encode(nfkc: string, addSpecialTokens: bool) returns (r: Result<seq<nat>, Error>)
      requires Valid()
      ensures r == if !ready then Err(NotReady) else EncodeText(pieces, merges, nfkc, addSpecialTokens)
    {
      hide PieceId, LowestRankFirst, Chars, T.Normalize, T.Split;
      if !ready { return Err(NotReady); }
      match T.Normalize(nfkc) {
        case Err(e) => return Err(BadText(e));
        case Ok(text) =>
          var words := T.Split(text);
          var ids: seq<nat> := [];
          for i := 0 to |words|
            invariant ids == WordIds(pieceToId, mergeRanks, words[..i])
          {
            var symbols := ApplyBpe(T.WORD_START + words[i], mergeRanks);
            ghost var before := ids;
            for k := 0 to |symbols|
              invariant ids + PieceIds(pieceToId, symbols[k..]) == before + PieceIds(pieceToId, symbols)
            {
              assert symbols[k..][1..] == symbols[k + 1..];
              ids := ids + [PieceId(pieceToId, symbols[k])];
            }
            assert words[..i + 1][..i] == words[..i];
          }
          assert words[..|words|] == words;
          r := Ok(if addSpecialTokens then [CLS_ID] + ids + [SEP_ID] else ids);
      }
    }

    method Decode(ids: seq<int>, skipSpecialTokens: bool) returns (r: Result<string, Error>)
      requires Valid()
      ensures r == if !ready then Err(NotReady) else DecodeIds(pieces, ids, skipSpecialTokens)
    {
      if !ready { return Err(NotReady); }
      var shown: seq<string> := [];
      for i := 0 to |ids|
        invariant ShownPieces(pieces, ids[..i], skipSpecialTokens) == Ok(shown)
      {
        assert ids[..i + 1][..i] == ids[..i];
        var index := ids[i];
        if !(0 <= index < |pieces|) {
          FirstUnshown(pieces, ids, skipSpecialTokens, i);
          return Err(OutsideVocabulary(index));
        }
        if !(skipSpecialTokens && IsControl(index)) {
          shown := shown + [pieces[index]];
        }
      }
      assert ids[..|ids|] == ids;
      r := Ok(T.Strip(T.Replace(Concat(shown), T.MARK, ' ')));
    }

    method ToDict() returns (r: Result<Saved, Error>)
      requires Valid()
      ensures r == if !ready then Err(NotReady) else Ok(Save(pieces, merges))
    {
      if !ready { return Err(NotReady); }
      r := Ok(Saved(1, NORMALIZATION, T.WORD_START, pieces, MergeLists(merges)));
    }

    /** Loading: accepted exactly when the saved tables are consistent, and then they are the object's tables. */
    static method FromDict(saved: Saved) returns (r: Result<ScratchBPE, Error>)
      ensures r.Ok? <==> Acceptable(saved)
      ensures r.Ok? ==> fresh(r.value) && r.value.Valid() && r.value.ready
                        && r.value.pieces == saved.pieces && MergeLists(r.value.merges) == saved.merges
    {
      hide FitsPieces, Enumerated, MergeLists;
      if saved.version != 1 || saved.wordStart != T.WORD_START || saved.normalization != NORMALIZATION {
        return Err(UnknownFormat);
      }
      var obj := new ScratchBPE();
      obj.pieces := saved.pieces;
      var unique := AllDistinct(obj.pieces);
      if |obj.pieces| < 5 || obj.pieces[..5] != T.SPECIAL_PIECES || !unique { return Err(BadPieces); }
      obj.pieceToId := Enumerated(obj.pieces);
      var merges := MergeTuples(saved.merges, saved.pieces, obj.pieceToId);
      if merges.None? { return Err(MergesWithoutPieces); }
      obj.merges := merges.value;
      unique := AllDistinct(saved.merges);
      if !unique { return Err(DuplicateMerges); }
      obj.mergeRanks := Enumerated(obj.merges);
      obj.ready := true;
      r := Ok(obj);
    }
  }

  /** The pair training takes next, unless none is frequent enough. */
  method BestCandidate(segmented: Counter<Symbols>, minFrequency: nat) returns (r: Option<Pair>)
    requires minFrequency >= 1
    ensures r.Some? ==> Weight(segmented, r.value) >= minFrequency
    ensures r.Some? ==> forall q :: Preferred(r.value, Weight(segmented, r.value), q, Weight(segmented, q))
    ensures r.None? ==> forall q :: Weight(segmented, q) < minFrequency
  {
    var counts := CountPairs(segmented);
    if counts == [] {
      assert forall q :: !HasKey(counts, q);
      return None;
    }
    var pair := ChoosePair(counts);
    PreferredToAll(counts, segmented, pair);
    r := if Get(counts, pair) < minFrequency then None else Some(pair);
  }

  method MergeTuples(
    lists: seq<Symbols>, pieces: seq<string>, pieceToId: map<string, nat>) returns (r: Option<seq<Pair>>)
    requires pieceToId == Enumerated(pieces)
    ensures r.Some? <==> forall i :: 0 <= i < |lists| ==> FitsPieces(lists[i], pieces)
    ensures r.Some? ==> MergeLists(r.value) == lists
  {
    EnumeratedIndex(pieces);
    var merges: seq<Pair> := [];
    for i := 0 to |lists|
      invariant forall k :: 0 <= k < i ==> FitsPieces(lists[k], pieces)
      invariant MergeLists(merges) == lists[..i]
    {
      var merge := lists[i];
      if |merge| != 2 || merge[0] !in pieceToId || merge[1] !in pieceToId || merge[0] + merge[1] !in pieceToId {
        assert !FitsPieces(lists[i], pieces);
        return None;
      }
      assert (merges + [(merge[0], merge[1])])[..|merges|] == merges;
      merges := merges + [(merge[0], merge[1])];
      assert merge == [merge[0], merge[1]];
    }
    r := Some(merges);
  }

  method SingleCharacters(wordCounts: Counter<string>) returns (segmented: Counter<Symbols>)
    ensures segmented == Cut([], wordCounts)
  {
    segmented := [];
    for i := 0 to |wordCounts|
      invariant segmented == Cut([], wordCounts)[..i]
    {
      segmented := segmented + [(Chars(T.WORD_START + wordCounts[i].0), wordCounts[i].1)];
    }
  }

  method AllDistinct<K(==)>(items: seq<K>) returns (r: bool)
    ensures r == Distinct(items)
  {
    for i := 0 to |items|
      invariant Distinct(items[..i])
    {
      if items[i] in items[..i] {
        var k :| 0 <= k < i && items[k] == items[i];
        return false;
      }
    }
    assert items[..|items|] == items;
    return true;
  }

  // ---------- steps of the training loop ----------

  lemma {:induction false} FirstTextError(texts: seq<string>, i: nat)
    requires i < |texts| && AllWords(texts[..i + 1]).Err?
    ensures AllWords(texts) == AllWords(texts[..i + 1])
  {
    if i + 1 < |texts| {
      assert texts[..|texts| - 1][..i + 1] == texts[..i + 1];
      FirstTextError(texts[..|texts| - 1], i);
    } else {
      assert texts[..i + 1] == texts;
    }
  }

  lemma {:induction false} FirstUnshown(pieces: seq<string>, ids: seq<int>, skip: bool, i: nat)
    requires i < |ids| && ShownPieces(pieces, ids[..i + 1], skip).Err?
    ensures ShownPieces(pieces, ids, skip) == ShownPieces(pieces, ids[..i + 1], skip)
  {
    if i + 1 < |ids| {
      assert ids[..|ids| - 1][..i + 1] == ids[..i + 1];
      FirstUnshown(pieces, ids[..|ids| - 1], skip, i);
    } else {
      assert ids[..i + 1] == ids;
    }
  }

  lemma {:induction false} AllWordsClean(texts: seq<string>)
    requires AllWords(texts).Ok?
    ensures forall w :: w in AllWords(texts).value ==> T.CleanWord(w)
  {
    if texts != [] {
      var n := |texts| - 1;
      AllWordsClean(texts[..n]);
      T.NormalizeWords(texts[n]);
    }
  }

  lemma CountedWordsAreClean(texts: seq<string>)
    requires AllWords(texts).Ok?
    ensures TrainedOn(CountWords(AllWords(texts).value), [])
  {
    var words := AllWords(texts).value;
    var c := CountWords(words);
    AllWordsClean(texts);
    CountWordsCounts(words, "");
    forall i | 0 <= i < |c| ensures T.CleanWord(c[i].0) {
      CountWordsCounts(words, c[i].0);
    }
  }

  lemma PreferredToAll(counts: Counter<Pair>, segmented: Counter<Symbols>, pair: Pair)
    requires DistinctKeys(counts) && IsWeight(counts, segmented)
    requires forall p :: Weight(segmented, p) > 0 ==> HasKey(counts, p)
    requires HasKey(counts, pair)
    requires forall i :: 0 <= i < |counts| ==> Preferred(pair, Get(counts, pair), counts[i].0, counts[i].1)
    ensures Get(counts, pair) == Weight(segmented, pair)
    ensures forall q :: Weight(segmented, q) <= Weight(segmented, pair)
    ensures Get(counts, pair) > 0 ==> forall q :: Preferred(pair, Weight(segmented, pair), q, Weight(segmented, q))
  {
    assert Get(counts, pair) == Weight(segmented, pair);
    forall q ensures Weight(segmented, q) <= Weight(segmented, pair)
             ensures Get(counts, pair) > 0 ==> Preferred(pair, Weight(segmented, pair), q, Weight(segmented, q)) {
      assert Get(counts, pair) == Weight(segmented, pair) && Get(counts, q) == Weight(segmented, q);
      if Weight(segmented, q) > 0 {
        var i :| 0 <= i < |counts| && counts[i].0 == q;
        GetAt(counts, i);
      }
    }
  }

  lemma ExtendLearned(wordCounts: Counter<string>, minFrequency: nat, merges: seq<Pair>, pair: Pair)
    requires minFrequency >= 1 && TrainedOn(wordCounts, merges)
    requires forall i :: 0 <= i < |merges| ==> LearnedAt(wordCounts, minFrequency, merges, i)
    requires var cut := Cut(merges, wordCounts);
             Weight(cut, pair) >= minFrequency && forall q :: Preferred(pair, Weight(cut, pair), q, Weight(cut, q))
    ensures TrainedOn(wordCounts, merges + [pair])
    ensures forall i :: 0 <= i < |merges + [pair]| ==> LearnedAt(wordCounts, minFrequency, merges + [pair], i)
  {
    var all := merges + [pair];
    forall i | 0 <= i < |all| ensures LearnedAt(wordCounts, minFrequency, all, i) {
      if i < |merges| {
        assert LearnedAt(wordCounts, minFrequency, merges, i) && all[..i] == merges[..i];
      } else {
        assert all[..i] == merges;
      }
    }
    forall i | 0 <= i < |all| ensures AttestedAt(Starts(wordCounts), all, i) {
      LearnedAtIsAttested(wordCounts, minFrequency, all, i);
    }
  }

  lemma LastIsNew(pieces: seq<string>, last: string)
    requires Distinct(pieces + [last])
    ensures last !in Enumerated(pieces)
  {
    EnumeratedIndex(pieces);
    forall i | 0 <= i < |pieces| ensures pieces[i] != last {
      assert (pieces + [last])[i] != (pieces + [last])[|pieces|];
    }
  }

  // ---------- whole-object laws ----------

  /** Loading what a trained tokenizer saved is accepted and gives the same tables, so every text gets the same ids. */
  method SaveAndLoad(t: ScratchBPE, ghost wordCounts: Counter<string>, nfkc: string, addSpecialTokens: bool)
    returns (a: Result<seq<nat>, Error>, b: Result<seq<nat>, Error>)
    requires t.FittedOn(wordCounts)
    ensures a == b == EncodeText(t.pieces, t.merges, nfkc, addSpecialTokens)
  {
    SavedIsAcceptable(wordCounts, t.merges);
    var saved := t.ToDict();
    var loaded := ScratchBPE.FromDict(saved.value);
    MergeListsInjective(t.merges, loaded.value.merges);
    a := t.Encode(nfkc, addSpecialTokens);
    b := loaded.value.Encode(nfkc, addSpecialTokens);
  }

  lemma MergeListsInjective(a: seq<Pair>, b: seq<Pair>)
    requires MergeLists(a) == MergeLists(b)
    ensures a == b
  {
    assert |a| == |MergeLists(a)| == |b|;
    forall i | 0 <= i < |a| ensures a[i] == b[i] {
      assert MergeLists(a)[i] == [a[i].0, a[i].1] && MergeLists(b)[i] == [b[i].0, b[i].1];
      assert MergeLists(a)[i][0] == MergeLists(b)[i][0] && MergeLists(a)[i][1] == MergeLists(b)[i][1];
    }
  }

  const UNLEARNABLE: seq<Pair> := [("ab", "c"), ("a", "b")]

  /** A saved state can be accepted whose two merge orders disagree on a word; training never saves such a state. */
  lemma LoadableListsMayDisagree()
    ensures Acceptable(Save(T.SPECIAL_PIECES + ["a", "b", "c", "ab", "abc"], UNLEARNABLE))
    ensures T.CleanWord("abc") && !AgreeOn(UNLEARNABLE, Enumerated(UNLEARNABLE), T.WORD_START + "abc")
    ensures !JoinsFittingProducts(UNLEARNABLE) && !Settled(UNLEARNABLE)
  {
    hide Acceptable, Save, Enumerated, Settled, ApplyAll, LowestRankFirst, T.CleanWord;
    UnlearnableIsAcceptable();
    EnumeratedRanks(UNLEARNABLE);
    var ranks, marked := Enumerated(UNLEARNABLE), Chars(T.WORD_START + "abc");
    CharsOfAbc();
    AbcIsClean();
    UnlearnableLeaves();
    assert ApplyAll(UNLEARNABLE, marked)[1] == "ab" && ApplyAll(UNLEARNABLE, marked)[1 + 1] == "c";
    GreedyIsDone(marked, ranks, UNLEARNABLE[0]);
    assert Joined(UNLEARNABLE[0]) == "abc" && LeftInTwo(UNLEARNABLE, 0);
    AcceptableIsDistinct(T.SPECIAL_PIECES + ["a", "b", "c", "ab", "abc"], UNLEARNABLE);
    OrdersAgreeIffSettled(UNLEARNABLE, ranks);
  }

  /** Learned order comes too late for the merge of ab with c. */
  lemma UnlearnableLeaves()
    ensures ApplyAll(UNLEARNABLE, Chars("abc")) == ["ab", "c"]
    ensures ApplyAll(UNLEARNABLE, Chars(T.WORD_START + "abc")) == [T.WORD_START, "ab", "c"]
  {
    hide Merge;
    CharsOfAbc();
    AbcMerged();
    var late, early, s := UNLEARNABLE[0], UNLEARNABLE[1], ["a", "b", "c"];
    assert UNLEARNABLE[..1] == [late] && UNLEARNABLE[..1][..0] == [];
    var marked := [T.WORD_START] + s;
    MergeHead(marked, late);
    MergeHead(marked, early);
    assert marked[1..] == s && marked[0] == T.WORD_START;
    assert T.WORD_START != "ab" && T.WORD_START != "a" by { assert T.WORD_START[0] == T.MARK; }
    assert Merge(marked, late) == marked && Merge(marked, early) == [T.WORD_START] + ["ab", "c"];
    assert marked == [T.WORD_START, "a", "b", "c"] && [T.WORD_START] + ["ab", "c"] == [T.WORD_START, "ab", "c"];
    assert ApplyAll([late], marked) == marked;
  }

  lemma AbcMerged()
    ensures Merge(["a", "b", "c"], ("ab", "c")) == ["a", "b", "c"] && Merge(["a", "b", "c"], ("a", "b")) == ["ab", "c"]
  {
    var s, late, early := ["a", "b", "c"], ("ab", "c"), ("a", "b");
    assert "a" + "b" == "ab";
    assert !Occurs(late, s) by { assert s[0] != "ab" && s[1] != "ab"; }
    MergeKeepsText(s, late);
    MergeHead(s, early);
    assert s[2..] == ["c"];
    MergeHead(["c"], early);
    NothingToMerge(early);
    assert ["c"][1..] == [];
  }

  lemma AbcIsClean()
    ensures T.CleanWord("abc")
  {
    var w := "abc";
    assert w[0] == 'a' && w[1] == 'b' && w[2] == 'c';
    assert T.WORD_START[0] == T.MARK;
  }

  lemma CharsOfAbc()
    ensures Chars("abc") == ["a", "b", "c"] && Chars(T.WORD_START + "abc") == [T.WORD_START, "a", "b", "c"]
  {
    assert "abc"[1..] == "bc" && "bc"[1..] == "c" && "c"[1..] == "";
    assert "abc"[..1] == "a" && "bc"[..1] == "b" && "c"[..1] == "c";
    assert Chars("c") == ["c"] && Chars("bc") == ["b"] + Chars("c");
    var w := T.WORD_START + "abc";
    assert w[..1] == T.WORD_START && w[1..] == "abc";
    assert Chars(w) == [T.WORD_START] + Chars("abc");
  }

  lemma UnlearnableIsAcceptable()
    ensures Acceptable(Save(T.SPECIAL_PIECES + ["a", "b", "c", "ab", "abc"], UNLEARNABLE))
  {
    var a, b, c := "a", "b", "c";
    var ab, abc := a + b, a + b + c;
    assert ab == "ab" && abc == "abc";
    var pieces := T.SPECIAL_PIECES + [a, b, c, ab, abc];
    var lists := MergeLists(UNLEARNABLE);
    assert lists[0] == [ab, c] && lists[1] == [a, b];
    assert lists[0][0] != lists[1][0];
    assert pieces[5] == a && pieces[6] == b && pieces[7] == c && pieces[8] == ab && pieces[9] == abc;
    assert FitsPieces(lists[0], pieces) && FitsPieces(lists[1], pieces);
    assert pieces[..5] == T.SPECIAL_PIECES;
    PiecesDistinct(pieces);
  }

  lemma AcceptableIsDistinct(pieces: seq<string>, merges: seq<Pair>)
    requires Acceptable(Save(pieces, merges))
    ensures Distinct(merges)
  {
    var lists := MergeLists(merges);
    forall i, j | 0 <= i < j < |merges| ensures merges[i] != merges[j] { assert lists[i] != lists[j]; }
  }

  /**
   Exactly when an accepted state encodes by learned order: on all words of texts iff learned order
   joins every product that may stand in one (and some letter is spare), and on all symbol sequences
   iff the merge list is settled.
   */
  lemma LoadedOrdersAgreeIff(pieces: seq<string>, merges: seq<Pair>)
    requires Acceptable(Save(pieces, merges))
    ensures JoinsFittingProducts(merges) ==> AgreeOnText(merges, Enumerated(merges))
    ensures |LettersOf(merges)| < SYLLABLES && AgreeOnText(merges, Enumerated(merges)) ==> JoinsFittingProducts(merges)
    ensures (forall s :: LowestRankFirst(s, Enumerated(merges)) == ApplyAll(merges, s)) <==> Settled(merges)
  {
    hide Acceptable, Save, Distinct, JoinsFittingProducts, AgreeOnText, SpareLetter;
    AcceptableIsDistinct(pieces, merges);
    EnumeratedRanks(merges);
    OrdersAgreeOnTextIff(merges, Enumerated(merges));
    OrdersAgreeIffSettled(merges, Enumerated(merges));
    if |LettersOf(merges)| < SYLLABLES { var c := SomeLetterIsSpare(merges); }
  }

  lemma PiecesDistinct(pieces: seq<string>)
    requires pieces == T.SPECIAL_PIECES + ["a", "b", "c", "ab", "abc"]
    ensures Distinct(pieces)
  {
    var tags := ['P', 'U', 'C', 'S', 'M'];
    forall i | 0 <= i < 5 ensures |pieces[i]| >= 5 && pieces[i][1] == tags[i] {}
    assert pieces[5][0] == 'a' && pieces[6][0] == 'b' && pieces[7][0] == 'c';
    assert |pieces[5]| == 1 && |pieces[6]| == 1 && |pieces[7]| == 1 && |pieces[8]| == 2 && |pieces[9]| == 3;
    forall i, j | 0 <= i < j < |pieces| ensures pieces[i] != pieces[j] {
      if j < 5 { assert pieces[i][1] != pieces[j][1]; }
    }
  }
}
