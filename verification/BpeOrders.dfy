/**
 Exactly when the encoder's greedy order and the learned order of a merge list agree, for any list
 without repetitions.
 */
module BpeOrders {
  import opened Basics
  import opened BpeMerges
  import opened PythonText

  /** None of the first k merges can be applied. */
  predicate DoneBelow(merges: seq<Pair>, k: nat, s: Symbols)
    requires k <= |merges|
  {
    forall j :: 0 <= j < k ==> !Occurs(merges[j], s)
  }

  /** No step of the learned order lets an earlier merge apply again. */
  ghost predicate NeverReopens(merges: seq<Pair>, s: Symbols) {
    forall i :: 0 <= i <= |merges| ==> DoneBelow(merges, i, ApplyAll(merges[..i], s))
  }

  // ---------- what the two orders leave ----------

  lemma {:induction false} GreedyIsDone(s: Symbols, ranks: map<Pair, nat>, q: Pair)
    requires q in ranks
    ensures !Occurs(q, LowestRankFirst(s, ranks))
    decreases |s|
  {
    var best := BestPair(s, ranks);
    if best.Some? {
      MergeKeepsText(s, best.value);
      GreedyIsDone(Merge(s, best.value), ranks, q);
    }
  }

  lemma {:induction false} GreedyFromK(merges: seq<Pair>, ranks: map<Pair, nat>, k: nat, s: Symbols)
    requires Distinct(merges) && RanksOf(ranks, merges) && k <= |merges| && NeverReopens(merges, s)
    ensures LowestRankFirst(ApplyAll(merges[..k], s), ranks) == ApplyAll(merges, s)
    decreases |merges| - k
  {
    var t := ApplyAll(merges[..k], s);
    assert DoneBelow(merges, k, t);
    if k == |merges| {
      assert merges[..k] == merges;
    } else {
      var p := merges[k];
      assert merges[..k + 1][..k] == merges[..k];
      GreedyFromK(merges, ranks, k + 1, s);
      MergeKeepsText(t, p);
      if Occurs(p, t) { LowestIs(merges, ranks, k, t); }
    }
  }

  lemma LowestIs(merges: seq<Pair>, ranks: map<Pair, nat>, k: nat, t: Symbols)
    requires Distinct(merges) && RanksOf(ranks, merges) && k < |merges| && DoneBelow(merges, k, t)
    requires Occurs(merges[k], t)
    ensures BestPair(t, ranks) == Some(merges[k])
  {
    var best := BestPair(t, ranks).value;
    assert merges[ranks[merges[k]]] == merges[k] && merges[ranks[best]] == best;
  }

  /** Where no merge reopens an earlier one, the two orders give the same cut. */
  lemma NeverReopensAgrees(merges: seq<Pair>, ranks: map<Pair, nat>, s: Symbols)
    requires Distinct(merges) && RanksOf(ranks, merges) && NeverReopens(merges, s)
    ensures LowestRankFirst(s, ranks) == ApplyAll(merges, s)
  {
    GreedyFromK(merges, ranks, 0, s);
    assert merges[..0] == [];
  }

  /** Two symbols that no later merge joins stay as they are. */
  lemma {:induction false} PairStays(merges: seq<Pair>, n: nat, s: Symbols, q: Pair)
    requires n <= |merges| && ApplyAll(merges[..n], s) == [q.0, q.1] && forall k :: n <= k < |merges| ==> merges[k] != q
    ensures ApplyAll(merges, s) == [q.0, q.1]
  {
    if n < |merges| {
      var last := |merges| - 1;
      assert merges[..last][..n] == merges[..n];
      PairStays(merges[..last], n, s, q);
      OnlyThatPair(q, merges[last]);
      MergeKeepsText([q.0, q.1], merges[last]);
    } else {
      assert merges[..n] == merges;
    }
  }

  lemma OnlyThatPair(q: Pair, p: Pair)
    ensures Occurs(p, [q.0, q.1]) <==> p == q
  {
    var two := [q.0, q.1];
    assert two[0] == q.0 && two[0 + 1] == q.1;
  }

  /** A cut that learned order leaves in two, although the two are a merge, is not what the greedy order gives. */
  lemma LeftInTwoDiffers(merges: seq<Pair>, ranks: map<Pair, nat>, s: Symbols, q: Pair)
    requires RanksOf(ranks, merges) && q in merges && ApplyAll(merges, s) == [q.0, q.1]
    ensures LowestRankFirst(s, ranks) != ApplyAll(merges, s)
  {
    GreedyIsDone(s, ranks, q);
    OnlyThatPair(q, q);
  }

  // ---------- the step that reopens a merge ----------

  lemma {:induction false} MergeAtMostHalves(s: Symbols, p: Pair)
    ensures |s| <= 2 * |Merge(s, p)|
  {
    if s != [] { MergeAtMostHalves(if StartsWith(s, p) then s[2..] else s[1..], p); }
  }

  lemma RunOccurs(p: Pair, left: Symbols, mid: Symbols, right: Symbols)
    requires Occurs(p, mid)
    ensures Occurs(p, left + mid + right)
  {
    var k :| 0 <= k < |mid| - 1 && mid[k] == p.0 && mid[k + 1] == p.1;
    var s, n := left + mid + right, |left| + k;
    assert s[n] == mid[k] && s[n + 1] == mid[k + 1];
  }

  /**
   When merging reopens an earlier merge or itself, a run of at most four symbols turned into the
   two symbols of that merge.
   */
  lemma Reopening(merges: seq<Pair>, i: nat, j: nat, t: Symbols) returns (left: Symbols, mid: Symbols, right: Symbols)
    requires j <= i < |merges| && DoneBelow(merges, i, t) && Occurs(merges[j], Merge(t, merges[i]))
    ensures t == left + mid + right && Merge(mid, merges[i]) == [merges[j].0, merges[j].1]
    ensures mid != [merges[j].0, merges[j].1] && |mid| <= 4 && DoneBelow(merges, i, mid)
  {
    var p, q := merges[i], merges[j];
    var m := Merge(t, p);
    var k :| 0 <= k < |m| - 1 && m[k] == q.0 && m[k + 1] == q.1;
    var two := [q.0, q.1];
    assert m == m[..k] + (two + m[k + 2..]);
    var rest;
    left, rest := MergeSplit(t, p, m[..k], two + m[k + 2..]);
    mid, right := MergeSplit(rest, p, two, m[k + 2..]);
    assert t == left + mid + right;
    MergeAtMostHalves(mid, p);
    MergeKeepsText(mid, p);
    forall n | 0 <= n < i ensures !Occurs(merges[n], mid) {
      if Occurs(merges[n], mid) { RunOccurs(merges[n], left, mid, right); }
    }
    OnlyThatPair(q, q);
  }

  // ---------- all symbol sequences ----------

  /** Symbols on which merge j, done or not yet begun, becomes open by merge i. */
  predicate Reopens(merges: seq<Pair>, i: nat, j: nat, m: Symbols)
    requires j <= i < |merges|
  {
    var two := [merges[j].0, merges[j].1];
    |m| <= 4 && m != two && Merge(m, merges[i]) == two && DoneBelow(merges, i, m)
  }

  /** No merge opens an earlier one, or itself: a check on at most four symbols at a time. */
  ghost predicate Settled(merges: seq<Pair>) {
    forall i: nat, j: nat, m: Symbols :: j <= i < |merges| ==> !Reopens(merges, i, j, m)
  }

  lemma SettledStep(merges: seq<Pair>, i: nat, t: Symbols)
    requires Settled(merges) && i < |merges| && DoneBelow(merges, i, t)
    ensures DoneBelow(merges, i + 1, Merge(t, merges[i]))
  {
    forall j | 0 <= j <= i ensures !Occurs(merges[j], Merge(t, merges[i])) {
      if Occurs(merges[j], Merge(t, merges[i])) {
        var left, mid, right := Reopening(merges, i, j, t);
        assert Reopens(merges, i, j, mid);
      }
    }
  }

  lemma {:induction false} SettledNeverReopens(merges: seq<Pair>, s: Symbols, i: nat)
    requires Settled(merges) && i <= |merges|
    ensures DoneBelow(merges, i, ApplyAll(merges[..i], s))
  {
    if i > 0 {
      assert merges[..i][..i - 1] == merges[..i - 1];
      SettledNeverReopens(merges, s, i - 1);
      SettledStep(merges, i - 1, ApplyAll(merges[..i - 1], s));
    }
  }

  lemma {:induction false} DoneStays(merges: seq<Pair>, k: nat, s: Symbols)
    requires k <= |merges| && DoneBelow(merges, k, s)
    ensures ApplyAll(merges[..k], s) == s
  {
    if k > 0 {
      assert merges[..k][..k - 1] == merges[..k - 1];
      DoneStays(merges, k - 1, s);
      MergeKeepsText(s, merges[k - 1]);
    }
  }

  /** The two orders agree on every symbol sequence exactly when the list is settled. */
  lemma OrdersAgreeIffSettled(merges: seq<Pair>, ranks: map<Pair, nat>)
    requires Distinct(merges) && RanksOf(ranks, merges)
    ensures (forall s :: LowestRankFirst(s, ranks) == ApplyAll(merges, s)) <==> Settled(merges)
  {
    if Settled(merges) {
      forall s ensures LowestRankFirst(s, ranks) == ApplyAll(merges, s) {
        forall i | 0 <= i <= |merges| ensures DoneBelow(merges, i, ApplyAll(merges[..i], s)) {
          SettledNeverReopens(merges, s, i);
        }
        NeverReopensAgrees(merges, ranks, s);
      }
    } else {
      var i: nat, j: nat, m: Symbols :| j <= i < |merges| && Reopens(merges, i, j, m);
      var q := merges[j];
      DoneStays(merges, i, m);
      assert merges[..i + 1][..i] == merges[..i];
      PairStays(merges, i + 1, m, q);
      LeftInTwoDiffers(merges, ranks, m, q);
    }
  }

  /** A list in which nothing is produced after it is joined, as training gives, is settled. */
  lemma WellOrderedIsSettled(merges: seq<Pair>, ranks: map<Pair, nat>)
    requires WellOrdered(merges) && RanksOf(ranks, merges)
    ensures Settled(merges)
  {
    forall s ensures LowestRankFirst(s, ranks) == ApplyAll(merges, s) { LowestRankIsLearnedOrder(merges, ranks, s); }
    OrdersAgreeIffSettled(merges, ranks);
  }

  // ---------- all words ----------

  /** Learned order leaves the text of a product cut into the two symbols of its merge. */
  predicate LeftInTwo(merges: seq<Pair>, j: nat)
    requires j < |merges|
  {
    ApplyAll(merges, Chars(Joined(merges[j]))) == [merges[j].0, merges[j].1]
  }

  /** Learned order joins the text of every product. */
  predicate JoinsItsProducts(merges: seq<Pair>) { forall j :: 0 <= j < |merges| ==> !LeftInTwo(merges, j) }

  /** It joins every product whose text occurs in the word. */
  predicate JoinsIn(merges: seq<Pair>, w: string) {
    forall j :: 0 <= j < |merges| && LeftInTwo(merges, j) ==> !Contains(w, Joined(merges[j]))
  }

  lemma TwoConcat(q: Pair)
    ensures Concat([q.0, q.1]) == Joined(q)
  {
    assert [q.0, q.1][1..] == [q.1] && Concat([q.1]) == q.1 + "" == q.1;
  }

  /** The text of a run of symbols is part of the word. */
  lemma RunIsPart(merges: seq<Pair>, w: string, left: Symbols, mid: Symbols, right: Symbols)
    requires ApplyAll(merges, Chars(w)) == left + mid + right
    ensures Contains(w, Concat(mid))
  {
    ApplyAllKeepsText(merges, Chars(w));
    CharsConcat(w);
    ConcatAppend(left + mid, right);
    ConcatAppend(left, mid);
    var a, b := Concat(left), Concat(mid);
    assert w[|a|..|a| + |b|] == b;
    assert PartAt(w, b, |a|);
  }

  lemma {:induction false} WordNeverReopens(merges: seq<Pair>, w: string, i: nat)
    requires Distinct(merges) && JoinsIn(merges, w) && i <= |merges|
    ensures DoneBelow(merges, i, ApplyAll(merges[..i], Chars(w)))
  {
    hide Merge, Chars, ApplyAll, LeftInTwo, Contains, Occurs;
    if i > 0 {
      var before, p := merges[..i - 1], merges[i - 1];
      assert merges[..i][..i - 1] == before;
      WordNeverReopens(merges, w, i - 1);
      LastApplied(merges[..i], Chars(w));
      forall j | 0 <= j < i ensures !Occurs(merges[j], Merge(ApplyAll(before, Chars(w)), p)) {
        if Occurs(merges[j], Merge(ApplyAll(before, Chars(w)), p)) { ReopenedIsLeft(merges, w, i - 1, j); }
      }
    }
  }

  lemma LastApplied(merges: seq<Pair>, s: Symbols)
    requires merges != []
    ensures ApplyAll(merges, s) == Merge(ApplyAll(merges[..|merges| - 1], s), merges[|merges| - 1])
  {
    hide Merge;
  }

  /** A merge reopened in a word is one whose product, part of the word, is left in two. */
  lemma ReopenedIsLeft(merges: seq<Pair>, w: string, i: nat, j: nat)
    requires Distinct(merges) && j <= i < |merges| && DoneBelow(merges, i, ApplyAll(merges[..i], Chars(w)))
    requires Occurs(merges[j], Merge(ApplyAll(merges[..i], Chars(w)), merges[i]))
    ensures LeftInTwo(merges, j) && Contains(w, Joined(merges[j]))
  {
    hide Merge, Chars, Occurs, Contains, DoneBelow;
    var before, p, q := merges[..i], merges[i], merges[j];
    var t := ApplyAll(before, Chars(w));
    var left, mid, right := Reopening(merges, i, j, t);
    Locality(before, w, left, mid, right);
    RunIsPart(before, w, left, mid, right);
    MergeKeepsText(mid, p);
    TwoConcat(q);
    assert merges[..i + 1][..i] == before;
    LastApplied(merges[..i + 1], Chars(Joined(q)));
    PairStays(merges, i + 1, Chars(Joined(q)), q);
  }

  /** On a word all of whose products are joined, the two orders agree. */
  lemma OrdersAgreeIn(merges: seq<Pair>, ranks: map<Pair, nat>, w: string)
    requires Distinct(merges) && RanksOf(ranks, merges) && JoinsIn(merges, w)
    ensures LowestRankFirst(Chars(w), ranks) == ApplyAll(merges, Chars(w))
  {
    forall i | 0 <= i <= |merges| ensures DoneBelow(merges, i, ApplyAll(merges[..i], Chars(w))) {
      WordNeverReopens(merges, w, i);
    }
    NeverReopensAgrees(merges, ranks, Chars(w));
  }

  /** The two orders agree on every string exactly when learned order joins the texts of its own products. */
  lemma OrdersAgreeOnWordsIff(merges: seq<Pair>, ranks: map<Pair, nat>)
    requires Distinct(merges) && RanksOf(ranks, merges)
    ensures (forall w :: LowestRankFirst(Chars(w), ranks) == ApplyAll(merges, Chars(w))) <==> JoinsItsProducts(merges)
  {
    hide LeftInTwo;
    if JoinsItsProducts(merges) {
      forall w ensures LowestRankFirst(Chars(w), ranks) == ApplyAll(merges, Chars(w)) {
        OrdersAgreeIn(merges, ranks, w);
      }
    } else {
      var j :| 0 <= j < |merges| && LeftInTwo(merges, j);
      ProductDiffers(merges, ranks, j);
    }
  }

  lemma ProductDiffers(merges: seq<Pair>, ranks: map<Pair, nat>, j: nat)
    requires RanksOf(ranks, merges) && j < |merges| && LeftInTwo(merges, j)
    ensures var w := Joined(merges[j]); LowestRankFirst(Chars(w), ranks) != ApplyAll(merges, Chars(w))
  {
    LeftInTwoDiffers(merges, ranks, Chars(Joined(merges[j])), merges[j]);
  }
}
