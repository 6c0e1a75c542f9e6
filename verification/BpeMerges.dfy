/**
 Byte-pair merging on words cut into symbols: one left-to-right merge, a whole merge
 list, and the lowest-rank-first tokenization that the encoder runs.
 */
module BpeMerges {
  import opened Basics

  type Symbols = seq<string>
  type Pair = (string, string)

  function Joined(p: Pair): string { p.0 + p.1 }

  function Concat(s: Symbols): string {
    if s == [] then "" else s[0] + Concat(s[1..])
  }

  /** A word cut into its single characters. */
  function Chars(w: string): Symbols {
    if w == "" then [] else [w[..1]] + Chars(w[1..])
  }

  predicate StartsWith(s: Symbols, p: Pair) {
    |s| >= 2 && s[0] == p.0 && s[1] == p.1
  }

  /** Left-to-right, non-overlapping replacement of the pair by its concatenation. */
  function Merge(s: Symbols, p: Pair): Symbols {
    if s == [] then []
    else if StartsWith(s, p) then [Joined(p)] + Merge(s[2..], p)
    else [s[0]] + Merge(s[1..], p)
  }

  predicate Occurs(p: Pair, s: Symbols) {
    exists k :: 0 <= k < |s| - 1 && s[k] == p.0 && s[k + 1] == p.1
  }

  /** Applying every merge of the list once, exhaustively, in learned order. */
  function ApplyAll(merges: seq<Pair>, s: Symbols): Symbols {
    if merges == [] then s
    else Merge(ApplyAll(merges[..|merges| - 1], s), merges[|merges| - 1])
  }

  lemma MergeFrom(symbols: Symbols, index: nat, pair: Pair)
    requires index < |symbols|
    ensures Merge(symbols[index..], pair) ==
            if index + 1 < |symbols| && (symbols[index], symbols[index + 1]) == pair
            then [symbols[index] + symbols[index + 1]] + Merge(symbols[index + 2..], pair)
            else [symbols[index]] + Merge(symbols[index + 1..], pair)
  {
    var rest := symbols[index..];
    assert rest[1..] == symbols[index + 1..];
    if index + 1 < |symbols| { assert rest[2..] == symbols[index + 2..]; }
  }

  lemma NothingToMerge(pair: Pair)
    ensures Merge([], pair) == []
  {}

  method MergePair(symbols: Symbols, pair: Pair) returns (result: Symbols)
    ensures result == Merge(symbols, pair)
  {
    hide Merge;
    result := [];
    var index := 0;
    assert symbols[0..] == symbols;
    while index < |symbols|
      invariant index <= |symbols|
      invariant result + Merge(symbols[index..], pair) == Merge(symbols, pair)
    {
      MergeFrom(symbols, index, pair);
      if index + 1 < |symbols| && (symbols[index], symbols[index + 1]) == pair {
        Regrouped(result, [symbols[index] + symbols[index + 1]], Merge(symbols[index + 2..], pair));
        result := result + [symbols[index] + symbols[index + 1]];
        index := index + 2;
      } else {
        Regrouped(result, [symbols[index]], Merge(symbols[index + 1..], pair));
        result := result + [symbols[index]];
        index := index + 1;
      }
    }
    NothingToMerge(pair);
    assert symbols[index..] == [];
    assert result + [] == result;
  }

  // ---------- what one merge does to a word ----------

  lemma {:induction false} ConcatAppend(a: Symbols, b: Symbols)
    ensures Concat(a + b) == Concat(a) + Concat(b)
  {
    if a == [] {
      assert a + b == b;
    } else {
      var rest := a[1..];
      ConcatAppend(rest, b);
      assert (a + b)[1..] == rest + b && (a + b)[0] == a[0];
      assert a[0] + (Concat(rest) + Concat(b)) == (a[0] + Concat(rest)) + Concat(b);
    }
  }

  lemma {:induction false} CharsConcat(w: string)
    ensures Concat(Chars(w)) == w
    ensures |Chars(w)| == |w|
    ensures forall x :: x in Chars(w) ==> |x| == 1
  {
    if w != "" {
      CharsConcat(w[1..]);
      assert Chars(w)[1..] == Chars(w[1..]);
    }
  }

  lemma {:induction false} MergeKeepsText(s: Symbols, p: Pair)
    ensures Concat(Merge(s, p)) == Concat(s)
    ensures |Merge(s, p)| <= |s|
    ensures Occurs(p, s) ==> |Merge(s, p)| < |s|
    ensures !Occurs(p, s) ==> Merge(s, p) == s
  {
    if s != [] {
      if StartsWith(s, p) {
        MergeKeepsText(s[2..], p);
        assert s == [s[0]] + ([s[1]] + s[2..]);
        assert Concat(s) == s[0] + (s[1] + Concat(s[2..])) by { assert s[1..][1..] == s[2..]; }
        assert Merge(s, p)[1..] == Merge(s[2..], p);
        assert s[0] == p.0 && s[0 + 1] == p.1;
      } else {
        MergeKeepsText(s[1..], p);
        assert Merge(s, p)[1..] == Merge(s[1..], p);
        if Occurs(p, s) { OccursHeadOrTail(p, s); }
        if Occurs(p, s[1..]) { OccursInTail(p, s, 1); }
      }
    }
  }

  /** A symbol after a merge was there before, or is the product. */
  lemma {:induction false} MergeSymbols(s: Symbols, p: Pair, x: string)
    requires x in Merge(s, p)
    ensures x in s || x == Joined(p)
  {
    if StartsWith(s, p) {
      assert Merge(s, p) == [Joined(p)] + Merge(s[2..], p);
      if x != Joined(p) { MergeSymbols(s[2..], p, x); }
    } else {
      assert Merge(s, p) == [s[0]] + Merge(s[1..], p);
      if x != s[0] { MergeSymbols(s[1..], p, x); }
    }
  }

  lemma OccurringSymbols(q: Pair, s: Symbols)
    requires Occurs(q, s)
    ensures q.0 in s && q.1 in s
  {
    var k :| 0 <= k < |s| - 1 && s[k] == q.0 && s[k + 1] == q.1;
    assert s[k] in s && s[k + 1] in s;
  }

  lemma {:induction false} OccursInTail(q: Pair, s: Symbols, n: nat)
    requires n <= |s| && Occurs(q, s[n..])
    ensures Occurs(q, s)
  {
    var k :| 0 <= k < |s[n..]| - 1 && s[n..][k] == q.0 && s[n..][k + 1] == q.1;
    assert s[n + k] == q.0 && s[n + k + 1] == q.1;
  }

  /** A neighbouring pair after merging p was a different neighbouring pair before, or has the product in it. */
  lemma {:induction false} MergePairs(s: Symbols, p: Pair, q: Pair)
    requires p.0 != "" && p.1 != "" && Occurs(q, Merge(s, p))
    ensures (Occurs(q, s) && q != p) || q.0 == Joined(p) || q.1 == Joined(p)
  {
    var m := Merge(s, p);
    var k :| 0 <= k < |m| - 1 && m[k] == q.0 && m[k + 1] == q.1;
    var n := if StartsWith(s, p) then 2 else 1;
    var rest := Merge(s[n..], p);
    assert m == [if n == 2 then Joined(p) else s[0]] + rest;
    if k > 0 {
      assert rest[k - 1] == q.0 && rest[k - 1 + 1] == q.1;
      MergePairs(s[n..], p, q);
      if Occurs(q, s[n..]) { OccursInTail(q, s, n); }
    } else if n == 1 {
      assert rest[0] == q.1;
      if !StartsWith(s[1..], p) {
        assert s[0] == q.0 && s[0 + 1] == q.1;
      }
    }
  }

  // ---------- a substring whose two edges survive is cut as it is alone ----------

  /** A cut that survives a merge was a cut before it, and the two sides were merged independently. */
  lemma {:induction false} MergeSplit(
    s: Symbols, p: Pair, left: Symbols, right: Symbols) returns (l: Symbols, r: Symbols)
    requires Merge(s, p) == left + right
    ensures s == l + r && Merge(l, p) == left && Merge(r, p) == right
  {
    hide Merge;
    if left == [] {
      NothingToMerge(p);
      l, r := [], s;
      assert left + right == right && l + s == s;
    } else {
      if s == [] { NothingToMerge(p); }
      MergeHead(s, p);
      var n := if StartsWith(s, p) then 2 else 1;
      assert left[1..] + right == (left + right)[1..] == Merge(s[n..], p);
      var l', r' := MergeSplit(s[n..], p, left[1..], right);
      l, r := s[..n] + l', r';
      assert l[n..] == l' && l[..n] == s[..n];
      assert s == s[..n] + (l' + r') == l + r;
      assert StartsWith(l, p) <==> n == 2;
      MergeHead(l, p);
      assert Merge(l, p) == [left[0]] + left[1..] == left;
    }
  }

  lemma MergeHead(s: Symbols, p: Pair)
    requires s != []
    ensures var n := if StartsWith(s, p) then 2 else 1;
            Merge(s, p) == [if n == 2 then Joined(p) else s[0]] + Merge(s[n..], p)
  {}

  lemma {:induction false} ApplyAllKeepsText(merges: seq<Pair>, s: Symbols)
    ensures Concat(ApplyAll(merges, s)) == Concat(s)
  {
    if merges != [] {
      ApplyAllKeepsText(merges[..|merges| - 1], s);
      MergeKeepsText(ApplyAll(merges[..|merges| - 1], s), merges[|merges| - 1]);
    }
  }

  lemma {:induction false} CharsSplit(w: string, left: Symbols, right: Symbols)
    requires Chars(w) == left + right
    ensures right == Chars(Concat(right)) && left == Chars(Concat(left))
  {
    if w == "" {
    } else if left == [] {
      CharsConcat(w);
      assert left + right == right;
    } else {
      assert left[1..] + right == (left + right)[1..] == Chars(w[1..]);
      CharsSplit(w[1..], left[1..], right);
      assert left[0] == Chars(w)[0] == w[..1];
      var t := Concat(left[1..]);
      assert Concat(left) == w[..1] + t;
      assert Concat(left)[1..] == t && Concat(left)[..1] == w[..1];
    }
  }

  /** The locality theorem: any run of symbols of a tokenized word is the tokenization of its own text. */
  lemma {:induction false} Locality(merges: seq<Pair>, w: string, left: Symbols, mid: Symbols, right: Symbols)
    requires ApplyAll(merges, Chars(w)) == left + mid + right
    ensures mid == ApplyAll(merges, Chars(Concat(mid)))
  {
    if merges == [] {
      assert left + mid + right == left + (mid + right);
      CharsSplit(w, left, mid + right);
      CharsSplit(Concat(mid + right), mid, right);
    } else {
      var before, last := merges[..|merges| - 1], merges[|merges| - 1];
      var s := ApplyAll(before, Chars(w));
      assert left + mid + right == left + (mid + right);
      var l, mr := MergeSplit(s, last, left, mid + right);
      var m, r := MergeSplit(mr, last, mid, right);
      assert s == l + m + r;
      Locality(before, w, l, m, r);
      MergeKeepsText(m, last);
    }
  }

  /** Once a word is a single symbol, later merges leave it alone. */
  lemma {:induction false} SingleStays(merges: seq<Pair>, n: nat, s: Symbols, x: string)
    requires n <= |merges| && ApplyAll(merges[..n], s) == [x]
    ensures ApplyAll(merges, s) == [x]
  {
    if n < |merges| {
      assert merges[..|merges| - 1][..n] == merges[..n];
      SingleStays(merges[..|merges| - 1], n, s, x);
      assert Merge([x], merges[|merges| - 1]) == [x];
    } else {
      assert merges[..n] == merges;
    }
  }

  // ---------- merge lists that were really seen in training ----------

  /** Every merge joined two neighbours of some training word as cut by the merges before it. */
  ghost predicate Attested(words: seq<string>, merges: seq<Pair>) {
    forall i :: 0 <= i < |merges| ==> AttestedAt(words, merges, i)
  }

  ghost predicate AttestedAt(words: seq<string>, merges: seq<Pair>, i: nat)
    requires i < |merges|
  {
    exists w :: w in words && Occurs(merges[i], ApplyAll(merges[..i], Chars(w)))
  }

  /** In isolation, the text of an attested merge is cut into exactly the two merged symbols. */
  lemma {:induction false} AttestedInIsolation(words: seq<string>, merges: seq<Pair>, i: nat)
    requires i < |merges| && Attested(words, merges)
    ensures ApplyAll(merges[..i], Chars(Joined(merges[i]))) == [merges[i].0, merges[i].1]
  {
    var p := merges[i];
    assert AttestedAt(words, merges, i);
    var w :| w in words && Occurs(p, ApplyAll(merges[..i], Chars(w)));
    var s := ApplyAll(merges[..i], Chars(w));
    var k :| 0 <= k < |s| - 1 && s[k] == p.0 && s[k + 1] == p.1;
    var mid := [p.0, p.1];
    assert s == s[..k] + mid + s[k + 2..];
    Locality(merges[..i], w, s[..k], mid, s[k + 2..]);
    assert mid[1..] == [p.1] && Concat([p.1]) == p.1 + "" == p.1;
    assert Concat(mid) == Joined(p);
  }

  /** No two learned merges produce the same string. */
  lemma {:induction false} ProductsAreDistinct(words: seq<string>, merges: seq<Pair>, i: nat, j: nat)
    requires i < j < |merges| && Attested(words, merges)
    ensures Joined(merges[i]) != Joined(merges[j])
  {
    if Joined(merges[i]) == Joined(merges[j]) {
      var w := Joined(merges[i]);
      AttestedInIsolation(words, merges, i);
      AttestedInIsolation(words, merges, j);
      var upto := merges[..j];
      assert upto[..i + 1][..i] == merges[..i] && upto[..i + 1][i] == merges[i];
      assert ApplyAll(upto[..i + 1], Chars(w)) == Merge([merges[i].0, merges[i].1], merges[i]) == [w];
      SingleStays(upto, i + 1, Chars(w), w);
    }
  }

  /** Every symbol is a single character or the product of an earlier merge. */
  lemma {:induction false} SymbolOrigin(merges: seq<Pair>, w: string, x: string)
    requires x in ApplyAll(merges, Chars(w))
    ensures |x| == 1 || exists i :: 0 <= i < |merges| && x == Joined(merges[i])
  {
    CharsConcat(w);
    if merges != [] {
      var n := |merges| - 1;
      MergeSymbols(ApplyAll(merges[..n], Chars(w)), merges[n], x);
      if x in ApplyAll(merges[..n], Chars(w)) {
        SymbolOrigin(merges[..n], w, x);
        if |x| != 1 {
          var i :| 0 <= i < n && x == Joined(merges[..n][i]);
          assert x == Joined(merges[i]);
        }
      } else {
        assert x == Joined(merges[n]);
      }
    }
  }

  lemma {:induction false} CutNonEmpty(merges: seq<Pair>, w: string)
    ensures forall x :: x in ApplyAll(merges, Chars(w)) ==> x != ""
  {
    if merges == [] {
      CharsNonEmpty(w);
    } else {
      var before, p := merges[..|merges| - 1], merges[|merges| - 1];
      var s := ApplyAll(before, Chars(w));
      CutNonEmpty(before, w);
      MergeKeepsText(s, p);
      if Occurs(p, s) { OccurringSymbols(p, s); }
      forall x | x in ApplyAll(merges, Chars(w)) ensures x != "" { MergeSymbols(s, p, x); }
    }
  }

  lemma {:induction false} CharsNonEmpty(w: string)
    ensures forall x :: x in Chars(w) ==> x != ""
  {
    if w != "" { CharsNonEmpty(w[1..]); }
  }

  lemma AttestedNonEmpty(words: seq<string>, merges: seq<Pair>, i: nat)
    requires i < |merges| && Attested(words, merges)
    ensures merges[i].0 != "" && merges[i].1 != ""
  {
    assert AttestedAt(words, merges, i);
    var w :| w in words && Occurs(merges[i], ApplyAll(merges[..i], Chars(w)));
    CutNonEmpty(merges[..i], w);
    OccurringSymbols(merges[i], ApplyAll(merges[..i], Chars(w)));
  }

  // ---------- lowest rank first ----------

  /** No merge joins a symbol that only a later merge (or itself) produces. */
  ghost predicate WellOrdered(merges: seq<Pair>) {
    && (forall i :: 0 <= i < |merges| ==> merges[i].0 != "" && merges[i].1 != "")
    && (forall i, j :: 0 <= j <= i < |merges| ==> merges[j].0 != Joined(merges[i]) && merges[j].1 != Joined(merges[i]))
    && (forall i, j :: 0 <= i < j < |merges| ==> merges[i] != merges[j])
  }

  /** The map `{pair: rank for rank, pair in enumerate(merges)}`. */
  ghost predicate RanksOf(ranks: map<Pair, nat>, merges: seq<Pair>) {
    && (forall p :: p in ranks ==> ranks[p] < |merges| && merges[ranks[p]] == p)
    && (forall i :: 0 <= i < |merges| ==> merges[i] in ranks)
  }

  /** The first neighbouring pair of lowest rank, if any pair has a rank. */
  function BestPair(s: Symbols, ranks: map<Pair, nat>): (r: Option<Pair>)
    ensures r.Some? ==> r.value in ranks && Occurs(r.value, s)
    ensures r.Some? ==> forall q :: q in ranks && Occurs(q, s) ==> ranks[r.value] <= ranks[q]
    ensures r.None? ==> forall q :: q in ranks ==> !Occurs(q, s)
  {
    if |s| < 2 then None
    else
      var here := (s[0], s[1]);
      var later := BestPair(s[1..], ranks);
      assert forall q :: Occurs(q, s) ==> q == here || Occurs(q, s[1..]) by {
        forall q | Occurs(q, s) ensures q == here || Occurs(q, s[1..]) { OccursHeadOrTail(q, s); }
      }
      assert s[0] == here.0 && s[0 + 1] == here.1;
      assert later.Some? ==> Occurs(later.value, s) by { if later.Some? { OccursInTail(later.value, s, 1); } }
      if here in ranks && (later.None? || ranks[here] <= ranks[later.value]) then Some(here) else later
  }

  lemma OccursHeadOrTail(q: Pair, s: Symbols)
    requires |s| >= 2 && Occurs(q, s)
    ensures q == (s[0], s[1]) || Occurs(q, s[1..])
  {
    var k :| 0 <= k < |s| - 1 && s[k] == q.0 && s[k + 1] == q.1;
    if k > 0 { assert s[1..][k - 1] == q.0 && s[1..][k - 1 + 1] == q.1; }
  }

  /** Repeatedly merge the lowest-ranked pair present. */
  function LowestRankFirst(s: Symbols, ranks: map<Pair, nat>): Symbols
    decreases |s|
  {
    match BestPair(s, ranks)
    case None => s
    case Some(p) => MergeKeepsText(s, p); LowestRankFirst(Merge(s, p), ranks)
  }

  /** ApplyAll with the list consumed from the front. */
  function ApplyFrom(merges: seq<Pair>, k: nat, s: Symbols): Symbols
    requires k <= |merges|
    decreases |merges| - k
  {
    if k == |merges| then s else ApplyFrom(merges, k + 1, Merge(s, merges[k]))
  }

  lemma {:induction false} ApplyFromIsApplyAll(merges: seq<Pair>, k: nat, s: Symbols)
    requires k <= |merges|
    ensures ApplyFrom(merges, k, ApplyAll(merges[..k], s)) == ApplyAll(merges, s)
    decreases |merges| - k
  {
    if k == |merges| {
      assert merges[..k] == merges;
    } else {
      assert merges[..k + 1][..k] == merges[..k];
      ApplyFromIsApplyAll(merges, k + 1, s);
    }
  }

  lemma LowestStep(s: Symbols, ranks: map<Pair, nat>)
    ensures LowestRankFirst(s, ranks) ==
            match BestPair(s, ranks) case None => s case Some(p) => LowestRankFirst(Merge(s, p), ranks)
  {}

  lemma ApplyStep(merges: seq<Pair>, k: nat, s: Symbols)
    requires k <= |merges|
    ensures ApplyFrom(merges, k, s) == if k == |merges| then s else ApplyFrom(merges, k + 1, Merge(s, merges[k]))
  {}

  /** When no merge before the k-th is present, the best pair is the k-th if that is, and none after the last. */
  lemma LowestPresent(merges: seq<Pair>, ranks: map<Pair, nat>, k: nat, s: Symbols)
    requires WellOrdered(merges) && RanksOf(ranks, merges) && k <= |merges|
    requires forall q :: q in ranks && Occurs(q, s) ==> k <= ranks[q]
    ensures k == |merges| ==> BestPair(s, ranks) == None
    ensures k < |merges| && Occurs(merges[k], s) ==> BestPair(s, ranks) == Some(merges[k])
  {
    var best := BestPair(s, ranks);
    if best.Some? { assert merges[ranks[best.value]] == best.value; }
    if k < |merges| && Occurs(merges[k], s) { assert ranks[merges[k]] == k; }
  }

  lemma LaterRanksLeft(merges: seq<Pair>, ranks: map<Pair, nat>, k: nat, s: Symbols)
    requires WellOrdered(merges) && RanksOf(ranks, merges) && k < |merges|
    requires forall q :: q in ranks && Occurs(q, s) ==> k <= ranks[q]
    ensures forall q :: q in ranks && Occurs(q, Merge(s, merges[k])) ==> k + 1 <= ranks[q]
  {
    hide Merge;
    forall q | q in ranks && Occurs(q, Merge(s, merges[k])) ensures k + 1 <= ranks[q] {
      MergePairs(s, merges[k], q);
      assert merges[ranks[q]] == q;
    }
  }

  lemma {:induction false} LowestRankFromK(merges: seq<Pair>, ranks: map<Pair, nat>, k: nat, s: Symbols)
    requires WellOrdered(merges) && RanksOf(ranks, merges) && k <= |merges|
    requires forall q :: q in ranks && Occurs(q, s) ==> k <= ranks[q]
    ensures LowestRankFirst(s, ranks) == ApplyFrom(merges, k, s)
    decreases |merges| - k
  {
    hide LowestRankFirst, ApplyFrom, BestPair, Merge, WellOrdered, RanksOf, Occurs;
    LowestStep(s, ranks);
    ApplyStep(merges, k, s);
    LowestPresent(merges, ranks, k, s);
    if k < |merges| {
      var p := merges[k];
      MergeKeepsText(s, p);
      LaterRanksLeft(merges, ranks, k, s);
      LowestRankFromK(merges, ranks, k + 1, Merge(s, p));
    }
  }

  /** For a well-ordered list, the encoder's greedy order and the learned order give the same cut. */
  lemma LowestRankIsLearnedOrder(merges: seq<Pair>, ranks: map<Pair, nat>, s: Symbols)
    requires WellOrdered(merges) && RanksOf(ranks, merges)
    ensures LowestRankFirst(s, ranks) == ApplyAll(merges, s)
  {
    LowestRankFromK(merges, ranks, 0, s);
    ApplyFromIsApplyAll(merges, 0, s);
    assert merges[..0] == [];
  }

  lemma {:induction false} AttestedIsWellOrdered(words: seq<string>, merges: seq<Pair>)
    requires Attested(words, merges)
    ensures WellOrdered(merges)
  {
    forall i | 0 <= i < |merges| ensures merges[i].0 != "" && merges[i].1 != "" {
      AttestedNonEmpty(words, merges, i);
    }
    forall i, j | 0 <= i < j < |merges| ensures merges[i] != merges[j] {
      ProductsAreDistinct(words, merges, i, j);
    }
    forall i, j | 0 <= j <= i < |merges|
      ensures merges[j].0 != Joined(merges[i]) && merges[j].1 != Joined(merges[i])
    {
      ComponentIsNotLaterProduct(words, merges, i, j, merges[j].0);
      ComponentIsNotLaterProduct(words, merges, i, j, merges[j].1);
    }
  }

  /** What a merge joins was produced before it, never by itself or by a later merge. */
  lemma {:induction false} ComponentIsNotLaterProduct(words: seq<string>, merges: seq<Pair>, i: nat, j: nat, x: string)
    requires Attested(words, merges) && j <= i < |merges| && (x == merges[j].0 || x == merges[j].1)
    ensures x != Joined(merges[i])
  {
    assert AttestedAt(words, merges, j);
    var w :| w in words && Occurs(merges[j], ApplyAll(merges[..j], Chars(w)));
    OccurringSymbols(merges[j], ApplyAll(merges[..j], Chars(w)));
    SymbolOrigin(merges[..j], w, x);
    AttestedNonEmpty(words, merges, i);
    if |x| != 1 {
      var k :| 0 <= k < j && x == Joined(merges[..j][k]);
      ProductsAreDistinct(words, merges, k, i);
    }
  }

  method ApplyBpe(start: string, ranks: map<Pair, nat>) returns (symbols: Symbols)
    ensures symbols == LowestRankFirst(Chars(start), ranks)
  {
    symbols := Chars(start);
    while |symbols| > 1
      invariant LowestRankFirst(symbols, ranks) == LowestRankFirst(Chars(start), ranks)
      decreases |symbols|
    {
      var chosen := BestPair(symbols, ranks);
      if chosen.None? { break; }
      MergeKeepsText(symbols, chosen.value);
      symbols := MergePair(symbols, chosen.value);
    }
  }

  /** A list that no training run produces: the later product is a component of the earlier merge. */
  lemma OrdersDifferOnAnUnlearnableList(a: string, b: string, c: string, merges: seq<Pair>, ranks: map<Pair, nat>)
    requires a != "" && b != "" && c != "" && merges == [(a + b, c), (a, b)] && RanksOf(ranks, merges)
    ensures LowestRankFirst([a, b, c], ranks) == [a + b + c]
    ensures ApplyAll(merges, [a, b, c]) == [a + b, c]
  {
    var late, early := merges[0], merges[1];
    var s, t := [a, b, c], [a + b, c];
    MergeTwo(a, b, [c]);
    MergeTwo(a + b, c, []);
    assert s == [a, b] + [c] && t == t + [];
    assert Merge(s, early) == t && Merge(t, late) == [a + b + c];
    assert !Occurs(late, s) by { assert s[0] != a + b && s[1] != a + b; }
    MergeKeepsText(s, late);
    assert merges[..1] == [late] && merges[..1][..0] == [];
    assert ApplyAll(merges[..1], s) == s;
    OnlyPairPresent(s, early, ranks);
    OnlyPairPresent(t, late, ranks);
    MergeKeepsText(s, early);
    MergeKeepsText(t, late);
    assert LowestRankFirst(s, ranks) == LowestRankFirst(t, ranks);
    assert LowestRankFirst(t, ranks) == LowestRankFirst([a + b + c], ranks);
  }

  lemma OnlyPairPresent(s: Symbols, p: Pair, ranks: map<Pair, nat>)
    requires |s| >= 2 && StartsWith(s, p) && p in ranks
    requires forall q :: q in ranks && q != p ==> !Occurs(q, s)
    ensures BestPair(s, ranks) == Some(p)
  {
    assert s[0] == p.0 && s[0 + 1] == p.1;
  }

  lemma MergeTwo(a: string, b: string, rest: Symbols)
    ensures Merge([a, b] + rest, (a, b)) == [a + b] + Merge(rest, (a, b))
  {
    var s := [a, b] + rest;
    assert StartsWith(s, (a, b)) && s[2..] == rest;
  }
}
