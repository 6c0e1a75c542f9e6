/** Insertion-ordered counters: a mapping from keys to positive tallies, as the list of its items. */
module Counters {

  type Counter<K> = seq<(K, nat)>

  ghost predicate DistinctKeys<K>(c: Counter<K>) {
    forall i, j :: 0 <= i < j < |c| ==> c[i].0 != c[j].0
  }

  ghost predicate HasKey<K>(c: Counter<K>, k: K) {
    exists i :: 0 <= i < |c| && c[i].0 == k
  }

  function Get<K(==)>(c: Counter<K>, k: K): nat {
    if c == [] then 0 else if c[0].0 == k then c[0].1 else Get(c[1..], k)
  }

  /** `c[k] += n`: an existing key keeps its place, a new one goes to the end. */
  function Add<K(==)>(c: Counter<K>, k: K, n: nat): Counter<K> {
    if c == [] then [(k, n)]
    else if c[0].0 == k then [(k, c[0].1 + n)] + c[1..]
    else [c[0]] + Add(c[1..], k, n)
  }

  lemma {:induction false} AddGet<K>(c: Counter<K>, k: K, n: nat, q: K)
    ensures Get(Add(c, k, n), q) == Get(c, q) + if q == k then n else 0
    ensures HasKey(Add(c, k, n), q) <==> HasKey(c, q) || q == k
    ensures DistinctKeys(c) ==> DistinctKeys(Add(c, k, n))
    ensures !HasKey(c, k) ==> Add(c, k, n) == c + [(k, n)]
  {
    var d := Add(c, k, n);
    if c == [] {
      assert d[0].0 == k;
    } else if c[0].0 == k {
      assert d[1..] == c[1..];
      HasKeyCons(c, q);
      HasKeyCons(d, q);
    } else {
      AddGet(c[1..], k, n, q);
      assert d[1..] == Add(c[1..], k, n);
      HasKeyCons(c, q);
      HasKeyCons(d, q);
      HasKeyCons(c, k);
      if DistinctKeys(c) {
        AddGet(c[1..], k, n, c[0].0);
        forall i, j | 0 <= i < j < |d| ensures d[i].0 != d[j].0 {
          assert d[j] == d[1..][j - 1];
          if i > 0 { assert d[i] == d[1..][i - 1]; }
        }
      }
    }
  }

  lemma HasKeyCons<K>(c: Counter<K>, q: K)
    requires c != []
    ensures HasKey(c, q) <==> c[0].0 == q || HasKey(c[1..], q)
  {
    if HasKey(c[1..], q) {
      var i :| 0 <= i < |c[1..]| && c[1..][i].0 == q;
      assert c[i + 1].0 == q;
    }
    if HasKey(c, q) && c[0].0 != q {
      var i :| 0 <= i < |c| && c[i].0 == q;
      assert c[1..][i - 1].0 == q;
    }
  }

  lemma {:induction false} GetAt<K>(c: Counter<K>, i: nat)
    requires i < |c| && DistinctKeys(c)
    ensures Get(c, c[i].0) == c[i].1
  {
    if i > 0 { GetAt(c[1..], i - 1); }
  }
}

/** The order in which pairs are preferred: strings by code point, pairs by component. */
module PairOrder {
  import opened BpeMerges
  import opened PythonText

  predicate PairLeq(p: Pair, q: Pair) {
    if p.0 == q.0 then StrLeq(p.1, q.1) else StrLeq(p.0, q.0)
  }

  lemma PairLeqOrder(p: Pair, q: Pair, r: Pair)
    ensures PairLeq(p, q) || PairLeq(q, p)
    ensures PairLeq(p, q) && PairLeq(q, p) ==> p == q
    ensures PairLeq(p, q) && PairLeq(q, r) ==> PairLeq(p, r)
  {
    StrLeqOrder(p.0, q.0, r.0);
    StrLeqOrder(q.0, r.0, p.0);
    StrLeqOrder(p.1, q.1, r.1);
  }

  /** Pairs are compared by their first symbols, and by their second ones if the first are the same. */
  lemma PairsByComponent(p: Pair, q: Pair)
    ensures PairLeq(p, q) <==> p == q || Before(p.0, q.0) || (p.0 == q.0 && Before(p.1, q.1))
  {
    hide StrLeq, Before;
    StrLeqIsBefore(p.0, q.0);
    StrLeqIsBefore(p.1, q.1);
    NotBeforeItself(p.0);
  }
}

/** How a merge list is learned from word counts. */
module BpeTraining {
  import opened BpeMerges
  import opened Counters
  import opened PairOrder
  import T = TokenText

  /** How often two symbols stand side by side in a word. */
  function Count(s: Symbols, p: Pair): nat {
    if |s| < 2 then 0
    else Count(s[..|s| - 1], p) + if s[|s| - 2] == p.0 && s[|s| - 1] == p.1 then 1 else 0
  }

  /** The same over all words, weighted by word frequency. */
  function Weight(segmented: Counter<Symbols>, p: Pair): nat {
    if segmented == [] then 0
    else
      var last := segmented[|segmented| - 1];
      Weight(segmented[..|segmented| - 1], p) + last.1 * Count(last.0, p)
  }

  lemma {:induction false} CountOccurs(s: Symbols, p: Pair)
    ensures Count(s, p) > 0 <==> Occurs(p, s)
  {
    if |s| >= 2 {
      var t := s[..|s| - 1];
      CountOccurs(t, p);
      if Occurs(p, t) {
        var k :| 0 <= k < |t| - 1 && t[k] == p.0 && t[k + 1] == p.1;
        assert s[k] == p.0 && s[k + 1] == p.1;
      }
      if s[|s| - 2] == p.0 && s[|s| - 1] == p.1 { assert s[|s| - 2 + 1] == p.1; }
      if Occurs(p, s) {
        var k :| 0 <= k < |s| - 1 && s[k] == p.0 && s[k + 1] == p.1;
        if k < |s| - 2 { assert t[k] == p.0 && t[k + 1] == p.1; }
      }
    }
  }

  lemma {:induction false} WeightWitness(segmented: Counter<Symbols>, p: Pair) returns (i: nat)
    requires Weight(segmented, p) > 0
    ensures i < |segmented| && segmented[i].1 > 0 && Occurs(p, segmented[i].0)
  {
    var n := |segmented| - 1;
    if Count(segmented[n].0, p) > 0 && segmented[n].1 > 0 {
      CountOccurs(segmented[n].0, p);
      i := n;
    } else {
      i := WeightWitness(segmented[..n], p);
    }
  }

  ghost predicate IsWeight(counts: Counter<Pair>, segmented: Counter<Symbols>) {
    forall p :: Get(counts, p) == Weight(segmented, p)
  }

  method CountPairs(segmented: Counter<Symbols>) returns (counts: Counter<Pair>)
    ensures DistinctKeys(counts) && IsWeight(counts, segmented)
    ensures forall p :: Weight(segmented, p) > 0 ==> HasKey(counts, p)
  {
    counts := [];
    for i := 0 to |segmented|
      invariant DistinctKeys(counts)
      invariant forall p :: Get(counts, p) == Weight(segmented[..i], p)
      invariant forall p :: Get(counts, p) > 0 ==> HasKey(counts, p)
    {
      var symbols, frequency := segmented[i].0, segmented[i].1;
      ghost var done := segmented[..i];
      assert segmented[..i + 1][..i] == done;
      if symbols != [] {
        for k := 1 to |symbols|
          invariant DistinctKeys(counts)
          invariant forall p :: Get(counts, p) == Weight(done, p) + frequency * Count(symbols[..k], p)
          invariant forall p :: Get(counts, p) > 0 ==> HasKey(counts, p)
        {
          var pair := (symbols[k - 1], symbols[k]);
          ghost var before := counts;
          counts := Add(counts, pair, frequency);
          assert symbols[..k + 1][..k] == symbols[..k];
          forall p ensures Get(counts, p) == Weight(done, p) + frequency * Count(symbols[..k + 1], p)
                   ensures Get(counts, p) > 0 ==> HasKey(counts, p) {
            AddGet(before, pair, frequency, p);
            Distribute(frequency, Count(symbols[..k], p));
          }
          AddGet(before, pair, frequency, pair);
        }
      }
      assert |symbols| >= 1 ==> symbols[..|symbols|] == symbols;
      assert segmented[..i + 1][i] == segmented[i];
    }
    assert segmented[..|segmented|] == segmented;
  }

  lemma Distribute(f: nat, c: nat)
    ensures f * (c + 1) == f * c + f
  {}

  /** p is taken before q: larger count, then smaller pair. */
  ghost predicate Preferred(p: Pair, weightP: nat, q: Pair, weightQ: nat) {
    weightP > weightQ || (weightP == weightQ && PairLeq(p, q))
  }

  method ChoosePair(counts: Counter<Pair>) returns (best: Pair)
    requires counts != [] && DistinctKeys(counts)
    ensures HasKey(counts, best)
    ensures forall i :: 0 <= i < |counts| ==> Preferred(best, Get(counts, best), counts[i].0, counts[i].1)
  {
    best := counts[0].0;
    var weight := counts[0].1;
    PairLeqOrder(best, best, best);
    ghost var at := 0;
    for i := 1 to |counts|
      invariant 0 <= at < i && counts[at] == (best, weight)
      invariant forall j :: 0 <= j < i ==> Preferred(best, weight, counts[j].0, counts[j].1)
    {
      var p, w := counts[i].0, counts[i].1;
      if w > weight || (w == weight && PairLeq(p, best)) {
        forall j | 0 <= j <= i ensures Preferred(p, w, counts[j].0, counts[j].1) {
          PairLeqOrder(p, best, counts[j].0);
          PairLeqOrder(p, p, p);
        }
        best, weight, at := p, w, i;
      } else {
        PairLeqOrder(p, best, p);
      }
    }
    GetAt(counts, at);
  }

  // ---------- the learned list ----------

  /** The training words as cut by a merge list, with their frequencies. */
  ghost function Cut(merges: seq<Pair>, wordCounts: Counter<string>): (c: Counter<Symbols>)
    ensures |c| == |wordCounts|
    ensures forall i ::
            0 <= i < |c| ==> c[i] == (ApplyAll(merges, Chars(T.WORD_START + wordCounts[i].0)), wordCounts[i].1)
  {
    seq(|wordCounts|, i requires 0 <= i < |wordCounts| =>
      (ApplyAll(merges, Chars(T.WORD_START + wordCounts[i].0)), wordCounts[i].1))
  }

  ghost function Starts(wordCounts: Counter<string>): seq<string> {
    seq(|wordCounts|, i requires 0 <= i < |wordCounts| => T.WORD_START + wordCounts[i].0)
  }

  /** The i-th merge is the best pair of the words as the merges before it leave them, and frequent enough. */
  ghost predicate LearnedAt(wordCounts: Counter<string>, minFrequency: nat, merges: seq<Pair>, i: nat)
    requires i < |merges|
  {
    var cut := Cut(merges[..i], wordCounts);
    && Weight(cut, merges[i]) >= minFrequency
    && forall q :: Preferred(merges[i], Weight(cut, merges[i]), q, Weight(cut, q))
  }

  /** The list training stops with: greedy at every step, full or with nothing frequent enough left. */
  ghost predicate Learned(wordCounts: Counter<string>, numMerges: nat, minFrequency: nat, merges: seq<Pair>) {
    && |merges| <= numMerges
    && (forall i :: 0 <= i < |merges| ==> LearnedAt(wordCounts, minFrequency, merges, i))
    && (|merges| < numMerges ==> forall q :: Weight(Cut(merges, wordCounts), q) < minFrequency)
  }

  /** Training is deterministic: the conditions above pin the list down. */
  lemma {:induction false} LearnedIsUnique(
    wordCounts: Counter<string>, n: nat, minFrequency: nat, a: seq<Pair>, b: seq<Pair>)
    requires Learned(wordCounts, n, minFrequency, a) && Learned(wordCounts, n, minFrequency, b)
    ensures a == b
  {
    LearnedPrefix(wordCounts, n, minFrequency, a, b, if |a| <= |b| then |a| else |b|);
    assert a[..|a|] == a && b[..|b|] == b;
    if |a| < |b| {
      LearnedStepWeight(wordCounts, n, minFrequency, b, |a|);
    } else if |b| < |a| {
      LearnedStepWeight(wordCounts, n, minFrequency, a, |b|);
    }
  }

  lemma LearnedStepWeight(wordCounts: Counter<string>, n: nat, minFrequency: nat, a: seq<Pair>, i: nat)
    requires Learned(wordCounts, n, minFrequency, a) && i < |a|
    ensures Weight(Cut(a[..i], wordCounts), a[i]) >= minFrequency
  {
    assert LearnedAt(wordCounts, minFrequency, a, i);
  }

  lemma {:induction false} LearnedPrefix(
    wordCounts: Counter<string>, n: nat, minFrequency: nat, a: seq<Pair>, b: seq<Pair>, k: nat)
    requires Learned(wordCounts, n, minFrequency, a) && Learned(wordCounts, n, minFrequency, b)
    requires k <= |a| && k <= |b|
    ensures a[..k] == b[..k]
  {
    if k > 0 {
      LearnedPrefix(wordCounts, n, minFrequency, a, b, k - 1);
      var cut := Cut(a[..k - 1], wordCounts);
      assert LearnedAt(wordCounts, minFrequency, a, k - 1) && LearnedAt(wordCounts, minFrequency, b, k - 1);
      var p, q := a[k - 1], b[k - 1];
      assert Preferred(p, Weight(cut, p), q, Weight(cut, q)) && Preferred(q, Weight(cut, q), p, Weight(cut, p));
      PairLeqOrder(p, q, p);
      assert a[..k] == a[..k - 1] + [p] && b[..k] == b[..k - 1] + [q];
    }
  }

  lemma {:induction false} LearnedIsAttested(wordCounts: Counter<string>, n: nat, minFrequency: nat, merges: seq<Pair>)
    requires minFrequency >= 1 && Learned(wordCounts, n, minFrequency, merges)
    ensures Attested(Starts(wordCounts), merges)
  {
    forall i | 0 <= i < |merges| ensures AttestedAt(Starts(wordCounts), merges, i) {
      LearnedAtIsAttested(wordCounts, minFrequency, merges, i);
    }
  }

  lemma LearnedAtIsAttested(wordCounts: Counter<string>, minFrequency: nat, merges: seq<Pair>, i: nat)
    requires minFrequency >= 1 && i < |merges| && LearnedAt(wordCounts, minFrequency, merges, i)
    ensures AttestedAt(Starts(wordCounts), merges, i)
  {
    var k := WeightWitness(Cut(merges[..i], wordCounts), merges[i]);
    var w := Starts(wordCounts)[k];
    assert w in Starts(wordCounts) && Occurs(merges[i], ApplyAll(merges[..i], Chars(w)));
  }

  /** `updated[merge_pair(symbols, pair)] += frequency`: distinct words never collide, so every entry is kept. */
  method Recut(segmented: Counter<Symbols>, pair: Pair, ghost merges: seq<Pair>, ghost wordCounts: Counter<string>)
    returns (updated: Counter<Symbols>)
    requires DistinctKeys(wordCounts) && segmented == Cut(merges, wordCounts)
    ensures updated == Cut(merges + [pair], wordCounts)
  {
    updated := [];
    ghost var next := Cut(merges + [pair], wordCounts);
    CutKeysDistinct(merges + [pair], wordCounts);
    for i := 0 to |segmented|
      invariant updated == next[..i]
    {
      var symbols := MergePair(segmented[i].0, pair);
      assert (merges + [pair])[..|merges|] == merges;
      assert symbols == next[i].0;
      AddGet(updated, symbols, segmented[i].1, symbols);
      updated := Add(updated, symbols, segmented[i].1);
    }
  }

  lemma CutKeysDistinct(merges: seq<Pair>, wordCounts: Counter<string>)
    requires DistinctKeys(wordCounts)
    ensures DistinctKeys(Cut(merges, wordCounts))
  {
    var c := Cut(merges, wordCounts);
    forall i, j | 0 <= i < j < |c| ensures c[i].0 != c[j].0 {
      CutText(merges, wordCounts, i);
      CutText(merges, wordCounts, j);
      var n := |T.WORD_START|;
      assert (T.WORD_START + wordCounts[i].0)[n..] == wordCounts[i].0;
      assert (T.WORD_START + wordCounts[j].0)[n..] == wordCounts[j].0;
    }
  }

  lemma CutText(merges: seq<Pair>, wordCounts: Counter<string>, i: nat)
    requires i < |wordCounts|
    ensures Concat(Cut(merges, wordCounts)[i].0) == T.WORD_START + wordCounts[i].0
  {
    ApplyAllKeepsText(merges, Chars(T.WORD_START + wordCounts[i].0));
    CharsConcat(T.WORD_START + wordCounts[i].0);
  }
}
