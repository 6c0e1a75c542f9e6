/** What Python's text type decides: which characters are spaces, the order of strings, and what a string holds. */
module PythonText {

  predicate IsSpace(c: char) {
    || '\t' <= c <= '\r' || '\U{1C}' <= c <= ' ' || c == '\U{85}' || c == '\U{A0}' || c == '\U{1680}'
    || '\U{2000}' <= c <= '\U{200A}' || c == '\U{2028}' || c == '\U{2029}' || c == '\U{202F}'
    || c == '\U{205F}' || c == '\U{3000}'
  }

  predicate StrLeq(a: string, b: string) {
    a == "" || (b != "" && (a[0] < b[0] || (a[0] == b[0] && StrLeq(a[1..], b[1..]))))
  }

  lemma {:induction false} StrLeqOrder(a: string, b: string, c: string)
    ensures StrLeq(a, b) || StrLeq(b, a)
    ensures StrLeq(a, b) && StrLeq(b, a) ==> a == b
    ensures StrLeq(a, b) && StrLeq(b, c) ==> StrLeq(a, c)
  {
    if a != "" && b != "" {
      StrLeqOrder(a[1..], b[1..], if c == "" then "" else c[1..]);
      if StrLeq(a, b) && StrLeq(b, a) { assert a == [a[0]] + a[1..] == [b[0]] + b[1..] == b; }
    }
  }

  /** The strings agree up to k, and there the first one ends or has the smaller character. */
  predicate BeforeAt(a: string, b: string, k: nat) {
    k <= |a| && k < |b| && (forall i :: 0 <= i < k ==> a[i] == b[i]) && (k == |a| || a[k] < b[k])
  }

  /** One string comes before another: at the first place where they differ, or because it ends there. */
  ghost predicate Before(a: string, b: string) { exists k: nat :: BeforeAt(a, b, k) }

  lemma BeforeStep(a: string, b: string)
    requires a != "" && b != ""
    ensures Before(a, b) <==> a[0] < b[0] || (a[0] == b[0] && Before(a[1..], b[1..]))
  {
    if Before(a, b) {
      var k: nat :| BeforeAt(a, b, k);
      if k > 0 { assert BeforeAt(a[1..], b[1..], k - 1); }
    }
    if a[0] < b[0] { assert BeforeAt(a, b, 0); }
    if a[0] == b[0] && Before(a[1..], b[1..]) {
      var k: nat :| BeforeAt(a[1..], b[1..], k);
      forall i | 0 <= i < k + 1 ensures a[i] == b[i] {
        if i > 0 { assert a[1..][i - 1] == b[1..][i - 1]; }
      }
      assert k < |a[1..]| ==> a[k + 1] == a[1..][k] && b[k + 1] == b[1..][k];
      assert BeforeAt(a, b, k + 1);
    }
  }

  lemma {:induction false} StrLeqIsBefore(a: string, b: string)
    ensures StrLeq(a, b) <==> a == b || Before(a, b)
  {
    hide Before;
    if a == "" || b == "" {
      EmptyBefore(a, b);
    } else {
      StrLeqIsBefore(a[1..], b[1..]);
      BeforeStep(a, b);
      NotBeforeItself(a);
      assert a == [a[0]] + a[1..] && b == [b[0]] + b[1..];
    }
  }

  lemma EmptyBefore(a: string, b: string)
    requires a == "" || b == ""
    ensures Before(a, b) <==> a == "" && b != ""
  {
    if a == "" && b != "" { assert BeforeAt(a, b, 0); }
  }

  lemma NotBeforeItself(a: string)
    ensures !Before(a, a)
  {}

  /** A text or a string of bytes holds another one: somewhere, or at a place. */
  predicate Contains(text: string, part: string) { exists i :: 0 <= i <= |text| && PartAt(text, part, i) }

  predicate PartAt(text: string, part: string, i: nat) { i + |part| <= |text| && text[i..i + |part|] == part }
}
