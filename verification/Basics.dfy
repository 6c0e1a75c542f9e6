/** What the models share: a missing value, a call that may raise, and lists of items or parts of text. */
module Basics {

  datatype Option<+T> = None | Some(value: T)

  /** What a call that may raise gives back: its value, or the kind of error it raised. */
  datatype Result<+T, +E> = Ok(value: T) | Err(error: E)

  predicate Distinct<T(==)>(items: seq<T>) { forall i, j :: 0 <= i < j < |items| ==> items[i] != items[j] }

  /** The items without repetitions, first occurrences kept. */
  function Unique<T(==)>(items: seq<T>): seq<T> {
    if items == [] then []
    else
      var before := Unique(items[..|items| - 1]);
      if items[|items| - 1] in before then before else before + [items[|items| - 1]]
  }

  lemma {:induction false} UniqueHolds<T>(items: seq<T>)
    ensures forall x :: x in Unique(items) <==> x in items
    ensures Distinct(Unique(items))
  {
    if items != [] {
      UniqueHolds(items[..|items| - 1]);
      assert items == items[..|items| - 1] + [items[|items| - 1]];
    }
  }

  /** Where an item first stands. */
  function FirstPlace<T(==)>(items: seq<T>, x: T): (i: nat)
    ensures i <= |items| && (forall k :: 0 <= k < i ==> items[k] != x) && (i < |items| ==> items[i] == x)
  {
    if items == [] || items[0] == x then 0 else 1 + FirstPlace(items[1..], x)
  }

  lemma InUnique<T>(items: seq<T>, i: nat)
    requires i < |Unique(items)|
    ensures Unique(items)[i] in items
  {
    UniqueHolds(items);
    var u: seq<T> := Unique(items);
    var x: T := u[i];
    assert x in u;
  }

  /** The items that remain stand in the order of their first occurrences. */
  lemma {:induction false} UniqueInOrder<T>(items: seq<T>)
    ensures forall i, j :: 0 <= i < j < |Unique(items)| ==>
              FirstPlace(items, Unique(items)[i]) < FirstPlace(items, Unique(items)[j])
  {
    if items != [] {
      var n := |items| - 1;
      var before, last := Unique(items[..n]), items[n];
      UniqueInOrder(items[..n]);
      UniqueHolds(items[..n]);
      forall x | x in items[..n] ensures FirstPlace(items, x) == FirstPlace(items[..n], x) < n {
        assert items[FirstPlace(items[..n], x)] == x;
      }
      forall i | 0 <= i < |before| ensures before[i] in items[..n] { InUnique(items[..n], i); }
    }
  }

  /** The parts with a separator between them. */
  function Join(parts: seq<string>, separator: string): string {
    if parts == [] then "" else if |parts| == 1 then parts[0] else parts[0] + separator + Join(parts[1..], separator)
  }

  function Repeat(c: char, n: nat): (s: string)
    ensures |s| == n && forall i :: 0 <= i < n ==> s[i] == c
  {
    seq(n, i => c)
  }

  lemma Regrouped<T>(a: seq<T>, b: seq<T>, c: seq<T>)
    ensures a + (b + c) == a + b + c
  {}
}
