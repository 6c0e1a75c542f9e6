/** Spreadsheet column names: A to Z, then AA, and so on. */
module ColumnNames {

  function Letter(n: nat): (c: char)
    requires n < 26
    ensures 'A' <= c <= 'Z'
  {
    'A' + n as char
  }

  /** The name of the value-th column, counted from one. */
  function Label(value: nat): string {
    if value == 0 then "" else Label((value - 1) / 26) + [Letter((value - 1) % 26)]
  }

  /** The number a name stands for, in base 26 with digits 1 to 26. */
  function Number(name: string): nat {
    if name == "" then 0
    else
      var n := |name| - 1;
      Number(name[..n]) * 26 + if 'A' <= name[n] <= 'Z' then name[n] as int - 'A' as int + 1 else 0
  }

  predicate Letters(name: string) { forall i :: 0 <= i < |name| ==> 'A' <= name[i] <= 'Z' }

  /** Counting down by base-26 digits, as the page does; an index before the first column has no name. */
  method ColumnName(index: int) returns (name: string)
    ensures Letters(name) && Number(name) == if index < 0 then 0 else index + 1
  {
    var value := index + 1;
    name := "";
    while value > 0
      invariant index >= 0 ==> value >= 0 && Label(index + 1) == Label(value) + name
      invariant index < 0 ==> name == ""
    {
      assert Label(value) + name == Label((value - 1) / 26) + ([Letter((value - 1) % 26)] + name);
      name := [Letter((value - 1) % 26)] + name;
      value := (value - 1) / 26;
    }
    if index >= 0 { NumberOfLabel(index + 1); assert name == Label(index + 1); }
  }

  lemma {:induction false} NumberOfLabel(value: nat)
    ensures Number(Label(value)) == value && Letters(Label(value))
  {
    if value > 0 {
      NumberOfLabel((value - 1) / 26);
      assert Label(value)[..|Label(value)| - 1] == Label((value - 1) / 26);
    }
  }

  /** Every word of capital letters is the name of exactly the column it counts to. */
  lemma {:induction false} LabelOfNumber(name: string)
    requires Letters(name)
    ensures Label(Number(name)) == name
  {
    if name != "" {
      var front, last := name[..|name| - 1], name[|name| - 1];
      LabelOfNumber(front);
      var digit := last as int - 'A' as int;
      assert (Number(name) - 1) / 26 == Number(front) && (Number(name) - 1) % 26 == digit;
      assert name == front + [last];
    }
  }
}
