/** Seats, optional inputs and sums over the four seat slots. */
module Seats {

  /** Number of players at the table; seats are indexed 0 .. Count - 1. */
  const Count: nat := 4

  /** A form field after integer parsing: `None` when it is empty or does not parse. */
  datatype Option<T> = None | Some(value: T)

  /** The `parseInt(field) || 0` idiom: an absent value reads as 0. */
  function Coerce(field: Option<int>): (n: int)
    ensures field.None? ==> n == 0
    ensures field.Some? ==> n == field.value
  {
    match field
    case None => 0
    case Some(v) => v
  }

  /** Every field of a row of inputs, coerced. */
  function CoerceAll(fields: seq<Option<int>>): (ns: seq<int>)
    ensures |ns| == |fields|
    ensures forall i :: 0 <= i < |fields| ==> ns[i] == Coerce(fields[i])
  {
    seq(|fields|, i requires 0 <= i < |fields| => Coerce(fields[i]))
  }

  /** Sum of a sequence, peeling the last element (the order a forward loop adds them in). */
  function Sum(s: seq<int>): (total: int)
  {
    if s == [] then 0 else Sum(s[..|s| - 1]) + s[|s| - 1]
  }

  /** Adding the next element of a prefix sum. */
  lemma SumPrefix(s: seq<int>, i: nat)
    requires i < |s|
    ensures Sum(s[..i + 1]) == Sum(s[..i]) + s[i]
  {
    assert s[..i + 1][..i] == s[..i];
  }

  /** The sum of a row of four seats, written out. */
  lemma {:induction false} SumFour(s: seq<int>)
    requires |s| == Count
    ensures Sum(s) == s[0] + s[1] + s[2] + s[3]
  {
    assert s[..0] == [];
    SumPrefix(s, 0);
    SumPrefix(s, 1);
    SumPrefix(s, 2);
    SumPrefix(s, 3);
    assert s[..4] == s;
  }
}
