/** A list that loses one of its items. */
module Sequences {

  /** Where the `i`th of the items but the one at `at` stands among them all. */
  function Skip(at: nat, i: nat): (k: nat)
    ensures k != at && i <= k <= i + 1
  {
    if i < at then i else i + 1
  }

  function Without<T>(xs: seq<T>, at: nat): (rest: seq<T>)
    requires at < |xs|
    ensures |rest| == |xs| - 1 && forall i | 0 <= i < |rest| :: rest[i] == xs[Skip(at, i)]
    ensures forall i | 0 <= i < |xs| && i != at :: xs[i] in rest
  {
    var rest := xs[..at] + xs[at + 1..];
    assert forall i | 0 <= i < |xs| && i != at :: rest[if i < at then i else i - 1] == xs[i];
    rest
  }
}
