/** The ascending key list of an ordered map. */
module Ordering {

  ghost predicate Ascending(ks: seq<int>) {
    forall a, b | 0 <= a < b < |ks| :: ks[a] < ks[b]
  }

  /** Add a key unless it is present. */
  function InsertKey(ks: seq<int>, k: int): (r: seq<int>)
    requires Ascending(ks)
    ensures Ascending(r)
    ensures forall x :: x in r <==> x in ks || x == k
  {
    if ks == [] then [k]
    else if k < ks[0] then [k] + ks
    else if k == ks[0] then ks
    else
      var rest := InsertKey(ks[1..], k);
      assert forall a | 0 <= a < |rest| :: rest[a] in rest && ks[0] < rest[a];
      [ks[0]] + rest
  }
}
