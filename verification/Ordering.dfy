/** "order by key asc, id asc" over row ids. */
module Ordering {

  predicate Before(keys: seq<int>, a: nat, b: nat)
    requires a < |keys| && b < |keys|
  {
    keys[a] < keys[b] || (keys[a] == keys[b] && a <= b)
  }

  predicate InRange(keys: seq<int>, ids: seq<nat>) {
    forall i :: 0 <= i < |ids| ==> ids[i] < |keys|
  }

  ghost predicate Ordered(keys: seq<int>, ids: seq<nat>)
    requires InRange(keys, ids)
  {
    forall i, j :: 0 <= i < j < |ids| ==> Before(keys, ids[i], ids[j])
  }

  predicate Distinct(ids: seq<nat>) {
    forall i, j :: 0 <= i < j < |ids| ==> ids[i] != ids[j]
  }

  function Insert(keys: seq<int>, id: nat, ids: seq<nat>): (r: seq<nat>)
    requires id < |keys| && InRange(keys, ids)
    ensures InRange(keys, r) && |r| == |ids| + 1
    ensures forall x :: x in r <==> x == id || x in ids
    ensures Ordered(keys, ids) ==> Ordered(keys, r)
    ensures Distinct(ids) && id !in ids ==> Distinct(r)
  {
    if ids == [] then [id]
    else if Before(keys, id, ids[0]) then [id] + ids
    else
      var rest := Insert(keys, id, ids[1..]);
      assert forall i :: 0 <= i < |rest| ==> rest[i] in rest;
      assert forall i :: 0 <= i < |ids[1..]| ==> ids[1..][i] == ids[i + 1];
      [ids[0]] + rest
  }

  // The ids below n that satisfy the filter, in order.
  function Select(keys: seq<int>, filter: seq<bool>, n: nat): (r: seq<nat>)
    requires |filter| == |keys| && n <= |keys|
    ensures InRange(keys, r) && Ordered(keys, r) && Distinct(r)
    ensures forall x: nat :: x in r <==> x < n && filter[x]
  {
    if n == 0 then []
    else
      var rest := Select(keys, filter, n - 1);
      if filter[n - 1] then Insert(keys, n - 1, rest) else rest
  }
}
