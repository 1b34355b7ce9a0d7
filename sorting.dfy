/** Sorting positions by a real-valued key, as torch.sort does for a 1-D tensor.
    Ties are broken by the lower position first (a stable sort); torch leaves the
    order of equal keys unspecified, so this is one of the orders it may produce. */
module Sorting {

  /** Position a comes before position b: smaller key, or equal key and smaller position. */
  predicate KeyLess(key: seq<real>, a: nat, b: nat)
    requires a < |key| && b < |key|
  {
    key[a] < key[b] || (key[a] == key[b] && a < b)
  }

  /** Every entry of order is a position of key, and the entries are strictly increasing by KeyLess. */
  predicate LexSorted(key: seq<real>, order: seq<nat>)
  {
    (forall p :: 0 <= p < |order| ==> order[p] < |key|) &&
    (forall p, q :: 0 <= p < q < |order| ==> KeyLess(key, order[p], order[q]))
  }

  /** order lists each of the positions 0 .. n-1 exactly once. */
  predicate IsPermutation(order: seq<nat>, n: nat)
  {
    |order| == n &&
    (forall p :: 0 <= p < |order| ==> order[p] < n) &&
    (forall k :: 0 <= k < n ==> k in order) &&
    (forall p, q :: 0 <= p < q < |order| ==> order[p] != order[q])
  }

  /** Inserts position j, which is larger than every position already in s, before the
      first entry whose key is strictly greater than key[j]. */
  function Insert(key: seq<real>, s: seq<nat>, j: nat): (r: seq<nat>)
    requires j < |key|
    requires LexSorted(key, s)
    requires forall p :: 0 <= p < |s| ==> s[p] < j
    ensures |r| == |s| + 1
    ensures forall x: nat :: x in r <==> x in s || x == j
    ensures LexSorted(key, r)
  {
    if s == [] then [j]
    else if key[j] < key[s[0]] then [j] + s
    else
      var rest := Insert(key, s[1..], j);
      var r := [s[0]] + rest;
      forall q | 1 <= q < |r| ensures KeyLess(key, s[0], r[q]) {
        assert r[q] == rest[q - 1] && rest[q - 1] in rest;
        if r[q] != j {
          assert r[q] in s[1..];
          var k :| 0 <= k < |s[1..]| && s[1..][k] == r[q];
          assert s[k + 1] == r[q];
        }
      }
      r
  }

  /** Positions 0 .. n-1 of key in ascending key order (stable). */
  function SortIndices(key: seq<real>, n: nat): (order: seq<nat>)
    requires n <= |key|
    ensures LexSorted(key, order)
    ensures forall x: nat :: x in order <==> x < n
    ensures |order| == n
  {
    if n == 0 then []
    else
      var prev := SortIndices(key, n - 1);
      assert forall p :: 0 <= p < |prev| ==> prev[p] in prev;
      Insert(key, prev, n - 1)
  }

  lemma LexSortedIsPermutation(key: seq<real>, order: seq<nat>)
    requires LexSorted(key, order)
    requires |order| == |key|
    requires forall x: nat :: x in order <==> x < |key|
    ensures IsPermutation(order, |key|)
  {
    forall p, q | 0 <= p < q < |order| ensures order[p] != order[q] {
      assert KeyLess(key, order[p], order[q]);
    }
  }

  /** The key values in sorted order, with the order that produced them. */
  function Argsort(key: seq<real>): (r: (seq<real>, seq<nat>))
    ensures IsPermutation(r.1, |key|)
    ensures |r.0| == |key|
    ensures forall p :: 0 <= p < |key| ==> r.0[p] == key[r.1[p]]
    ensures forall p, q :: 0 <= p <= q < |key| ==> r.0[p] <= r.0[q]
  {
    var order := SortIndices(key, |key|);
    LexSortedIsPermutation(key, order);
    var sorted := seq(|key|, p requires 0 <= p < |key| => key[order[p]]);
    assert forall p, q :: 0 <= p < q < |key| ==> KeyLess(key, order[p], order[q]);
    (sorted, order)
  }

  /** The largest element of a non-empty sequence (torch.max over a 1-D tensor). */
  function Max(s: seq<real>): (m: real)
    requires |s| > 0
    ensures m in s
    ensures forall i :: 0 <= i < |s| ==> s[i] <= m
  {
    if |s| == 1 then s[0]
    else
      var rest := Max(s[1..]);
      assert forall i :: 1 <= i < |s| ==> s[i] == s[1..][i - 1];
      if s[0] >= rest then s[0] else rest
  }

  /** On an ascending sequence the maximum is the last element. */
  lemma MaxOfAscending(s: seq<real>)
    requires |s| > 0
    requires forall p, q :: 0 <= p <= q < |s| ==> s[p] <= s[q]
    ensures Max(s) == s[|s| - 1]
  {
    var m := Max(s);
    var i :| 0 <= i < |s| && s[i] == m;
    assert s[i] <= s[|s| - 1];
  }
}
