/** Choosing shards by the centroids nearest to a vector. */
module Centroids {
  import opened Common
  import Distance

  /** Sorted before: closer, or equally close and listed earlier. */
  predicate Nearer(ds: seq<real>, i: nat, j: nat)
    requires i < |ds| && j < |ds|
  {
    ds[i] < ds[j] || (ds[i] == ds[j] && i < j)
  }

  predicate Indices(order: seq<nat>, n: nat) {
    forall k :: 0 <= k < |order| ==> order[k] < n
  }

  /** Stable: a new index goes after those at the same distance. */
  function Insert(ds: seq<real>, order: seq<nat>, x: nat): (r: seq<nat>)
    requires x < |ds| && Indices(order, |ds|)
    ensures Indices(r, |ds|) && |r| == |order| + 1
    ensures forall i: nat :: i in r <==> i in order || i == x
  {
    if order == [] then [x]
    else if ds[order[0]] <= ds[x] then [order[0]] + Insert(ds, order[1..], x)
    else [x] + order
  }

  /** The first `n` indices, stably sorted by distance. */
  function Order(ds: seq<real>, n: nat): (r: seq<nat>)
    requires n <= |ds|
    ensures Indices(r, |ds|) && |r| == n
    ensures forall i: nat :: i in r <==> i < n
  {
    if n == 0 then []
    else
      Insert(ds, Order(ds, n - 1), n - 1)
  }

  predicate Ascending(ds: seq<real>, order: seq<nat>)
    requires Indices(order, |ds|)
  {
    forall a, b :: 0 <= a < b < |order| ==> Nearer(ds, order[a], order[b])
  }

  lemma {:induction false} InsertAscends(ds: seq<real>, order: seq<nat>, x: nat)
    requires x < |ds| && Indices(order, |ds|) && Indices(order, x) && Ascending(ds, order)
    ensures Ascending(ds, Insert(ds, order, x))
  {
    if order != [] && ds[order[0]] <= ds[x] {
      InsertAscends(ds, order[1..], x);
      var r := Insert(ds, order[1..], x);
      forall b | 0 <= b < |r| ensures Nearer(ds, order[0], r[b]) {
        assert r[b] in r;
      }
    }
  }

  lemma {:induction false} OrderAscends(ds: seq<real>, n: nat)
    requires n <= |ds|
    ensures Ascending(ds, Order(ds, n))
  {
    if n > 0 {
      OrderAscends(ds, n - 1);
      var rest := Order(ds, n - 1);
      assert forall k :: 0 <= k < |rest| ==> rest[k] in rest;
      InsertAscends(ds, Order(ds, n - 1), n - 1);
    }
  }

  /** The centroids sorted before a given one. */
  function Ahead(ds: seq<real>, i: nat): set<nat>
    requires i < |ds|
  {
    set j: nat | j < |ds| && Nearer(ds, j, i)
  }

  function Members(s: seq<nat>): set<nat> { set x <- s }

  lemma {:induction false} SetOfDistinct(s: seq<nat>)
    requires forall a, b :: 0 <= a < b < |s| ==> s[a] != s[b]
    ensures |Members(s)| == |s|
  {
    if s != [] {
      var n := |s| - 1;
      SetOfDistinct(s[..n]);
      var front := Members(s[..n]);
      assert s[n] !in front;
      assert s == s[..n] + [s[n]];
      assert Members(s) == front + {s[n]};
    }
  }

  /** Position in the order is the number of centroids ahead. */
  lemma PositionIsRank(ds: seq<real>, k: nat)
    requires k < |ds|
    ensures |Ahead(ds, Order(ds, |ds|)[k])| == k
  {
    var order := Order(ds, |ds|);
    OrderAscends(ds, |ds|);
    forall j: nat | j < |ds| ensures j in Ahead(ds, order[k]) <==> j in order[..k] {
      assert j in order;
      var p :| 0 <= p < |order| && order[p] == j;
    }
    assert Ahead(ds, order[k]) == Members(order[..k]);
    SetOfDistinct(order[..k]);
  }

  function Selected(ds: seq<real>, probes: nat): (r: seq<nat>)
    ensures |r| == Min(probes, |ds|)
  {
    Order(ds, |ds|)[..Min(probes, |ds|)]
  }

  /**
   A centroid is probed exactly when fewer than `probes` centroids are ahead of it; probing more
   keeps those already chosen, in order, and only adds to them.
   */
  lemma SelectedIff(ds: seq<real>, probes: nat, i: nat)
    requires i < |ds|
    ensures i in Selected(ds, probes) <==> |Ahead(ds, i)| < probes
    ensures forall more: nat :: probes <= more ==> Selected(ds, probes) <= Selected(ds, more)
  {
    var order := Order(ds, |ds|);
    assert i in order;
    var k :| 0 <= k < |order| && order[k] == i;
    PositionIsRank(ds, k);
    if i in Selected(ds, probes) {
      var p :| 0 <= p < Min(probes, |ds|) && order[p] == i;
      PositionIsRank(ds, p);
    } else {
      assert k >= Min(probes, |ds|);
    }
  }

  /** Distances to the vector; those of another dimension are never looked at. */
  function Distances(centroids: seq<seq<real>>, vector: seq<real>): (ds: seq<real>)
    ensures |ds| == |centroids|
  {
    seq(|centroids|, i requires 0 <= i < |centroids| =>
      if |centroids[i]| == |vector| then Distance.SquaredDistance(centroids[i], vector) else 0.0)
  }

  /** Sorting two or more centroids measures each of them, and measuring needs equal dimensions. */
  predicate Mismatched(centroids: seq<seq<real>>, vector: seq<real>) {
    |centroids| > 1 && exists c <- centroids :: |c| != |vector|
  }

  /** The shards to probe, nearest centroid first; `None` where the program stops instead. */
  method Shard(centroids: seq<seq<real>>, vector: seq<real>, shards: nat, probes: nat) returns (r: Option<seq<nat>>)
    ensures r.None? <==> Mismatched(centroids, vector) || (shards == 0 && probes > 0 && centroids != [])
    ensures r.Some? ==>
              var chosen := Selected(Distances(centroids, vector), probes);
              && |r.value| == |chosen|
              && forall k :: 0 <= k < |chosen| ==> shards > 0 && r.value[k] == chosen[k] % shards
  {
    if Mismatched(centroids, vector) {
      return None;
    }
    var ds := Distances(centroids, vector);
    var sorted := Order(ds, |ds|);
    var taken := sorted[..Min(probes, |sorted|)];
    var selected := [];
    for k := 0 to |taken|
      invariant |selected| == k && (k > 0 ==> shards > 0)
      invariant forall j :: 0 <= j < k ==> selected[j] == taken[j] % shards
    {
      if shards == 0 {
        return None;
      }
      selected := selected + [taken[k] % shards];
    }
    return Some(selected);
  }
}
