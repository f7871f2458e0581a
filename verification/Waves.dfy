/** Waves along the rifts, core/src/rifts.rs:186-214: a breadth-first search from the open ocean. */
module Waves {
  import opened Births
  import opened Grid
  import opened Options

  /** Where the search runs: the cells it may enter and the ones it starts from. */
  datatype Sea = Sea(size: Size, open: seq<bool>, shore: seq<bool>)

  predicate Charted(sea: Sea) {
    |sea.open| == |sea.shore| == Cells(sea.size)
    && forall i :: 0 <= i < |sea.shore| && sea.shore[i] ==> sea.open[i]
  }

  predicate Beside(sea: Sea, i: nat, j: nat) {
    i < |sea.open| && j < |sea.open| && Chebyshev(sea.size, i, j) == 1
  }

  /** Cell i is at most d steps over open cells from the shore. */
  ghost predicate Within(sea: Sea, d: nat, i: nat)
    requires Charted(sea)
  {
    i < |sea.open| && sea.open[i]
    && if d == 0 then sea.shore[i]
       else Within(sea, d - 1, i) || exists j: nat :: Beside(sea, j, i) && Within(sea, d - 1, j)
  }

  /** The true distance of a cell: it is within d steps and no fewer. */
  ghost predicate Exactly(sea: Sea, d: nat, i: nat)
    requires Charted(sea)
  {
    Within(sea, d, i) && (d > 0 ==> !Within(sea, d - 1, i))
  }

  lemma {:induction false} WithinMore(sea: Sea, d: nat, e: nat, i: nat)
    requires Charted(sea) && d <= e && Within(sea, d, i)
    ensures Within(sea, e, i)
  {
    if d < e {
      WithinMore(sea, d, e - 1, i);
    }
  }

  /** There is one true distance. */
  lemma ExactlyOnce(sea: Sea, d: nat, e: nat, i: nat)
    requires Charted(sea) && Exactly(sea, d, i) && Exactly(sea, e, i)
    ensures d == e
  {
    if d < e {
      WithinMore(sea, d, e - 1, i);
    } else if e < d {
      WithinMore(sea, e, d - 1, i);
    }
  }

  // ---- The search ----

  /** What is assigned is right. */
  ghost predicate Right(sea: Sea, dist: seq<Option<nat>>)
    requires Charted(sea)
  {
    |dist| == |sea.open| && forall i: nat :: i < |dist| && dist[i].Some? ==> Exactly(sea, dist[i].value, i)
  }

  /** The queue: assigned cells, nearest first, no two of them more than a step apart. */
  ghost predicate Queued(sea: Sea, dist: seq<Option<nat>>, queue: seq<nat>) {
    && |dist| == |sea.open| && (forall k :: 0 <= k < |queue| ==> queue[k] < |dist| && dist[queue[k]].Some?)
    && (forall j, k :: 0 <= j < k < |queue| ==>
          dist[queue[j]].value <= dist[queue[k]].value <= dist[queue[j]].value + 1)
  }

  /** Whoever has left the queue has no unassigned neighbour. */
  ghost predicate Swept(sea: Sea, dist: seq<Option<nat>>, queue: seq<nat>)
    requires |dist| == |sea.open|
  {
    forall i: nat, j: nat :: i < |dist| && dist[i].Some? && i !in queue && Beside(sea, i, j) && sea.open[j] ==> dist[j].Some?
  }

  /** Everything within d steps is assigned. */
  ghost predicate Reached(sea: Sea, dist: seq<Option<nat>>, d: nat)
    requires Charted(sea) && |dist| == |sea.open|
  {
    forall i: nat :: Within(sea, d, i) ==> dist[i].Some?
  }

  ghost predicate Searching(sea: Sea, dist: seq<Option<nat>>, queue: seq<nat>)
    requires Charted(sea)
  {
    && Right(sea, dist) && Queued(sea, dist, queue) && Swept(sea, dist, queue)
    && (forall i :: 0 <= i < |dist| && sea.shore[i] ==> dist[i].Some?)
    && (queue != [] ==> Reached(sea, dist, dist[queue[0]].value))
  }

  /** The whole search: every cell has its true distance, or is not within any. */
  ghost predicate Searched(sea: Sea, dist: seq<Option<nat>>)
    requires Charted(sea)
  {
    Right(sea, dist) && forall i: nat, d: nat :: Within(sea, d, i) ==> dist[i].Some?
  }

  lemma {:induction false} SweptReachesAll(sea: Sea, dist: seq<Option<nat>>, d: nat, i: nat)
    requires Charted(sea) && Searching(sea, dist, []) && Within(sea, d, i)
    ensures dist[i].Some?
  {
    if d > 0 {
      if Within(sea, d - 1, i) {
        SweptReachesAll(sea, dist, d - 1, i);
      } else {
        var j: nat :| Beside(sea, j, i) && Within(sea, d - 1, j);
        SweptReachesAll(sea, dist, d - 1, j);
      }
    }
  }

  /** While cell i's neighbours are looked at: as before, but for the neighbours of i. */
  ghost predicate Sweeping(sea: Sea, dist: seq<Option<nat>>, queue: seq<nat>, i: nat, k: nat)
    requires Charted(sea) && k <= 8
  {
    && Right(sea, dist) && Queued(sea, dist, queue) && i < |dist| && dist[i].Some? && sea.open[i]
    && (forall q :: 0 <= q < |queue| ==> dist[i].value <= dist[queue[q]].value <= dist[i].value + 1)
    && (forall p: nat, j: nat :: (p < |dist| && p != i && dist[p].Some? && p !in queue && Beside(sea, p, j) && sea.open[j]) ==>
          dist[j].Some?)
    && (forall q :: 0 <= q < k ==> Looked(sea, dist, i, q))
    && (forall p :: 0 <= p < |dist| && sea.shore[p] ==> dist[p].Some?)
    && Reached(sea, dist, dist[i].value)
  }

  /** The q-th neighbour of i is assigned, closed or off the map. */
  ghost predicate Looked(sea: Sea, dist: seq<Option<nat>>, i: nat, q: nat)
    requires |dist| == |sea.open| && q < 8
  {
    var n := Neighbor(sea.size, i, q);
    n.Some? && n.value < |dist| && sea.open[n.value] ==> dist[n.value].Some?
  }

  lemma StartSweeping(sea: Sea, dist: seq<Option<nat>>, queue: seq<nat>)
    requires Charted(sea) && Searching(sea, dist, queue) && queue != []
    ensures Sweeping(sea, dist, queue[1..], queue[0], 0)
  {
    hide Exactly, Beside, Reached;
    var i, rest := queue[0], queue[1..];
    assert forall q :: 0 <= q < |rest| ==> rest[q] == queue[q + 1];
    RightFacts(sea, dist, i);
    forall p: nat | p in queue && p != i
      ensures p in rest
    {
      var k :| 0 <= k < |queue| && queue[k] == p;
      assert rest[k - 1] == p;
    }
  }

  lemma RightFacts(sea: Sea, dist: seq<Option<nat>>, i: nat)
    requires Charted(sea) && Right(sea, dist) && i < |dist| && dist[i].Some?
    ensures sea.open[i] && Within(sea, dist[i].value, i)
  {
  }

  /** An open neighbour that has no distance yet is one step farther. */
  lemma NeighbourIsNext(sea: Sea, dist: seq<Option<nat>>, queue: seq<nat>, i: nat, k: nat, j: nat)
    requires Charted(sea) && k < 8 && Sweeping(sea, dist, queue, i, k)
    requires Neighbor(sea.size, i, k) == Some(j) && j < |dist| && sea.open[j] && dist[j] == None
    ensures Exactly(sea, dist[i].value + 1, j)
  {
    hide Neighbor, Queued, Looked;
    NeighborIsOneStep(sea.size, i, j);
    assert Beside(sea, i, j);
    RightFacts(sea, dist, i);
  }

  lemma SweepNext(sea: Sea, dist: seq<Option<nat>>, queue: seq<nat>, i: nat, k: nat, j: nat)
    requires Charted(sea) && k < 8 && Sweeping(sea, dist, queue, i, k)
    requires Neighbor(sea.size, i, k) == Some(j) && j < |dist| && sea.open[j] && dist[j] == None
    ensures Sweeping(sea, dist[j := Some(dist[i].value + 1)], queue + [j], i, k + 1)
  {
    NeighbourIsNext(sea, dist, queue, i, k, j);
    hide Exactly, Beside, Neighbor, Within;
    var dist', queue' := dist[j := Some(dist[i].value + 1)], queue + [j];
    assert forall p: nat :: p in queue' <==> p in queue || p == j;
    forall q | 0 <= q < k + 1
      ensures Looked(sea, dist', i, q)
    {
      assert q < k ==> Looked(sea, dist, i, q);
    }
  }

  lemma SweepOver(sea: Sea, dist: seq<Option<nat>>, queue: seq<nat>, i: nat, k: nat)
    requires Charted(sea) && k < 8 && Sweeping(sea, dist, queue, i, k) && Looked(sea, dist, i, k)
    ensures Sweeping(sea, dist, queue, i, k + 1)
  {
    hide Right, Queued, Beside, Reached, Looked;
  }

  lemma AllLooked(sea: Sea, dist: seq<Option<nat>>, queue: seq<nat>, i: nat)
    requires Charted(sea) && Sweeping(sea, dist, queue, i, 8)
    ensures Swept(sea, dist, queue)
  {
    SweepingFacts(sea, dist, queue, i, 8);
    hide Right, Queued, Reached, Neighbor;
    forall p: nat, j: nat | p < |dist| && dist[p].Some? && p !in queue && Beside(sea, p, j) && sea.open[j]
      ensures dist[j].Some?
    {
      if p == i {
        NeighborIsOneStep(sea.size, i, j);
        var q :| 0 <= q < 8 && Neighbor(sea.size, i, q) == Some(j);
        assert Looked(sea, dist, i, q);
      }
    }
  }

  /** When only farther cells wait, everything one step farther is assigned. */
  lemma ReachedNext(sea: Sea, dist: seq<Option<nat>>, queue: seq<nat>, d: nat)
    requires Charted(sea) && Right(sea, dist) && Swept(sea, dist, queue) && Reached(sea, dist, d)
    requires forall q :: 0 <= q < |queue| ==> queue[q] < |dist| && dist[queue[q]].Some? && dist[queue[q]].value > d
    ensures Reached(sea, dist, d + 1)
  {
    hide Beside;
    forall j: nat | Within(sea, d + 1, j)
      ensures dist[j].Some?
    {
      if !Within(sea, d, j) {
        var p: nat :| Beside(sea, p, j) && Within(sea, d, p);
        NotFarther(sea, dist, p, d);
        assert p !in queue;
      }
    }
  }

  lemma NotFarther(sea: Sea, dist: seq<Option<nat>>, p: nat, d: nat)
    requires Charted(sea) && Right(sea, dist) && p < |dist| && dist[p].Some? && Within(sea, d, p)
    ensures dist[p].value <= d
  {
    if dist[p].value > d {
      WithinMore(sea, d, dist[p].value - 1, p);
    }
  }

  lemma EndSweeping(sea: Sea, dist: seq<Option<nat>>, queue: seq<nat>, i: nat)
    requires Charted(sea) && Sweeping(sea, dist, queue, i, 8)
    ensures Searching(sea, dist, queue)
  {
    AllLooked(sea, dist, queue, i);
    hide Exactly, Beside, Neighbor, Within, Swept, Looked, Reached;
    if queue != [] && dist[queue[0]].value == dist[i].value + 1 {
      assert forall q :: 0 <= q < |queue| ==> dist[queue[0]].value <= dist[queue[q]].value;
      ReachedNext(sea, dist, queue, dist[i].value);
    }
  }

  // ---- The loops ----

  function Unassigned(dist: seq<Option<nat>>): nat {
    if dist == [] then 0 else Unassigned(dist[..|dist| - 1]) + if dist[|dist| - 1] == None then 1 else 0
  }

  lemma {:induction false} AssignedOne(dist: seq<Option<nat>>, i: nat, d: nat)
    requires i < |dist| && dist[i] == None
    ensures Unassigned(dist[i := Some(d)]) + 1 == Unassigned(dist)
  {
    var n := |dist| - 1;
    if i < n {
      assert dist[i := Some(d)][..n] == dist[..n][i := Some(d)];
      AssignedOne(dist[..n], i, d);
    } else {
      assert dist[i := Some(d)][..n] == dist[..n];
    }
  }

  lemma StartSearching(sea: Sea, dist: seq<Option<nat>>, queue: seq<nat>)
    requires Charted(sea) && |dist| == |sea.open|
    requires forall i :: 0 <= i < |dist| ==> dist[i] == if sea.shore[i] then Some(0) else None
    requires forall i: nat :: i in queue <==> i < |dist| && sea.shore[i]
    ensures Searching(sea, dist, queue)
  {
    hide Beside;
    forall k | 0 <= k < |queue|
      ensures queue[k] < |dist| && sea.shore[queue[k]]
    {
      assert queue[k] in queue;
    }
  }

  /** The neighbours of the cell at the head of the queue, in their fixed order. */
  method Sweep(sea: Sea, dist: array<Option<nat>>, rest: seq<nat>, i: nat) returns (queue: seq<nat>)
    requires Charted(sea) && dist.Length == |sea.open| && Sweeping(sea, dist[..], rest, i, 0)
    modifies dist
    ensures Searching(sea, dist[..], queue)
    ensures 2 * Unassigned(dist[..]) + |queue| <= 2 * Unassigned(old(dist[..])) + |rest|
  {
    hide Sweeping, Searching, Unassigned, Neighbor, Charted;
    queue := rest;
    SweepingFacts(sea, dist[..], queue, i, 0);
    for k := 0 to 8
      invariant Sweeping(sea, dist[..], queue, i, k) && i < dist.Length && dist[i].Some?
      invariant 2 * Unassigned(dist[..]) + |queue| <= 2 * Unassigned(old(dist[..])) + |rest|
    {
      var n := Neighbor(sea.size, i, k);
      SweepingFacts(sea, dist[..], queue, i, k);
      if n.Some? && n.value < |sea.open| && sea.open[n.value] && dist[n.value] == None {
        ghost var before := dist[..];
        SweepNext(sea, before, queue, i, k, n.value);
        AssignedOne(before, n.value, dist[i].value + 1);
        dist[n.value] := Some(dist[i].value + 1);
        assert dist[..] == before[n.value := Some(before[i].value + 1)];
        queue := queue + [n.value];
      } else {
        SweepOver(sea, dist[..], queue, i, k);
      }
    }
    EndSweeping(sea, dist[..], queue, i);
  }

  lemma SweepingFacts(sea: Sea, dist: seq<Option<nat>>, queue: seq<nat>, i: nat, k: nat)
    requires Charted(sea) && k <= 8 && Sweeping(sea, dist, queue, i, k)
    ensures i < |dist| == |sea.open| && dist[i].Some?
  {
  }

  /** Every open cell's distance from the shore over open cells. */
  method Search(sea: Sea) returns (dist: array<Option<nat>>)
    requires Charted(sea)
    ensures fresh(dist) && dist.Length == |sea.open| && Searched(sea, dist[..])
  {
    hide Searching, Unassigned, Within, Right, Sweeping;
    dist := new Option<nat>[|sea.open|](_ => None);
    var queue: seq<nat> := [];
    for i := 0 to dist.Length
      invariant forall k :: 0 <= k < dist.Length ==> dist[k] == if k < i && sea.shore[k] then Some(0) else None
      invariant forall k: nat :: k in queue <==> k < i && sea.shore[k]
    {
      if sea.shore[i] {
        dist[i] := Some(0);
        queue := queue + [i];
      }
    }
    StartSearching(sea, dist[..], queue);
    while queue != []
      invariant Searching(sea, dist[..], queue)
      decreases 2 * Unassigned(dist[..]) + |queue|
    {
      StartSweeping(sea, dist[..], queue);
      queue := Sweep(sea, dist, queue[1..], queue[0]);
    }
    SearchEnds(sea, dist[..]);
  }

  lemma SearchEnds(sea: Sea, dist: seq<Option<nat>>)
    requires Charted(sea) && Searching(sea, dist, [])
    ensures Searched(sea, dist)
  {
    forall i: nat, d: nat | Within(sea, d, i)
      ensures dist[i].Some?
    {
      SweptReachesAll(sea, dist, d, i);
    }
  }
}
