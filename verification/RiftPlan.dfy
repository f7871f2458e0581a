/** The rift plan, core/src/rifts.rs:165-341: which cells lie on a rift, in which waves they sink, and when the
    land bridges close. */
module RiftPlan {
  import opened Arithmetic
  import opened Births
  import opened Epochs
  import opened Grid
  import opened Kinship
  import opened Miracles
  import opened Offerings
  import opened Options
  import opened Randomness
  import opened Waves
  import opened WorldState

  // ---- Rift cells ----

  /** A passable cell next to a cell of another plate. */
  predicate LiesOnRift(size: Size, biomes: seq<Biome>, plates: seq<nat>, i: nat) {
    i < |biomes| && |plates| == |biomes| && biomes[i] != DeepWater
    && exists k :: 0 <= k < 8 && OtherPlate(size, plates, i, k)
  }

  predicate OtherPlate(size: Size, plates: seq<nat>, i: nat, k: nat)
    requires k < 8 && i < |plates|
  {
    var n := Neighbor(size, i, k);
    n.Some? && n.value < |plates| && plates[n.value] != plates[i]
  }

  predicate ByTheOcean(size: Size, biomes: seq<Biome>, i: nat) {
    exists k :: 0 <= k < 8 && var n := Neighbor(size, i, k);
      n.Some? && n.value < |biomes| && biomes[n.value] == DeepWater
  }

  /** Rift cells and shores, by the distance of king's steps: what can be passed beside another plate, and what has deep water
      beside it. */
  lemma RiftsExactly(size: Size, biomes: seq<Biome>, plates: seq<nat>, i: nat)
    requires |biomes| == |plates| == Cells(size) && i < |biomes|
    ensures LiesOnRift(size, biomes, plates, i) <==>
      biomes[i] != DeepWater && exists j: nat :: j < |plates| && Chebyshev(size, i, j) == 1 && plates[j] != plates[i]
    ensures ByTheOcean(size, biomes, i) <==>
      exists j: nat :: j < |biomes| && Chebyshev(size, i, j) == 1 && biomes[j] == DeepWater
  {
    hide Chebyshev, Neighbor;
    forall j: nat | j < |biomes|
      ensures (exists k :: 0 <= k < 8 && Neighbor(size, i, k) == Some(j)) <==> Chebyshev(size, i, j) == 1
    {
      NeighborIsOneStep(size, i, j);
    }
    if LiesOnRift(size, biomes, plates, i) {
      var k :| 0 <= k < 8 && OtherPlate(size, plates, i, k);
      assert Chebyshev(size, i, Neighbor(size, i, k).value) == 1;
    }
    if j: nat :| j < |plates| && Chebyshev(size, i, j) == 1 && plates[j] != plates[i] {
      var k :| 0 <= k < 8 && Neighbor(size, i, k) == Some(j);
      assert OtherPlate(size, plates, i, k);
    }
    if ByTheOcean(size, biomes, i) {
      var k :| 0 <= k < 8 && var n := Neighbor(size, i, k); n.Some? && n.value < |biomes| && biomes[n.value] == DeepWater;
      assert Chebyshev(size, i, Neighbor(size, i, k).value) == 1;
    }
    if j: nat :| j < |biomes| && Chebyshev(size, i, j) == 1 && biomes[j] == DeepWater {
      var k :| 0 <= k < 8 && Neighbor(size, i, k) == Some(j);
    }
  }

  /** The sea along the rifts. */
  method Chart(size: Size, biomes: seq<Biome>, plates: seq<nat>) returns (sea: Sea)
    requires |biomes| == |plates| == Cells(size)
    ensures Charted(sea) && sea.size == size && |sea.open| == |biomes|
    ensures forall i: nat :: i < |biomes| ==> (sea.open[i] <==> LiesOnRift(size, biomes, plates, i))
    ensures forall i: nat :: i < |biomes| ==> (sea.shore[i] <==> sea.open[i] && ByTheOcean(size, biomes, i))
  {
    hide LiesOnRift, ByTheOcean;
    var open, shore := [], [];
    for i := 0 to |biomes|
      invariant |open| == |shore| == i
      invariant forall k: nat :: k < i ==> (open[k] <==> LiesOnRift(size, biomes, plates, k))
      invariant forall k: nat :: k < i ==> (shore[k] <==> open[k] && ByTheOcean(size, biomes, k))
    {
      open := open + [LiesOnRift(size, biomes, plates, i)];
      shore := shore + [open[i] && ByTheOcean(size, biomes, i)];
    }
    sea := Sea(size, open, shore);
  }

  /** Neighbours on two plates, the first of them passable: the first is a rift cell. */
  lemma BoundaryLiesOnRift(size: Size, biomes: seq<Biome>, plates: seq<nat>, a: nat, b: nat)
    requires |biomes| == |plates| == Cells(size) && a < |biomes| && b < |biomes|
    requires Chebyshev(size, a, b) <= 1 && biomes[a] != DeepWater && plates[a] != plates[b]
    ensures LiesOnRift(size, biomes, plates, a)
  {
    if Chebyshev(size, a, b) == 0 {
      SamePlace(size, a, b);
    } else {
      hide Chebyshev, Neighbor;
      NeighborIsOneStep(size, a, b);
      var k :| 0 <= k < 8 && Neighbor(size, a, k) == Some(b);
      assert OtherPlate(size, plates, a, k);
    }
  }

  // ---- Waves ----

  /** The largest distance found; 0 when there is none. */
  ghost predicate IsDeepest(dist: seq<Option<nat>>, deepest: nat) {
    (forall i :: 0 <= i < |dist| && dist[i].Some? ==> dist[i].value <= deepest)
    && (deepest == 0 || exists i :: 0 <= i < |dist| && dist[i] == Some(deepest))
  }

  method Deepest(dist: array<Option<nat>>) returns (deepest: nat)
    ensures IsDeepest(dist[..], deepest)
  {
    deepest := 0;
    for i := 0 to dist.Length
      invariant forall k :: 0 <= k < i && dist[k].Some? ==> dist[k].value <= deepest
      invariant deepest == 0 || exists k :: 0 <= k < i && dist[k] == Some(deepest)
    {
      if dist[i].Some? && dist[i].value > deepest {
        deepest := dist[i].value;
      }
    }
    if deepest > 0 {
      var k :| 0 <= k < dist.Length && dist[k] == Some(deepest);
      assert dist[..][k] == Some(deepest);
    }
  }

  /** The wave of a cell: its distance, or the deepest for cells that the ocean does not reach. */
  function Wave(dist: seq<Option<nat>>, deepest: nat, i: nat): nat
    requires i < |dist|
  {
    if dist[i].Some? then dist[i].value else deepest
  }

  // ---- The schedule ----

  function Day(rules: Ruleset, day: nat): nat {
    day * rules.epochsPerDay
  }

  lemma DayIsEpochs(rules: Ruleset, day: nat)
    ensures Day(rules, day) == rules.epochsPerDay * day
  {
  }

  lemma DaysInOrder(rules: Ruleset)
    requires Validated(rules)
    ensures Day(rules, rules.rifts.faultDay) <= Day(rules, rules.rifts.shallowsFromDay) <= Day(rules, rules.rifts.deepFromDay)
    ensures Day(rules, rules.rifts.deepFromDay) <= Day(rules, rules.rifts.bridgesFromDay) <= Day(rules, rules.rifts.bridgesToDay)
  {
    MulMonotone(rules.rifts.faultDay, rules.rifts.shallowsFromDay, rules.epochsPerDay);
    MulMonotone(rules.rifts.shallowsFromDay, rules.rifts.deepFromDay, rules.epochsPerDay);
    MulMonotone(rules.rifts.deepFromDay, rules.rifts.bridgesFromDay, rules.epochsPerDay);
    MulMonotone(rules.rifts.bridgesFromDay, rules.rifts.bridgesToDay, rules.epochsPerDay);
  }

  /** Part d of `parts` equal parts between two epochs, rounded down. */
  function Between(from: nat, to: nat, d: nat, parts: nat): nat
    requires from <= to && parts > 0
  {
    from + d * (to - from) / parts
  }

  /** An epoch lies at place `part` when `parts` things are spread from one epoch towards another: the last whole epoch
      that is not past its exact share of the way. */
  predicate Evenly(from: nat, to: nat, part: nat, parts: nat, at: nat) {
    from <= at && parts * (at - from) <= part * (to - from) < parts * (at - from + 1)
  }

  lemma BetweenIsEven(from: nat, to: nat, d: nat, parts: nat)
    requires from <= to && parts > 0
    ensures Evenly(from, to, d, parts, Between(from, to, d, parts))
  {
    var share: nat := d * (to - from);
    assert share == parts * (share / parts) + share % parts;
    assert Between(from, to, d, parts) - from == share / parts;
    assert parts * (share / parts + 1) == parts * (share / parts) + parts;
  }

  /** Things spread evenly start with the first at once; no later one comes earlier, and with an epoch for each they come one
      by one. */
  lemma OneByOne(from: nat, to: nat, d: nat, e: nat, parts: nat, a: nat, b: nat)
    requires from <= to && d <= e < parts && Evenly(from, to, d, parts, a) && Evenly(from, to, e, parts, b)
    ensures d == 0 ==> a == from
    ensures a <= b && (d == e ==> a == b) && (from < to ==> b < to)
    ensures d < e && to - from >= parts ==> a < b
  {
    NoneEarlier(from, to, d, e, parts, a, b);
    BeforeTheEnd(from, to, e, parts, b);
    hide Evenly;
    if d == e {
      NoneEarlier(from, to, e, d, parts, b, a);
    } else if to - from >= parts {
      OneEach(from, to, d, e, parts, a, b);
    }
  }

  lemma NoneEarlier(from: nat, to: nat, d: nat, e: nat, parts: nat, a: nat, b: nat)
    requires from <= to && d <= e && Evenly(from, to, d, parts, a) && Evenly(from, to, e, parts, b)
    ensures a <= b && (d == 0 && parts > 0 ==> a == from)
  {
    var w: nat := to - from;
    MulMonotone(d, e, w);
    NoEarlier(d * w, e * w, parts, a - from, b - from);
  }

  lemma OneEach(from: nat, to: nat, d: nat, e: nat, parts: nat, a: nat, b: nat)
    requires from + parts <= to && d < e && Evenly(from, to, d, parts, a) && Evenly(from, to, e, parts, b)
    ensures a < b
  {
    var w: nat := to - from;
    MulMonotone(d + 1, e, w);
    assert (d + 1) * w == d * w + w;
    Later(d * w, w, e * w, parts, a - from, b - from);
  }

  lemma BeforeTheEnd(from: nat, to: nat, e: nat, parts: nat, b: nat)
    requires from <= to && e < parts && Evenly(from, to, e, parts, b)
    ensures from < to ==> b < to
  {
    var w: nat := to - from;
    MulMonotone(e + 1, parts, w);
    assert (e + 1) * w == e * w + w;
    if w > 0 {
      NotThere(e * w, w, parts, b - from, (e + 1) * w);
    }
  }

  lemma Later(share: nat, w: nat, later: nat, parts: nat, p: nat, q: nat)
    requires share + w <= later && parts * p <= share && later < parts * (q + 1) && w >= parts
    ensures p < q
  {
    if p >= q {
      MulMonotone(q, p, parts);
    }
  }

  lemma NotThere(share: nat, w: nat, parts: nat, q: nat, whole: nat)
    requires whole == share + w && whole <= parts * w && parts * q <= share && w > 0
    ensures q < w
  {
    if q >= w {
      MulMonotone(w, q, parts);
    }
  }

  lemma NoEarlier(share: nat, later: nat, parts: nat, p: nat, q: nat)
    requires share <= later && parts * p <= share && later < parts * (q + 1)
    ensures p <= q && (share == 0 && parts > 0 ==> p == 0)
  {
    if p > q {
      MulMonotone(q + 1, p, parts);
    }
    if p > 0 {
      MulMonotone(1, p, parts);
    }
  }

  lemma BetweenBounds(from: nat, to: nat, d: nat, e: nat, parts: nat)
    requires from <= to && parts > 0 && d <= e <= parts
    ensures from <= Between(from, to, d, parts) <= Between(from, to, e, parts) <= to
  {
    var w: nat := to - from;
    MulMonotone(d, e, w);
    MulMonotone(e, parts, w);
    Portions(d * w, e * w, w, parts);
  }

  lemma Portions(p: nat, q: nat, w: nat, parts: nat)
    requires parts > 0 && p <= q <= parts * w
    ensures 0 <= p / parts <= q / parts <= w
  {
    var most := parts * w;
    DivMonotone(p, q, parts);
    DivMonotone(q, most, parts);
    assert w * parts == most;
    DivModUnique(most, parts, w, 0);
  }

  lemma DivMonotone(a: nat, b: nat, c: nat)
    requires a <= b && c > 0
    ensures a / c <= b / c
  {
    var p, q := a / c, b / c;
    assert a == p * c + a % c && b == q * c + b % c;
    if p > q {
      MulMonotone(q + 1, p, c);
    }
  }

  /** When the bridge at a place in the closing order closes. */
  function CloseAt(rules: Ruleset, position: nat, bridges: nat): nat
    requires Validated(rules) && position < bridges
  {
    DaysInOrder(rules);
    Between(Day(rules, rules.rifts.bridgesFromDay), Day(rules, rules.rifts.bridgesToDay), position, bridges)
  }

  function OpenRift(rules: Ruleset, cell: nat, wave: nat, waves: nat): Rift
    requires Validated(rules) && wave < waves
  {
    DaysInOrder(rules);
    Rift(cell, 0, Day(rules, rules.rifts.faultDay),
      Between(Day(rules, rules.rifts.shallowsFromDay), Day(rules, rules.rifts.deepFromDay), wave, waves),
      Between(Day(rules, rules.rifts.deepFromDay), Day(rules, rules.rifts.bridgesFromDay), wave, waves))
  }

  function BridgeRift(rules: Ruleset, cell: nat, bridge: nat, close: nat): Rift {
    Rift(cell, bridge, Day(rules, rules.rifts.faultDay), close, close)
  }

  /** A cell sinks in order of phases, later waves no earlier, and all before any bridge closes. */
  lemma WavesSinkInOrder(rules: Ruleset, c: nat, d: nat, wave: nat, later: nat, waves: nat, position: nat, bridges: nat)
    requires Validated(rules) && wave <= later < waves && position < bridges
    ensures var r, s := OpenRift(rules, c, wave, waves), OpenRift(rules, d, later, waves);
      && r.faultEpoch <= r.shallowsEpoch <= r.deepEpoch
      && r.shallowsEpoch <= s.shallowsEpoch && r.deepEpoch <= s.deepEpoch
      && s.deepEpoch <= CloseAt(rules, position, bridges)
      && s.faultEpoch <= CloseAt(rules, position, bridges)
  {
    hide Validated, Between, Day;
    var shallows, deep, from := Day(rules, rules.rifts.shallowsFromDay), Day(rules, rules.rifts.deepFromDay),
      Day(rules, rules.rifts.bridgesFromDay);
    DaysInOrder(rules);
    BetweenBounds(shallows, deep, wave, later, waves);
    BetweenBounds(deep, from, wave, later, waves);
    BetweenBounds(from, Day(rules, rules.rifts.bridgesToDay), position, position, bridges);
  }

  // ---- Bridges ----

  /** Every bridge once, in the order in which they close: an even shuffle in place. */
  method CloseOrder(rng: Rng, bridges: nat) returns (order: array<nat>)
    ensures fresh(order) && multiset(order[..]) == multiset(UpTo(bridges))
  {
    order := new nat[bridges](i => i);
    InitialOrder(order[..], bridges);
    if bridges > 1 {
      for k := bridges downto 1
        invariant order.Length == bridges && multiset(order[..]) == multiset(UpTo(bridges))
      {
        var j := Below(rng, 0, BridgeOrder, k % WORDS, k + 1);
        ghost var before := order[..];
        order[k], order[j] := order[j], order[k];
        assert order[..] == before[k := before[j]][j := before[k]];
        SwapPermutes(before, k, j);
      }
    }
  }

  lemma InitialOrder(order: seq<nat>, n: nat)
    requires |order| == n && forall i :: 0 <= i < n ==> order[i] == i
    ensures order == UpTo(n)
  {
    forall i: nat | i < n
      ensures |UpTo(n)| == n && UpTo(n)[i] == order[i]
    {
      UpToHas(n, i);
    }
    UpToHas(n, n);
  }

  lemma SwapPermutes(s: seq<nat>, k: nat, j: nat)
    requires k < |s| && j < |s|
    ensures multiset(s[k := s[j]][j := s[k]]) == multiset(s)
  {
  }

  /** The bridges close one by one in their order, spread evenly from their first day towards their last. */
  ghost predicate ClosesEvenly(rules: Ruleset, order: seq<nat>, close: seq<nat>) {
    && |order| == |close|
    && (forall p :: 0 <= p < |order| ==> order[p] < |close| && Evenly(rules.epochsPerDay * rules.rifts.bridgesFromDay,
          rules.epochsPerDay * rules.rifts.bridgesToDay, p, |order|, close[order[p]]))
  }

  lemma ClosesInShares(rules: Ruleset, p: nat, n: nat)
    requires Validated(rules) && p < n
    ensures Evenly(rules.epochsPerDay * rules.rifts.bridgesFromDay, rules.epochsPerDay * rules.rifts.bridgesToDay, p, n,
      CloseAt(rules, p, n))
  {
    DaysInOrder(rules);
    BetweenIsEven(Day(rules, rules.rifts.bridgesFromDay), Day(rules, rules.rifts.bridgesToDay), p, n);
    DayIsEpochs(rules, rules.rifts.bridgesFromDay);
    DayIsEpochs(rules, rules.rifts.bridgesToDay);
    hide Evenly, Between, Validated, Day;
  }

  /** When each bridge closes. */
  method CloseEpochs(rules: Ruleset, order: seq<nat>) returns (close: array<nat>)
    requires Validated(rules) && multiset(order) == multiset(UpTo(|order|))
    ensures fresh(close) && close.Length == |order|
    ensures forall p :: 0 <= p < |order| ==> order[p] < |order| && close[order[p]] == CloseAt(rules, p, |order|)
    ensures ClosesEvenly(rules, order, close[..])
  {
    hide Validated, CloseAt, Evenly;
    Arranged(order, |order|);
    close := new nat[|order|](_ => 0);
    for p := 0 to |order|
      invariant forall q :: 0 <= q < p ==> close[order[q]] == CloseAt(rules, q, |order|)
    {
      close[order[p]] := CloseAt(rules, p, |order|);
    }
    forall p | 0 <= p < |order|
      ensures Evenly(rules.epochsPerDay * rules.rifts.bridgesFromDay, rules.epochsPerDay * rules.rifts.bridgesToDay, p,
        |order|, close[order[p]])
    {
      ClosesInShares(rules, p, |order|);
    }
  }

  /** Every bridge has its place in the order. */
  lemma EveryBridgeCloses(order: seq<nat>, b: nat)
    requires multiset(order) == multiset(UpTo(|order|)) && b < |order|
    ensures exists p :: 0 <= p < |order| && order[p] == b
  {
    UpToHas(|order|, b);
    assert b in multiset(order);
  }

  predicate NearSite(rules: Ruleset, site: nat, c: nat) {
    Chebyshev(rules.size, site, c) <= rules.rifts.bridgeRadius
  }

  /** The bridge that a rift cell belongs to: the first whose site is within reach, counted from 1; 0 if none. */
  ghost predicate Belongs(rules: Ruleset, sea: Sea, sites: seq<nat>, n: nat, c: nat, bridge: nat)
    requires n <= |sites| && c < |sea.open|
  {
    if sea.open[c] && bridge > 0 then
      bridge <= n && NearSite(rules, sites[bridge - 1], c) && forall b :: 0 <= b < bridge - 1 ==> !NearSite(rules, sites[b], c)
    else bridge == 0 && (sea.open[c] ==> forall b :: 0 <= b < n ==> !NearSite(rules, sites[b], c))
  }

  method AssignBridges(rules: Ruleset, sea: Sea, sites: seq<nat>) returns (bridgeOf: array<nat>)
    requires Charted(sea) && sea.size == rules.size
    ensures fresh(bridgeOf) && bridgeOf.Length == |sea.open|
    ensures forall c: nat :: c < |sea.open| ==> Belongs(rules, sea, sites, |sites|, c, bridgeOf[c])
  {
    hide Belongs;
    bridgeOf := new nat[|sea.open|](_ => 0);
    NoBridgeYet(rules, sea, sites);
    for b := 0 to |sites|
      invariant forall c: nat :: c < |sea.open| ==> Belongs(rules, sea, sites, b, c, bridgeOf[c])
    {
      var square := SquareOf(rules.size, sites[b], rules.rifts.bridgeRadius);
      ghost var before := bridgeOf[..];
      SquareIsNear(rules, sea, sites[b], square);
      for k := 0 to |square|
        invariant forall c: nat :: c < |sea.open| ==>
          bridgeOf[c] == if c in square[..k] && sea.open[c] && before[c] == 0 then b + 1 else before[c]
      {
        var c := square[k];
        assert square[k] in square && c < |sea.open|;
        assert square[..k + 1] == square[..k] + [c];
        if sea.open[c] && bridgeOf[c] == 0 {
          bridgeOf[c] := b + 1;
        }
      }
      assert square[..|square|] == square;
      forall c: nat | c < |sea.open|
        ensures Belongs(rules, sea, sites, b + 1, c, bridgeOf[c])
      {
        BelongsNext(rules, sea, sites, b, c, before[c], bridgeOf[c]);
      }
    }
  }

  lemma NoBridgeYet(rules: Ruleset, sea: Sea, sites: seq<nat>)
    ensures forall c: nat :: c < |sea.open| ==> Belongs(rules, sea, sites, 0, c, 0)
  {
  }

  lemma SquareIsNear(rules: Ruleset, sea: Sea, site: nat, square: seq<nat>)
    requires Charted(sea) && sea.size == rules.size
    requires forall c: nat :: c in square <==> c < Cells(rules.size) && Chebyshev(rules.size, site, c) <= rules.rifts.bridgeRadius
    ensures forall c: nat :: c in square <==> c < |sea.open| && NearSite(rules, site, c)
  {
    hide Chebyshev;
  }

  lemma BelongsNext(rules: Ruleset, sea: Sea, sites: seq<nat>, b: nat, c: nat, before: nat, bridge: nat)
    requires b < |sites| && c < |sea.open| && Belongs(rules, sea, sites, b, c, before)
    requires bridge == if NearSite(rules, sites[b], c) && sea.open[c] && before == 0 then b + 1 else before
    ensures Belongs(rules, sea, sites, b + 1, c, bridge)
  {
    hide NearSite;
  }

  // ---- The plan ----

  /** One cell of the schedule. */
  ghost predicate Scheduled(rules: Ruleset, sea: Sea, sites: seq<nat>, dist: seq<Option<nat>>, deepest: nat, close: seq<nat>,
      r: Rift)
    requires Validated(rules)
  {
    && r.cell < |sea.open| == |dist| && sea.open[r.cell] && |close| == |sites|
    && Belongs(rules, sea, sites, |sites|, r.cell, r.bridge)
    && Wave(dist, deepest, r.cell) <= deepest
    && r == if r.bridge > 0 then BridgeRift(rules, r.cell, r.bridge, close[r.bridge - 1])
            else OpenRift(rules, r.cell, Wave(dist, deepest, r.cell), deepest + 1)
  }

  ghost predicate InWave(dist: seq<Option<nat>>, deepest: nat, c: nat, wave: nat)
    requires c < |dist|
  {
    (dist[c].Some? ==> wave == dist[c].value) && (dist[c].None? ==> wave == deepest)
  }

  /** When a rift cell sinks. One of a bridge goes at once when its bridge closes. The others go in waves, spread evenly over
      as many places as there are distances from the ocean, the farthest last and with it the cells that no rift leads to. */
  ghost predicate Sinks(rules: Ruleset, dist: seq<Option<nat>>, deepest: nat, close: seq<nat>, r: Rift) {
    && r.cell < |dist| && r.faultEpoch == rules.epochsPerDay * rules.rifts.faultDay
    && if r.bridge > 0 then r.bridge <= |close| && r.shallowsEpoch == r.deepEpoch == close[r.bridge - 1]
       else exists wave: nat ::
         && InWave(dist, deepest, r.cell, wave)
         && Evenly(rules.epochsPerDay * rules.rifts.shallowsFromDay, rules.epochsPerDay * rules.rifts.deepFromDay, wave,
              deepest + 1, r.shallowsEpoch)
         && Evenly(rules.epochsPerDay * rules.rifts.deepFromDay, rules.epochsPerDay * rules.rifts.bridgesFromDay, wave,
              deepest + 1, r.deepEpoch)
  }

  lemma ScheduledSinks(rules: Ruleset, sea: Sea, sites: seq<nat>, dist: seq<Option<nat>>, deepest: nat, close: seq<nat>, r: Rift)
    requires Validated(rules) && Scheduled(rules, sea, sites, dist, deepest, close, r)
    ensures Sinks(rules, dist, deepest, close, r)
  {
    DaysInOrder(rules);
    var wave := Wave(dist, deepest, r.cell);
    assert InWave(dist, deepest, r.cell, wave);
    if r.bridge == 0 {
      OpensInShares(rules, r.cell, wave, deepest + 1, OpenRift(rules, r.cell, wave, deepest + 1));
    }
    DayIsEpochs(rules, rules.rifts.faultDay);
    hide Evenly, OpenRift, Validated, NearSite, Wave, InWave, Day;
  }

  lemma OpensInShares(rules: Ruleset, c: nat, wave: nat, waves: nat, r: Rift)
    requires Validated(rules) && wave < waves && r == OpenRift(rules, c, wave, waves)
    ensures r.cell == c && r.bridge == 0 && r.faultEpoch == rules.epochsPerDay * rules.rifts.faultDay
    ensures Evenly(rules.epochsPerDay * rules.rifts.shallowsFromDay, rules.epochsPerDay * rules.rifts.deepFromDay, wave,
      waves, r.shallowsEpoch)
    ensures Evenly(rules.epochsPerDay * rules.rifts.deepFromDay, rules.epochsPerDay * rules.rifts.bridgesFromDay, wave,
      waves, r.deepEpoch)
  {
    hide Evenly, Between, Validated, Day;
    DaysInOrder(rules);
    DayIsEpochs(rules, rules.rifts.faultDay);
    DayIsEpochs(rules, rules.rifts.shallowsFromDay);
    DayIsEpochs(rules, rules.rifts.deepFromDay);
    DayIsEpochs(rules, rules.rifts.bridgesFromDay);
    BetweenIsEven(Day(rules, rules.rifts.shallowsFromDay), Day(rules, rules.rifts.deepFromDay), wave, waves);
    BetweenIsEven(Day(rules, rules.rifts.deepFromDay), Day(rules, rules.rifts.bridgesFromDay), wave, waves);
  }

  /** The schedule, by cell. */
  method ListRifts(rules: Ruleset, sea: Sea, sites: seq<nat>, dist: seq<Option<nat>>, deepest: nat, bridgeOf: seq<nat>,
      close: seq<nat>) returns (rifts: seq<Rift>)
    requires Validated(rules) && |dist| == |sea.open| == |bridgeOf| && |close| == |sites| && IsDeepest(dist, deepest)
    requires forall c: nat :: c < |sea.open| ==> Belongs(rules, sea, sites, |sites|, c, bridgeOf[c])
    ensures forall k :: 0 <= k < |rifts| ==> Scheduled(rules, sea, sites, dist, deepest, close, rifts[k])
    ensures forall j, k :: 0 <= j < k < |rifts| ==> rifts[j].cell < rifts[k].cell
    ensures forall i: nat :: i < |sea.open| ==> (OnRift(rifts, i) <==> sea.open[i])
  {
    hide Validated, Belongs, IsDeepest, OpenRift, BridgeRift, OnRift, Wave, Scheduled;
    rifts := [];
    NoRifts();
    for i := 0 to |sea.open|
      invariant forall k :: 0 <= k < |rifts| ==> rifts[k].cell < i
      invariant forall k :: 0 <= k < |rifts| ==> Scheduled(rules, sea, sites, dist, deepest, close, rifts[k])
      invariant forall j, k :: 0 <= j < k < |rifts| ==> rifts[j].cell < rifts[k].cell
      invariant forall c: nat :: c < i ==> (OnRift(rifts, c) <==> sea.open[c])
      invariant forall c: nat :: c >= i ==> !OnRift(rifts, c)
    {
      if sea.open[i] {
        WaveBounded(dist, deepest, i);
        BridgeBounded(rules, sea, sites, i, bridgeOf[i]);
        var bridge := bridgeOf[i];
        var r := if bridge > 0 then BridgeRift(rules, i, bridge, close[bridge - 1])
          else OpenRift(rules, i, Wave(dist, deepest, i), deepest + 1);
        RiftShapes(rules, sea, sites, i, bridge, r, dist, deepest, close);
        RiftNext(rifts, r);
        rifts := rifts + [r];
      }
    }
  }

  lemma NoRifts()
    ensures forall c: nat :: !OnRift([], c)
  {
  }

  method Plan(rules: Ruleset, rng: Rng, biomes: seq<Biome>, plates: seq<nat>, sites: seq<nat>)
    returns (rifts: seq<Rift>, ghost sea: Sea, ghost dist: seq<Option<nat>>, ghost deepest: nat, ghost order: seq<nat>,
      ghost close: seq<nat>)
    requires Validated(rules) && |biomes| == |plates| == Cells(rules.size)
    ensures Charted(sea) && sea.size == rules.size && |sea.open| == |biomes|
    ensures forall i: nat :: i < |biomes| ==> (sea.open[i] <==> LiesOnRift(rules.size, biomes, plates, i))
    ensures forall i: nat :: i < |biomes| ==> (sea.shore[i] <==> sea.open[i] && ByTheOcean(rules.size, biomes, i))
    ensures Searched(sea, dist) && IsDeepest(dist, deepest)
    ensures |order| == |sites| == |close| && multiset(order) == multiset(UpTo(|sites|))
    ensures forall p :: 0 <= p < |order| ==> order[p] < |order| && close[order[p]] == CloseAt(rules, p, |order|)
    ensures forall k :: 0 <= k < |rifts| ==> Scheduled(rules, sea, sites, dist, deepest, close, rifts[k])
    ensures ClosesEvenly(rules, order, close)
    ensures forall k :: 0 <= k < |rifts| ==> Sinks(rules, dist, deepest, close, rifts[k])
    ensures forall j, k :: 0 <= j < k < |rifts| ==> rifts[j].cell < rifts[k].cell
    ensures forall i: nat :: i < |biomes| ==> (OnRift(rifts, i) <==> sea.open[i])
  {
    hide Validated, LiesOnRift, ByTheOcean, Belongs, Searched, IsDeepest, CloseAt, OnRift, Scheduled, ClosesEvenly, Sinks;
    var chart := Chart(rules.size, biomes, plates);
    sea := chart;
    var distances := Search(chart);
    var last := Deepest(distances);
    var bridgeOf := AssignBridges(rules, chart, sites);
    var shuffled := CloseOrder(rng, |sites|);
    Arranged(shuffled[..], |sites|);
    var closing := CloseEpochs(rules, shuffled[..]);
    dist, deepest, order, close := distances[..], last, shuffled[..], closing[..];
    rifts := ListRifts(rules, chart, sites, distances[..], last, bridgeOf[..], closing[..]);
    forall k | 0 <= k < |rifts|
      ensures Sinks(rules, dist, deepest, close, rifts[k])
    {
      ScheduledSinks(rules, sea, sites, dist, deepest, close, rifts[k]);
    }
  }

  lemma RiftShapes(rules: Ruleset, sea: Sea, sites: seq<nat>, i: nat, bridge: nat, r: Rift, dist: seq<Option<nat>>,
      last: nat, close: seq<nat>)
    requires Validated(rules) && i < |sea.open| == |dist| && sea.open[i] && |close| == |sites| && bridge <= |close|
    requires Wave(dist, last, i) <= last && Belongs(rules, sea, sites, |sites|, i, bridge)
    requires r == if bridge > 0 then BridgeRift(rules, i, bridge, close[bridge - 1])
      else OpenRift(rules, i, Wave(dist, last, i), last + 1)
    ensures r.cell == i && Scheduled(rules, sea, sites, dist, last, close, r)
  {
    hide Validated, Between, Day, Wave;
  }

  lemma WaveBounded(dist: seq<Option<nat>>, deepest: nat, i: nat)
    requires IsDeepest(dist, deepest) && i < |dist|
    ensures Wave(dist, deepest, i) <= deepest
  {
  }

  lemma BridgeBounded(rules: Ruleset, sea: Sea, sites: seq<nat>, c: nat, bridge: nat)
    requires c < |sea.open| && Belongs(rules, sea, sites, |sites|, c, bridge)
    ensures bridge <= |sites|
  {
  }

  // ---- What a plan promises ----

  ghost predicate ClosesInTurn(rules: Ruleset, order: seq<nat>, close: seq<nat>)
    requires Validated(rules)
  {
    && |order| == |close| && multiset(order) == multiset(UpTo(|order|))
    && (forall p :: 0 <= p < |order| ==> order[p] < |order| && close[order[p]] == CloseAt(rules, p, |order|))
  }

  /** Phases in order in every cell; later waves never sink earlier; and whatever is not on a bridge is deep
      before any bridge closes. */
  lemma ScheduleInOrder(rules: Ruleset, sea: Sea, sites: seq<nat>, dist: seq<Option<nat>>, deepest: nat, order: seq<nat>,
      close: seq<nat>, r: Rift, s: Rift)
    requires Validated(rules) && ClosesInTurn(rules, order, close)
    requires Scheduled(rules, sea, sites, dist, deepest, close, r) && Scheduled(rules, sea, sites, dist, deepest, close, s)
    ensures r.faultEpoch <= r.shallowsEpoch <= r.deepEpoch
    ensures (r.bridge == 0 && s.bridge == 0 && Wave(dist, deepest, r.cell) <= Wave(dist, deepest, s.cell)) ==>
      r.shallowsEpoch <= s.shallowsEpoch && r.deepEpoch <= s.deepEpoch
    ensures r.bridge == 0 && s.bridge > 0 ==> r.deepEpoch <= s.shallowsEpoch == s.deepEpoch
  {
    hide Validated, CloseAt, OpenRift, Wave, NearSite, Day;
    var waves := deepest + 1;
    if r.bridge == 0 {
      OneSinksInOrder(rules, r.cell, Wave(dist, deepest, r.cell), waves);
      if s.bridge == 0 && Wave(dist, deepest, r.cell) <= Wave(dist, deepest, s.cell) {
        TwoSinkInOrder(rules, r.cell, s.cell, Wave(dist, deepest, r.cell), Wave(dist, deepest, s.cell), waves);
      }
      if s.bridge > 0 {
        EveryBridgeCloses(order, s.bridge - 1);
        var p :| 0 <= p < |order| && order[p] == s.bridge - 1;
        WavesSinkInOrder(rules, r.cell, r.cell, Wave(dist, deepest, r.cell), Wave(dist, deepest, r.cell), waves, p, |order|);
      }
    } else {
      EveryBridgeCloses(order, r.bridge - 1);
      var p :| 0 <= p < |order| && order[p] == r.bridge - 1;
      WavesSinkInOrder(rules, r.cell, r.cell, 0, 0, 1, p, |order|);
      FaultDay(rules, r.cell, 0, 1);
    }
  }

  /** Every rift is deep when the last bridge is to have closed. */
  lemma DeepByLastDay(rules: Ruleset, sea: Sea, sites: seq<nat>, dist: seq<Option<nat>>, deepest: nat, order: seq<nat>,
      close: seq<nat>, r: Rift)
    requires Validated(rules) && ClosesInTurn(rules, order, close)
    requires Scheduled(rules, sea, sites, dist, deepest, close, r)
    ensures r.deepEpoch <= Day(rules, rules.rifts.bridgesToDay)
  {
    hide Validated, Wave, NearSite, Day, Between;
    DaysInOrder(rules);
    if r.bridge == 0 {
      BetweenBounds(Day(rules, rules.rifts.deepFromDay), Day(rules, rules.rifts.bridgesFromDay),
        Wave(dist, deepest, r.cell), Wave(dist, deepest, r.cell), deepest + 1);
    } else {
      EveryBridgeCloses(order, r.bridge - 1);
      var p :| 0 <= p < |order| && order[p] == r.bridge - 1;
      BetweenBounds(Day(rules, rules.rifts.bridgesFromDay), Day(rules, rules.rifts.bridgesToDay), p, p, |order|);
    }
  }

  lemma FaultDay(rules: Ruleset, c: nat, wave: nat, waves: nat)
    requires Validated(rules) && wave < waves
    ensures OpenRift(rules, c, wave, waves).faultEpoch == Day(rules, rules.rifts.faultDay)
  {
  }

  lemma OneSinksInOrder(rules: Ruleset, c: nat, wave: nat, waves: nat)
    requires Validated(rules) && wave < waves
    ensures var r := OpenRift(rules, c, wave, waves); r.faultEpoch <= r.shallowsEpoch <= r.deepEpoch
  {
    WavesSinkInOrder(rules, c, c, wave, wave, waves, 0, 1);
  }

  lemma TwoSinkInOrder(rules: Ruleset, c: nat, d: nat, wave: nat, later: nat, waves: nat)
    requires Validated(rules) && wave <= later < waves
    ensures var r, s := OpenRift(rules, c, wave, waves), OpenRift(rules, d, later, waves);
      r.shallowsEpoch <= s.shallowsEpoch && r.deepEpoch <= s.deepEpoch
  {
    WavesSinkInOrder(rules, c, d, wave, later, waves, 0, 1);
  }

  /** A plan puts every boundary between plates on a rift: once all rifts are deep the plates are isolated. */
  lemma PlannedPlatesPart(rules: Ruleset, biomes: seq<Biome>, plates: seq<nat>, rifts: seq<Rift>, cells: seq<Cell>)
    requires |biomes| == |plates| == Cells(rules.size)
    requires forall i: nat :: i < |biomes| ==> (OnRift(rifts, i) <==> LiesOnRift(rules.size, biomes, plates, i))
    requires Rifting.Lowered(biomes, Ground(cells)) && Rifting.DeepIsWater(cells) && AllDeep(rifts, cells)
    ensures OnPlan(rules.size, biomes, plates, rifts) && Isolated(rules.size, Ground(cells), plates)
  {
    hide LiesOnRift, OnRift, Chebyshev, Isolated, Rifting.Lowered, Rifting.DeepIsWater, AllDeep;
    forall a, b | 0 <= a < |biomes| && 0 <= b < |biomes| && Chebyshev(rules.size, a, b) <= 1
        && biomes[a] != DeepWater && plates[a] != plates[b]
      ensures OnRift(rifts, a)
    {
      BoundaryLiesOnRift(rules.size, biomes, plates, a, b);
    }
    DeepRiftsIsolate(rules.size, biomes, plates, rifts, cells);
  }
}
