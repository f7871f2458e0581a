/** Walking, core/src/sim.rs:1228-1273. */
module Walks {
  import opened Arithmetic
  import opened Genomes
  import opened Gifts
  import opened Grid
  import opened Herd
  import opened Options
  import opened TickState
  import opened WorldState

  predicate HasGift(g: Genome, k: nat) {
    Holds(g.gifts, k)
  }

  predicate Passable(b: Biome) {
    b != DeepWater
  }

  function Sign(a: int): int {
    if a > 0 then 1 else if a < 0 then -1 else 0
  }

  /** A cell a step can enter: passable as it acts, with room. */
  predicate Enterable(biome: seq<Biome>, occ: seq<nat>, limit: nat, n: nat) {
    n < |biome| == |occ| && Passable(biome[n]) && occ[n] < limit
  }

  /** The k-th direction tried from (x, y) towards (tx, ty): the diagonal, the row, the column. */
  function Direction(x: int, y: int, tx: int, ty: int, k: nat): (int, int)
    requires k < 3
  {
    var sx, sy := Sign(tx - x), Sign(ty - y);
    if k == 0 then (x + sx, y + sy) else if k == 1 then (x + sx, y) else (x, y + sy)
  }

  predicate Takes(biome: seq<Biome>, occ: seq<nat>, limit: nat, size: Size, pos: nat, target: nat, k: nat)
    requires k < 3
  {
    var x, y := X(size, pos), Y(size, pos);
    var d := Direction(x, y, X(size, target), Y(size, target), k);
    var n := At(size, d.0, d.1);
    d != (x, y) && n.Some? && Enterable(biome, occ, limit, n.value)
  }

  /** The first direction that can be taken; none when all three are blocked. */
  function NextStep(biome: seq<Biome>, occ: seq<nat>, limit: nat, size: Size, pos: nat, target: nat): Option<nat> {
    var x, y, tx, ty := X(size, pos), Y(size, pos), X(size, target), Y(size, target);
    var a, b, c := Direction(x, y, tx, ty, 0), Direction(x, y, tx, ty, 1), Direction(x, y, tx, ty, 2);
    if Takes(biome, occ, limit, size, pos, target, 0) then At(size, a.0, a.1)
    else if Takes(biome, occ, limit, size, pos, target, 1) then At(size, b.0, b.1)
    else if Takes(biome, occ, limit, size, pos, target, 2) then At(size, c.0, c.1)
    else None
  }

  /** A step leads to a neighbouring cell that can be entered, nearer to the target by rows and columns
      and no farther in a straight line. */
  lemma StepGoesNearer(biome: seq<Biome>, occ: seq<nat>, limit: nat, size: Size, pos: nat, target: nat)
    requires pos < Cells(size) && target < Cells(size) && NextStep(biome, occ, limit, size, pos, target).Some?
    ensures var n := NextStep(biome, occ, limit, size, pos, target).value;
      && n < Cells(size) && Enterable(biome, occ, limit, n)
      && Chebyshev(size, pos, n) == 1
      && Manhattan(size, n, target) < Manhattan(size, pos, target)
      && Chebyshev(size, n, target) <= Chebyshev(size, pos, target)
  {
  }

  /** A neighbouring cell nearer to the target by rows and columns. */
  predicate Onward(size: Size, pos: nat, target: nat, c: nat) {
    c < Cells(size) && Chebyshev(size, pos, c) == 1 && Manhattan(size, c, target) < Manhattan(size, pos, target)
  }

  /** Whoever stays where it is, though not at its target, has no way on: no neighbouring cell nearer by rows and columns can
      be entered. */
  lemma StuckExactly(biome: seq<Biome>, occ: seq<nat>, limit: nat, size: Size, pos: nat, target: nat)
    requires pos < Cells(size) && target < Cells(size)
    ensures NextStep(biome, occ, limit, size, pos, target) == None <==>
      forall c: nat :: Onward(size, pos, target, c) ==> !Enterable(biome, occ, limit, c)
  {
    if NextStep(biome, occ, limit, size, pos, target).Some? {
      StepGoesNearer(biome, occ, limit, size, pos, target);
      assert Onward(size, pos, target, NextStep(biome, occ, limit, size, pos, target).value);
    }
    forall c: nat | Onward(size, pos, target, c) && Enterable(biome, occ, limit, c)
      ensures NextStep(biome, occ, limit, size, pos, target).Some?
    {
      CellInside(size, c);
      OneOfThree(size, pos, target, c);
    }
  }

  predicate LeadsTo(size: Size, pos: nat, target: nat, k: nat, c: nat)
    requires k < 3
  {
    Direction(X(size, pos), Y(size, pos), X(size, target), Y(size, target), k) == (X(size, c), Y(size, c))
  }

  /** The neighbours nearer by rows and columns lie in the three directions tried. */
  lemma OneOfThree(size: Size, pos: nat, target: nat, c: nat)
    requires pos < Cells(size) && target < Cells(size) && Onward(size, pos, target, c)
    ensures exists k :: 0 <= k < 3 && LeadsTo(size, pos, target, k, c)
  {
    var k := if Y(size, c) == Y(size, pos) then 1 else if X(size, c) == X(size, pos) then 2 else 0;
    assert LeadsTo(size, pos, target, k, c);
  }

  /** The diagonal is taken whenever it can be, and along a row is tried before along a column. */
  lemma DiagonalFirst(biome: seq<Biome>, occ: seq<nat>, limit: nat, size: Size, pos: nat, target: nat, c: nat)
    requires pos < Cells(size) && target < Cells(size) && Onward(size, pos, target, c) && Enterable(biome, occ, limit, c)
    ensures NextStep(biome, occ, limit, size, pos, target).Some?
    ensures var n := NextStep(biome, occ, limit, size, pos, target).value;
      var gain := Manhattan(size, pos, target) - Manhattan(size, n, target);
      && (Manhattan(size, c, target) + 2 == Manhattan(size, pos, target) ==> n == c)
      && (Y(size, c) == Y(size, pos) ==> n == c || gain == 2)
  {
    CellInside(size, c);
    OneOfThree(size, pos, target, c);
  }

  /** Nothing has changed in cells nearer to the target than this one. */
  ghost predicate SameAhead(size: Size, target: nat, pos: nat, occ: seq<nat>, occ': seq<nat>) {
    |occ| == |occ'| && forall c: nat :: c < |occ| && Manhattan(size, c, target) < Manhattan(size, pos, target) ==> occ[c] == occ'[c]
  }

  lemma StillSameAhead(size: Size, target: nat, pos: nat, n: nat, occ: seq<nat>, occ': seq<nat>, occ'': seq<nat>)
    requires SameAhead(size, target, pos, occ, occ') && Manhattan(size, n, target) < Manhattan(size, pos, target)
    requires |occ| == |occ''| && forall c :: 0 <= c < |occ| && c != pos && c != n ==> occ''[c] == occ[c]
    ensures SameAhead(size, target, n, occ'', occ')
  {
    hide Manhattan;
  }

  /** Steps depend only on the room in cells that are nearer. */
  lemma NextStepSame(biome: seq<Biome>, occ: seq<nat>, occ': seq<nat>, limit: nat, size: Size, pos: nat, target: nat)
    requires pos < Cells(size) && target < Cells(size) && SameAhead(size, target, pos, occ, occ')
    ensures NextStep(biome, occ, limit, size, pos, target) == NextStep(biome, occ', limit, size, pos, target)
  {
    forall k | 0 <= k < 3
      ensures Takes(biome, occ, limit, size, pos, target, k) <==> Takes(biome, occ', limit, size, pos, target, k)
    {
    }
  }

  /** Every cell of a walk but the first is the next step from the one before, and the target comes last, if at all. */
  ghost predicate StepByStep(biome: seq<Biome>, occ: seq<nat>, limit: nat, size: Size, trail: seq<nat>, target: nat) {
    forall k :: 0 <= k < |trail| - 1 ==>
      trail[k] != target && NextStep(biome, occ, limit, size, trail[k], target) == Some(trail[k + 1])
  }

  /** A walk goes step by step as far as it can: it ends at the target, where no step leads on, or when all steps are taken. */
  ghost predicate Follows(biome: seq<Biome>, occ: seq<nat>, limit: nat, size: Size, trail: seq<nat>, target: nat, steps: nat) {
    && 0 < |trail| <= steps + 1
    && StepByStep(biome, occ, limit, size, trail, target)
    && (|trail| > steps || trail[|trail| - 1] == target
        || NextStep(biome, occ, limit, size, trail[|trail| - 1], target) == None)
  }

  /** A walk: neighbouring passable cells, each entered from the one before. */
  ghost predicate Trail(size: Size, biome: seq<Biome>, trail: seq<nat>) {
    && |trail| > 0
    && (forall k :: 0 <= k < |trail| ==> trail[k] < |biome|)
    && (forall k :: 0 < k < |trail| ==> Chebyshev(size, trail[k - 1], trail[k]) == 1 && Passable(biome[trail[k]]))
  }

  function StepCost(biome: Biome, cost: int, g: Genome): int {
    if biome == Shallows && HasGift(g, SWIM) then cost / 2 else cost
  }

  /** A swimmer pays half in the shallows. */
  lemma SwimmersPayHalf(biome: Biome, cost: int, g: Genome)
    ensures if biome == Shallows && HasGift(g, SWIM) then RoundsDown(StepCost(biome, cost, g), cost, 2)
      else StepCost(biome, cost, g) == cost
  {
  }

  function TrailCost(biome: seq<Biome>, moveCost: seq<int>, g: Genome, trail: seq<nat>): int
    requires |biome| == |moveCost| && forall k :: 0 <= k < |trail| ==> trail[k] < |biome|
  {
    if |trail| <= 1 then 0
    else
      var n := trail[|trail| - 1];
      TrailCost(biome, moveCost, g, trail[..|trail| - 1]) + StepCost(biome[n], moveCost[n], g)
  }

  /** A walk goes on by its next step. */
  lemma WalkedOn(biome: seq<Biome>, occ: seq<nat>, limit: nat, size: Size, trail: seq<nat>, target: nat, n: nat)
    requires Trail(size, biome, trail) && StepByStep(biome, occ, limit, size, trail, target)
    requires var pos := trail[|trail| - 1];
      pos != target && NextStep(biome, occ, limit, size, pos, target) == Some(n)
      && n < |biome| && Chebyshev(size, pos, n) == 1 && Passable(biome[n])
    ensures Trail(size, biome, trail + [n]) && StepByStep(biome, occ, limit, size, trail + [n], target)
  {
    hide NextStep, Chebyshev;
  }

  lemma CostOfOneMore(biome: seq<Biome>, moveCost: seq<int>, g: Genome, trail: seq<nat>, n: nat)
    requires |trail| > 0 && n < |biome| == |moveCost| && forall k :: 0 <= k < |trail| ==> trail[k] < |biome|
    ensures forall k :: 0 <= k < |trail + [n]| ==> (trail + [n])[k] < |biome|
    ensures TrailCost(biome, moveCost, g, trail + [n]) == TrailCost(biome, moveCost, g, trail) + StepCost(biome[n], moveCost[n], g)
  {
    assert (trail + [n])[..|trail|] == trail;
  }

  /** Moves organism i in the index towards the target for at most `steps` cells and charges it for them;
      the organism itself is moved by the caller. */
  method Walk(w: World, s: Scratch, rules: Ruleset, i: nat, from: nat, target: nat, steps: nat)
    returns (pos: nat, ghost trail: seq<nat>)
    requires Ticking(w, s, rules) && i < |w.organisms| && s.alive[i] && from == w.organisms[i].cell
    requires target < |w.cells|
    modifies s`occ, s`members, s`spent
    ensures Trail(rules.size, s.biome, trail) && trail[0] == from && trail[|trail| - 1] == pos < |w.cells|
    ensures |trail| <= steps + 1
    ensures Manhattan(rules.size, pos, target) + |trail| - 1 <= Manhattan(rules.size, from, target)
    ensures Chebyshev(rules.size, pos, target) <= Chebyshev(rules.size, from, target)
    ensures Follows(s.biome, old(s.occ), rules.maxPerCell, rules.size, trail, target, steps)
    ensures Crowd(s.Ix(), |w.cells|, rules.maxPerCell, w.organisms[i := w.organisms[i].(cell := pos)], s.alive)
    ensures s.spent == old(s.spent)[i := old(s.spent)[i]
      + TrailCost(s.biome, s.moveCost, w.organisms[i].genome, trail)]
    ensures SpentFine(s.spent, |w.organisms|)
  {
    hide Crowd, ClansFine, Count, Sound, TablesFine, Ascending, IsValid, NextStep, Chebyshev, Manhattan, CellFine, Follows,
      StepByStep, SameAhead, TrailCost;
    Started(s.biome, s.moveCost, s.occ, rules.maxPerCell, rules.size, w.organisms[i].genome, from, target);
    assert Stands(w.cells, w.organisms[i]);
    pos, trail := from, [from];
    ghost var os := w.organisms;
    assert os[i := os[i].(cell := pos)] == os;
    var taken := 0;
    while taken < steps && pos != target
      invariant taken == |trail| - 1 <= steps && pos < |w.cells|
      invariant Trail(rules.size, s.biome, trail) && trail[0] == from && trail[|trail| - 1] == pos
      invariant Manhattan(rules.size, pos, target) + |trail| - 1 <= Manhattan(rules.size, from, target)
      invariant Chebyshev(rules.size, pos, target) <= Chebyshev(rules.size, from, target)
      invariant Crowd(s.Ix(), |w.cells|, rules.maxPerCell, os[i := os[i].(cell := pos)], s.alive)
      invariant StepByStep(s.biome, old(s.occ), rules.maxPerCell, rules.size, trail, target)
      invariant SameAhead(rules.size, target, pos, s.occ, old(s.occ))
      invariant SpentFine(s.spent, |os|)
      invariant s.spent == old(s.spent)[i := old(s.spent)[i] + TrailCost(s.biome, s.moveCost, os[i].genome, trail)]
    {
      var next := NextStep(s.biome, s.occ, rules.maxPerCell, rules.size, pos, target);
      NextStepSame(s.biome, s.occ, old(s.occ), rules.maxPerCell, rules.size, pos, target);
      if next == None {
        Arrived(s.biome, old(s.occ), rules.maxPerCell, rules.size, trail, target, steps);
        return;
      }
      var n := next.value;
      StepGoesNearer(s.biome, s.occ, rules.maxPerCell, rules.size, pos, target);
      ghost var occ := s.occ;
      WalkStep(w, s, rules, i, pos, n);
      StillSameAhead(rules.size, target, pos, n, occ, old(s.occ), s.occ);
      WalkedOn(s.biome, old(s.occ), rules.maxPerCell, rules.size, trail, target, n);
      CostOfOneMore(s.biome, s.moveCost, os[i].genome, trail, n);
      trail := trail + [n];
      pos := n;
      taken := taken + 1;
    }
    Arrived(s.biome, old(s.occ), rules.maxPerCell, rules.size, trail, target, steps);
  }

  lemma Started(biome: seq<Biome>, moveCost: seq<int>, occ: seq<nat>, limit: nat, size: Size, g: Genome, from: nat, target: nat)
    requires from < |biome| == |moveCost|
    ensures StepByStep(biome, occ, limit, size, [from], target) && SameAhead(size, target, from, occ, occ)
    ensures TrailCost(biome, moveCost, g, [from]) == 0
  {
  }

  lemma Arrived(biome: seq<Biome>, occ: seq<nat>, limit: nat, size: Size, trail: seq<nat>, target: nat, steps: nat)
    requires 0 < |trail| <= steps + 1
    requires StepByStep(biome, occ, limit, size, trail, target)
    requires |trail| > steps || trail[|trail| - 1] == target
      || NextStep(biome, occ, limit, size, trail[|trail| - 1], target) == None
    ensures Follows(biome, occ, limit, size, trail, target, steps)
  {
    hide NextStep;
  }

  /** One step of a walk. */
  method WalkStep(w: World, s: Scratch, rules: Ruleset, i: nat, pos: nat, n: nat)
    requires i < |w.organisms| == |s.alive| && s.alive[i] && pos < |w.cells| && n < |w.cells|
    requires rules.maxPerCell <= 4 && Enterable(s.biome, s.occ, rules.maxPerCell, n)
    requires Chebyshev(rules.size, pos, n) == 1
    requires |s.biome| == |s.moveCost| == |w.cells| && s.moveCost[n] >= 0
    requires Crowd(s.Ix(), |w.cells|, rules.maxPerCell, w.organisms[i := w.organisms[i].(cell := pos)], s.alive)
    requires SpentFine(s.spent, |w.organisms|)
    modifies s`occ, s`members, s`spent
    ensures Crowd(s.Ix(), |w.cells|, rules.maxPerCell, w.organisms[i := w.organisms[i].(cell := n)], s.alive)
    ensures s.spent == old(s.spent)[i := old(s.spent)[i] + StepCost(s.biome[n], s.moveCost[n], w.organisms[i].genome)]
    ensures SpentFine(s.spent, |w.organisms|)
    ensures |s.occ| == |old(s.occ)| && forall c :: 0 <= c < |s.occ| && c != pos && c != n ==> s.occ[c] == old(s.occ)[c]
  {
    hide Crowd, Listed, Entered, Left;
    ghost var here := w.organisms[i := w.organisms[i].(cell := pos)];
    assert pos != n;
    MoveKeeps(s.Ix(), |w.cells|, rules.maxPerCell, here, s.alive, i, n);
    assert here[i := here[i].(cell := n)] == w.organisms[i := w.organisms[i].(cell := n)];
    s.Remove(pos, i);
    s.Add(n, i);
    s.spent := s.spent[i := s.spent[i] + StepCost(s.biome[n], s.moveCost[n], w.organisms[i].genome)];
  }
}
