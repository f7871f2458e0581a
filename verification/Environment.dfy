/** The environment of a tick, core/src/sim.rs:912-1008: effects, moisture, decomposition and growth. */
module Environment {
  import opened Acts
  import opened Arithmetic
  import opened Choices
  import opened Climates
  import opened Deaths
  import opened Grid
  import opened TickState
  import opened WorldState

  /** Whether an effect covers a cell of this biome: a disc, a square, or the floodable land of a disc. */
  predicate Covers(size: Size, e: Effect, c: nat, biome: Biome) {
    var dx, dy := Abs(X(size, c) - X(size, e.center)), Abs(Y(size, c) - Y(size, e.center));
    match e.kind
    case Ash => dx * dx + dy * dy <= e.radius * e.radius
    case Flood => dx * dx + dy * dy <= e.radius * e.radius && Floods(biome)
    case Drought => dx <= e.radius && dy <= e.radius
    case Rain => dx <= e.radius && dy <= e.radius
    case Dry => dx <= e.radius && dy <= e.radius
  }

  /** Discs are round, by Pythagoras; a flood takes of its disc what can be flooded; the other effects are square. */
  lemma CoversExactly(size: Size, e: Effect, c: nat, biome: Biome)
    ensures var dx, dy := X(size, c) - X(size, e.center), Y(size, c) - Y(size, e.center);
      var disc := dx * dx + dy * dy <= e.radius * e.radius;
      && (e.kind == Ash ==> (Covers(size, e, c, biome) <==> disc))
      && (e.kind == Flood ==> (Covers(size, e, c, biome) <==> disc && biome != DeepWater && biome != Shallows && biome != Mountains))
      && (e.kind != Ash && e.kind != Flood ==> (Covers(size, e, c, biome) <==> Chebyshev(size, e.center, c) <= e.radius))
  {
    var dx, dy := X(size, c) - X(size, e.center), Y(size, c) - Y(size, e.center);
    assert Abs(dx) * Abs(dx) == dx * dx && Abs(dy) * Abs(dy) == dy * dy;
  }

  /** How an effect scales growth, in percent; a flood does not. */
  function EffectGrowth(rules: Ruleset, kind: EffectKind): nat {
    match kind
    case Ash => rules.events.ashGrowthPct
    case Drought => rules.events.droughtGrowthPct
    case Flood => 100
    case Rain => rules.miracles.rainGrowthPct
    case Dry => rules.miracles.dryGrowthPct
  }

  function Percent(a: nat, pct: nat): nat {
    a * pct / 100
  }

  /** What the first k effects make of a cell: its growth and the biome it acts as. */
  function EffectPct(rules: Ruleset, effects: seq<Effect>, k: nat, c: nat, biome: Biome): nat
    requires k <= |effects|
  {
    if k == 0 then 100
    else
      var before, e := EffectPct(rules, effects, k - 1, c, biome), effects[k - 1];
      if Covers(rules.size, e, c, biome) && e.kind != Flood then Percent(before, EffectGrowth(rules, e.kind)) else before
  }

  /** Effects on a cell multiply: each that covers it takes its own share of what the earlier ones left, rounded down; floods
      leave growth alone. */
  lemma EffectsMultiply(rules: Ruleset, effects: seq<Effect>, k: nat, c: nat, biome: Biome)
    requires k < |effects|
    ensures var before, after := EffectPct(rules, effects, k, c, biome), EffectPct(rules, effects, k + 1, c, biome);
      var e := effects[k];
      && EffectPct(rules, effects, 0, c, biome) == 100
      && (!Covers(rules.size, e, c, biome) || e.kind == Flood ==> after == before)
      && (Covers(rules.size, e, c, biome) && e.kind == Ash ==> RoundsDown(after, before * rules.events.ashGrowthPct, 100))
      && (Covers(rules.size, e, c, biome) && e.kind == Drought ==> RoundsDown(after, before * rules.events.droughtGrowthPct, 100))
      && (Covers(rules.size, e, c, biome) && e.kind == Rain ==> RoundsDown(after, before * rules.miracles.rainGrowthPct, 100))
      && (Covers(rules.size, e, c, biome) && e.kind == Dry ==> RoundsDown(after, before * rules.miracles.dryGrowthPct, 100))
  {
    hide Covers;
  }

  predicate Flooded(size: Size, effects: seq<Effect>, k: nat, c: nat, biome: Biome)
    requires k <= |effects|
  {
    exists j :: 0 <= j < k && effects[j].kind == Flood && Covers(size, effects[j], c, biome)
  }

  function ActingBiome(size: Size, effects: seq<Effect>, k: nat, c: nat, biome: Biome): Biome
    requires k <= |effects|
  {
    if Flooded(size, effects, k, c, biome) then Shallows else biome
  }

  /** A covered cell is within the square that is scanned. */
  lemma CoverInSquare(size: Size, e: Effect, c: nat, biome: Biome)
    requires Covers(size, e, c, biome)
    ensures Chebyshev(size, e.center, c) <= e.radius
  {
    var dx, dy := Abs(X(size, c) - X(size, e.center)), Abs(Y(size, c) - Y(size, e.center));
    if dx > e.radius {
      SquareBound(dx, dy, e.radius);
    }
    if dy > e.radius {
      SquareBound(dy, dx, e.radius);
    }
  }

  lemma SquareBound(a: nat, b: nat, r: nat)
    requires a > r
    ensures a * a + b * b > r * r
  {
    MulMonotone(r + 1, a, a);
    MulMonotone(r + 1, a, r + 1);
    MulMonotone(0, b, b);
  }

  /** The map after k effects. */
  ghost predicate Spread(rules: Ruleset, cells: seq<Cell>, effects: seq<Effect>, k: nat, pct: seq<nat>, biome: seq<Biome>) {
    && k <= |effects| && |pct| == |biome| == |cells|
    && (forall c: nat :: c < |cells| ==> pct[c] == EffectPct(rules, effects, k, c, cells[c].biome))
    && (forall c: nat :: c < |cells| ==> biome[c] == ActingBiome(rules.size, effects, k, c, cells[c].biome))
  }

  /** Applies effect k to every cell it covers, by a scan of its square. */
  method SpreadEffect(rules: Ruleset, cells: seq<Cell>, effects: seq<Effect>, k: nat, pct: seq<nat>, biome: seq<Biome>)
    returns (pct': seq<nat>, biome': seq<Biome>)
    requires k < |effects| && |cells| == Cells(rules.size) && Spread(rules, cells, effects, k, pct, biome)
    ensures Spread(rules, cells, effects, k + 1, pct', biome')
  {
    hide Covers, EffectPct, Flooded, Chebyshev, Percent;
    var e := effects[k];
    var cx: int, cy: int := X(rules.size, e.center), Y(rules.size, e.center);
    var r: int := e.radius;
    pct', biome' := pct, biome;
    ghost var seen: set<nat> := {};
    Unseen(rules.size, e, cells);
    for y := cy - r to cy + r + 1
      invariant SpreadOver(rules, cells, e, pct, biome, pct', biome', seen)
      invariant forall c: nat :: c < |cells| && Covers(rules.size, e, c, cells[c].biome) && Y(rules.size, c) < y ==> c in seen
      invariant forall c <- seen :: Y(rules.size, c) < y
    {
      for x := cx - r to cx + r + 1
        invariant SpreadOver(rules, cells, e, pct, biome, pct', biome', seen)
        invariant forall c: nat :: (c < |cells| && Covers(rules.size, e, c, cells[c].biome)
          && (Y(rules.size, c) < y || (Y(rules.size, c) == y && X(rules.size, c) < x))) ==> c in seen
        invariant forall c <- seen :: Y(rules.size, c) < y || (Y(rules.size, c) == y && X(rules.size, c) < x)
      {
        var cell := At(rules.size, x, y);
        if cell.Some? {
          var c := cell.value;
          assert c !in seen;
          if Covers(rules.size, e, c, cells[c].biome) {
            if e.kind == Flood {
              biome' := biome'[c := Shallows];
            } else {
              pct' := pct'[c := Percent(pct'[c], EffectGrowth(rules, e.kind))];
            }
          }
          seen := seen + {c};
        }
        forall c: nat | c < |cells| && Covers(rules.size, e, c, cells[c].biome)
            && Y(rules.size, c) == y && X(rules.size, c) == x
          ensures c in seen
        {
          CellInside(rules.size, c);
        }
      }
      forall c: nat | c < |cells| && Covers(rules.size, e, c, cells[c].biome) && Y(rules.size, c) == y
        ensures c in seen
      {
        InSquare(rules.size, e, c, cells[c].biome);
      }
    }
    forall c: nat | c < |cells| && Covers(rules.size, e, c, cells[c].biome)
      ensures c in seen
    {
      InSquare(rules.size, e, c, cells[c].biome);
    }
    SpreadStep(rules, cells, effects, k, pct, biome, pct', biome', seen);
  }

  lemma InSquare(size: Size, e: Effect, c: nat, biome: Biome)
    requires Covers(size, e, c, biome)
    ensures X(size, e.center) - e.radius <= X(size, c) <= X(size, e.center) + e.radius
    ensures Y(size, e.center) - e.radius <= Y(size, c) <= Y(size, e.center) + e.radius
  {
    CoverInSquare(size, e, c, biome);
  }

  lemma Unseen(size: Size, e: Effect, cells: seq<Cell>)
    ensures forall c: nat :: c < |cells| && Covers(size, e, c, cells[c].biome) ==>
      Y(size, c) >= Y(size, e.center) - e.radius && X(size, c) >= X(size, e.center) - e.radius
  {
    forall c: nat | c < |cells| && Covers(size, e, c, cells[c].biome)
      ensures Y(size, c) >= Y(size, e.center) - e.radius && X(size, c) >= X(size, e.center) - e.radius
    {
      InSquare(size, e, c, cells[c].biome);
    }
  }

  /** An effect applied to the cells seen so far. */
  ghost predicate SpreadOver(rules: Ruleset, cells: seq<Cell>, e: Effect, pct: seq<nat>, biome: seq<Biome>,
      pct': seq<nat>, biome': seq<Biome>, seen: set<nat>)
  {
    && |pct| == |biome| == |pct'| == |biome'| == |cells|
    && (forall c: nat :: c < |cells| ==>
          var hit := c in seen && Covers(rules.size, e, c, cells[c].biome);
          && pct'[c] == (if hit && e.kind != Flood then Percent(pct[c], EffectGrowth(rules, e.kind)) else pct[c])
          && biome'[c] == (if hit && e.kind == Flood then Shallows else biome[c]))
  }

  lemma SpreadStep(rules: Ruleset, cells: seq<Cell>, effects: seq<Effect>, k: nat, pct: seq<nat>, biome: seq<Biome>,
      pct': seq<nat>, biome': seq<Biome>, seen: set<nat>)
    requires k < |effects| && Spread(rules, cells, effects, k, pct, biome)
    requires SpreadOver(rules, cells, effects[k], pct, biome, pct', biome', seen)
    requires forall c: nat :: c < |cells| && Covers(rules.size, effects[k], c, cells[c].biome) ==> c in seen
    ensures Spread(rules, cells, effects, k + 1, pct', biome')
  {
    hide Covers;
    forall c: nat | c < |cells|
      ensures pct'[c] == EffectPct(rules, effects, k + 1, c, cells[c].biome)
      ensures biome'[c] == ActingBiome(rules.size, effects, k + 1, c, cells[c].biome)
    {
      assert effects[k].kind == Flood && Covers(rules.size, effects[k], c, cells[c].biome) ==>
        Flooded(rules.size, effects, k + 1, c, cells[c].biome);
      assert Flooded(rules.size, effects, k, c, cells[c].biome) ==> Flooded(rules.size, effects, k + 1, c, cells[c].biome);
    }
  }

  // ---- Growth ----

  predicate Faulted(cell: Cell, acting: Biome) {
    cell.rift == Fault && IsLand(cell.biome) && acting == cell.biome
  }

  function StepInto(rules: Ruleset, cell: Cell, acting: Biome): int
    requires |rules.biomes| == BIOMES
  {
    var cost := rules.biomes[BiomeCode(acting)].moveCost;
    if Faulted(cell, acting) then Quot(cost * rules.rifts.faultMovePct, 100) else cost
  }

  /** Moisture drifts towards its target without passing it. */
  function Drift(moisture: nat, relax: nat, target: nat): (m: nat)
    ensures moisture <= 100 && target <= 100 ==> m <= 100
    ensures moisture < target ==> moisture <= m <= target
    ensures moisture >= target ==> target <= m <= moisture
  {
    if moisture < target then (if moisture + relax < target then moisture + relax else target)
    else if moisture >= target + relax then moisture - relax else target
  }

  function Regrowth(rules: Ruleset, cell: Cell, growth: nat, moisture: nat, pct: nat, faulted: bool): nat
    requires Validated(rules)
  {
    var regen := rules.biomes[BiomeCode(cell.biome)].baseRegen * growth * MoisturePct(rules, moisture) * pct / 1_000_000;
    var slowed := if faulted then regen * rules.rifts.faultGrowthPct / 100 else regen;
    if slowed > U32_MAX then U32_MAX else slowed
  }

  /** A cell after a tick: deep water and flooded land wait; elsewhere moisture drifts, detritus rots into
      food and food grows, never above what the biome holds. */
  function Weathered(rules: Ruleset, cell: Cell, acting: Biome, growth: nat, target: nat, pct: nat): (cell': Cell)
    requires Validated(rules)
    ensures cell'.biome == cell.biome && cell'.rift == cell.rift
  {
    var p := rules.biomes[BiomeCode(cell.biome)];
    if !p.passable || acting != cell.biome then cell
    else
      var moisture := Drift(cell.moisture, rules.climate.moistureRelax, target);
      var rotted := cell.detritus * rules.decompositionPct / 100;
      var grown := SaturatingAdd(SaturatingAdd(cell.food, rotted),
        Regrowth(rules, cell, growth, moisture, pct, Faulted(cell, acting)));
      cell.(moisture := moisture, detritus := if rotted < cell.detritus then cell.detritus - rotted else 0,
            food := if grown < p.foodMax then grown else p.foodMax)
  }

  /** Moisture moves by as much as it relaxes in a tick, or all the way. */
  lemma DriftExactly(moisture: nat, relax: nat, target: nat)
    ensures var m := Drift(moisture, relax, target);
      m == target || m == moisture + relax < target || m == moisture - relax > target
  {
  }

  /** A tick of a cell that is neither deep water nor flooded: what rots of the detritus turns into food, new food grows, and
      only what the biome cannot hold is lost. Every other cell waits. */
  lemma NothingLostButExcess(rules: Ruleset, cell: Cell, acting: Biome, growth: nat, target: nat, pct: nat)
      returns (rotted: nat, regen: nat)
    requires Validated(rules) && CellFine(rules, cell) && rules.biomes[BiomeCode(cell.biome)].foodMax <= U32_MAX
    ensures var after, p := Weathered(rules, cell, acting, growth, target, pct), rules.biomes[BiomeCode(cell.biome)];
      if p.passable && acting == cell.biome then
        && RoundsDown(rotted, cell.detritus * rules.decompositionPct, 100)
        && regen == Regrowth(rules, cell, growth, after.moisture, pct, cell.rift == Fault && IsLand(cell.biome))
        && after.moisture == Drift(cell.moisture, rules.climate.moistureRelax, target)
        && after.detritus + rotted == cell.detritus
        && after.food <= p.foodMax && after.food <= cell.food + rotted + regen
        && (after.food == p.foodMax || after.food == cell.food + rotted + regen)
      else after == cell
  {
    rotted := cell.detritus * rules.decompositionPct / 100;
    MulMonotone(rules.decompositionPct, 100, cell.detritus);
    regen := Regrowth(rules, cell, growth, Drift(cell.moisture, rules.climate.moistureRelax, target), pct,
      cell.rift == Fault && IsLand(cell.biome));
    hide Regrowth, Validated, Drift;
  }

  /** Food grows in proportion to the biome, the time of year, the moisture and the effects, rounded down, slower on a
      fault. */
  lemma RegrowthExactly(rules: Ruleset, cell: Cell, growth: nat, moisture: nat, pct: nat)
    requires Validated(rules)
    requires Regrowth(rules, cell, growth, moisture, pct, false) < U32_MAX
    ensures var all := Regrowth(rules, cell, growth, moisture, pct, false);
      && RoundsDown(all, rules.biomes[BiomeCode(cell.biome)].baseRegen * growth * MoisturePct(rules, moisture) * pct, 1_000_000)
      && (all * rules.rifts.faultGrowthPct / 100 <= U32_MAX ==>
            RoundsDown(Regrowth(rules, cell, growth, moisture, pct, true), all * rules.rifts.faultGrowthPct, 100))
  {
    hide Validated, MoisturePct;
  }

  /** A fault makes steps dearer on land that is not flooded. */
  lemma FaultsSlow(rules: Ruleset, cell: Cell, acting: Biome)
    requires Sound(rules)
    ensures var cost := rules.biomes[BiomeCode(acting)].moveCost;
      if cell.rift == Fault && cell.biome != DeepWater && cell.biome != Shallows && acting == cell.biome
      then RoundsDown(StepInto(rules, cell, acting), cost * rules.rifts.faultMovePct, 100)
      else StepInto(rules, cell, acting) == cost
  {
    MulMonotone(0, rules.rifts.faultMovePct, rules.biomes[BiomeCode(acting)].moveCost);
  }

  lemma WeatheredFine(rules: Ruleset, cell: Cell, acting: Biome, growth: nat, target: nat, pct: nat)
    requires Validated(rules) && CellFine(rules, cell) && target <= 100
    ensures CellFine(rules, Weathered(rules, cell, acting, growth, target, pct))
  {
    hide Regrowth, Validated;
  }

  lemma StepIntoNonNegative(rules: Ruleset, cell: Cell, acting: Biome)
    requires Sound(rules)
    ensures StepInto(rules, cell, acting) >= 0
  {
    MulMonotone(0, rules.rifts.faultMovePct, rules.biomes[BiomeCode(acting)].moveCost);
  }

  /** The effects that still run, a tick later. */
  function RunDown(effects: seq<Effect>): (left: seq<Effect>)
    ensures (forall j :: 0 <= j < |left| ==> left[j].remainingTicks >= 1)
  {
    if effects == [] then []
    else
      var n := |effects| - 1;
      var e := effects[n];
      RunDown(effects[..n]) +
        if e.remainingTicks > 1 then [e.(remainingTicks := e.remainingTicks - 1)] else []
  }

  /** Every effect runs a tick less, in place, and is gone when it has none left. */
  lemma {:induction false} RunDownInOrder(effects: seq<Effect>, more: seq<Effect>)
    ensures RunDown(effects + more) == RunDown(effects) + RunDown(more)
  {
    if more == [] {
      assert effects + more == effects;
    } else {
      var n := |more| - 1;
      var all := effects + more;
      var end := if more[n].remainingTicks > 1 then [more[n].(remainingTicks := more[n].remainingTicks - 1)] else [];
      RunDownInOrder(effects, more[..n]);
      assert all[..|all| - 1] == effects + more[..n] && all[|all| - 1] == more[n];
      assert RunDown(all) == RunDown(effects + more[..n]) + end;
    }
  }

  lemma RunDownOne(e: Effect)
    ensures |RunDown([e])| == (if e.remainingTicks >= 2 then 1 else 0)
    ensures forall left :: left in RunDown([e]) ==> e == left.(remainingTicks := left.remainingTicks + 1)
  {
    assert [e][..0] == [];
  }

  predicate Lasting(effects: seq<Effect>) {
    forall j :: 0 <= j < |effects| ==> effects[j].remainingTicks >= 1
  }

  /** The map after step 1 of a tick: every cell has drifted, rotted and grown under the effects on it. */
  ghost predicate WeatheredAll(rules: Ruleset, globalTick: nat, cells: seq<Cell>, effects: seq<Effect>, cells': seq<Cell>,
      pct: seq<nat>, biome: seq<Biome>, moveCost: seq<int>)
    requires Validated(rules)
  {
    && |cells'| == |cells| == |moveCost| && Spread(rules, cells, effects, |effects|, pct, biome)
    && (forall c :: 0 <= c < |cells| ==> cells'[c] == Weathered(rules, cells[c], biome[c],
          GrowthPct(rules, cells[c].biome, globalTick), TargetMoisture(rules, cells[c].biome, globalTick), pct[c]))
    && (forall c :: 0 <= c < |cells| ==> moveCost[c] == StepInto(rules, cells[c], biome[c]))
  }

  /** Step 1 of a tick. */
  method Weather(w: World, s: Scratch, rules: Ruleset, globalTick: nat)
    requires Sound(rules) && Validated(rules) && w.size == rules.size && CellsFine(rules, w.cells) && Lasting(w.effects)
    modifies w`cells, w`effects, s`effectPct, s`biome, s`moveCost
    ensures CellsFine(rules, w.cells) && SameGround(old(w.cells), w.cells)
    ensures ActingFine(w.cells, s.biome, s.moveCost)
    ensures w.effects == RunDown(old(w.effects))
    ensures WeatheredAll(rules, globalTick, old(w.cells), old(w.effects), w.cells, s.effectPct, s.biome, s.moveCost)
  {
    hide Sound, Validated, CellFine, Covers, EffectPct, Flooded, Weathered, TargetMoisture, GrowthPct, RunDown, StepInto;
    var before, effects := w.cells, w.effects;
    s.effectPct := seq(|before|, _ => 100);
    s.biome := seq(|before|, c requires 0 <= c < |before| => before[c].biome);
    NothingSpread(rules, before, effects, s.effectPct, s.biome);
    for k := 0 to |effects|
      invariant w.cells == before && Spread(rules, before, effects, k, s.effectPct, s.biome)
    {
      var pct, biome := SpreadEffect(rules, before, effects, k, s.effectPct, s.biome);
      s.effectPct := pct;
      s.biome := biome;
    }
    s.moveCost := [];
    SpreadActs(rules, before, effects, s.effectPct, s.biome);
    for c := 0 to |before|
      invariant |s.moveCost| == c && |w.cells| == |before| == |s.biome| == |s.effectPct|
      invariant Spread(rules, before, effects, |effects|, s.effectPct, s.biome)
      invariant forall b :: c <= b < |before| ==> w.cells[b] == before[b]
      invariant forall b :: 0 <= b < c ==> w.cells[b] == Weathered(rules, before[b], s.biome[b],
        GrowthPct(rules, before[b].biome, globalTick), TargetMoisture(rules, before[b].biome, globalTick), s.effectPct[b])
      invariant forall b :: 0 <= b < c ==> s.moveCost[b] == StepInto(rules, before[b], s.biome[b])
      invariant forall b :: 0 <= b < c ==> s.moveCost[b] >= 0 && CellFine(rules, w.cells[b])
    {
      BiomesListed(rules);
      StepIntoNonNegative(rules, before[c], s.biome[c]);
      s.moveCost := s.moveCost + [StepInto(rules, before[c], s.biome[c])];
      var growth, target := GrowthPct(rules, before[c].biome, globalTick), TargetMoisture(rules, before[c].biome, globalTick);
      WeatheredFine(rules, before[c], s.biome[c], growth, target, s.effectPct[c]);
      w.cells := w.cells[c := Weathered(rules, before[c], s.biome[c], growth, target, s.effectPct[c])];
    }
    w.effects := RunDown(effects);
  }

  lemma BiomesListed(rules: Ruleset)
    requires Sound(rules)
    ensures |rules.biomes| == BIOMES
  {
  }

  lemma NothingSpread(rules: Ruleset, cells: seq<Cell>, effects: seq<Effect>, pct: seq<nat>, biome: seq<Biome>)
    requires |pct| == |biome| == |cells|
    requires forall c: nat :: c < |cells| ==> pct[c] == 100 && biome[c] == cells[c].biome
    ensures Spread(rules, cells, effects, 0, pct, biome)
  {
  }

  lemma SpreadActs(rules: Ruleset, cells: seq<Cell>, effects: seq<Effect>, pct: seq<nat>, biome: seq<Biome>)
    requires Spread(rules, cells, effects, |effects|, pct, biome)
    ensures |biome| == |pct| == |cells| && forall c: nat :: c < |cells| ==> ActsAs(biome[c], cells[c].biome)
  {
  }
}
