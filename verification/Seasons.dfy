/** Whole seasons, from the beginning of a world through the breaking of its continent (core/src/map.rs:31-178,
    core/src/sim.rs:84-150). */
module Seasons {
  import opened Acts
  import opened Cohesion
  import opened Epochs
  import opened Genesis
  import opened Grid
  import opened Kinship
  import opened Randomness
  import opened RiftPlan
  import opened Rifting
  import opened Steadiness
  import opened Ticks
  import opened WorldState

  /** On isolated plates nobody has crossed: whoever was born was born on its parent's plate, and whoever lives
      is on the plate where it was first seen and on that of the one it descends from. */
  ghost predicate KeptApart(plates: seq<nat>, first: seq<Organism>, from: nat, reg: map<nat, Birth>, os: seq<Organism>,
      next: nat)
  {
    && (forall id: nat :: from <= id < next && id in reg && reg[id].parentId != 0 ==>
          reg[id].parentId in reg && SamePlate(plates, reg[reg[id].parentId].cell, reg[id].cell))
    && (forall i :: 0 <= i < |os| ==> os[i].id in reg && SamePlate(plates, reg[os[i].id].cell, os[i].cell))
    && (forall i :: 0 <= i < |os| ==> OnPlateOfRoot(plates, first, from, reg, os[i]))
  }

  /** The one it descends from was alive at the beginning or has been founded since, on the plate where it is. */
  ghost predicate OnPlateOfRoot(plates: seq<nat>, first: seq<Organism>, from: nat, reg: map<nat, Birth>, o: Organism) {
    var r := Root(reg, from, o.id);
    r in reg && SamePlate(plates, reg[r].cell, o.cell) && if r < from then HasId(first, r) else reg[r].parentId == 0
  }

  /** Recorded births on isolated plates cross no boundary. */
  lemma RecordedKeptApart(size: Size, ground: seq<Biome>, plates: seq<nat>, first: seq<Organism>, from: nat,
      reg: map<nat, Birth>, os: seq<Organism>, next: nat)
    requires Isolated(size, ground, plates) && Recorded(size, ground, first, from, reg, os, next)
    ensures KeptApart(plates, first, from, reg, os, next)
  {
    hide Isolated, Recorded, Root;
    forall id: nat | from <= id < next && id in reg && reg[id].parentId != 0
      ensures reg[id].parentId in reg && SamePlate(plates, reg[reg[id].parentId].cell, reg[id].cell)
    {
      BirthOnPlate(size, ground, plates, first, from, reg, os, next, id);
    }
    forall i | 0 <= i < |os|
      ensures os[i].id in reg && SamePlate(plates, reg[os[i].id].cell, os[i].cell)
      ensures OnPlateOfRoot(plates, first, from, reg, os[i])
    {
      LifeOnPlate(size, ground, plates, first, from, reg, os, next, i);
    }
  }

  /** A season from its beginning, whatever its randomness and its miracles: every epoch is accepted, and clades
      hold together. Once the last bridge day has passed the plates are isolated; from then on, without
      relocations, there is a register of everyone alive then and everyone born since, and nobody has crossed. */
  method Season(rules: Ruleset, rng: Rng, biomes: seq<Biome>, plates: seq<nat>, plateCount: nat, sites: seq<nat>,
      breaking: seq<Input>, apart: seq<Input>)
    returns (w: World, ghost first: seq<Organism>, ghost from: nat)
    requires Sound(rules) && rules.senescenceStart > 0 && plateCount > 0
    requires |biomes| == |plates| == Cells(rules.size)
    requires Most(rules, |rules.founders|) <= rules.maxOrganisms
    ensures Ready(w, rules) && w.epoch == |breaking| + |apart| && Cohesive(rules, w.organisms, w.clades)
    ensures |breaking| > Day(rules, rules.rifts.bridgesToDay) ==> Isolated(rules.size, Ground(w.cells), plates)
    ensures |breaking| > Day(rules, rules.rifts.bridgesToDay) && NeverMigrates(apart, |apart|) ==>
      (Recorded(rules.size, Ground(w.cells), first, from, Since(first, from, w.births, w.nextOrganismId), w.organisms,
         w.nextOrganismId)
       && KeptApart(plates, first, from, Since(first, from, w.births, w.nextOrganismId), w.organisms, w.nextOrganismId))
  {
    hide Steady, Viable, Cohesive, DeepIsWater, Lowered, AllDeep, CaughtUp, Planned, Isolated, Recorded, KeptApart, Day,
      SameGround, NeverMigrates, Sound;
    w := Begin(rules, rng, biomes, plates, plateCount, sites);
    ghost var rifts := w.rifts;
    ghost var o1, outs1, c1 := Run(w, rules, breaking);
    ghost var cells := w.cells;
    first, from := w.organisms, w.nextOrganismId;
    if |breaking| > Day(rules, rules.rifts.bridgesToDay) {
      BrokenApart(rules, biomes, plates, rifts, cells, |breaking| - 1);
    }
    ghost var o2, outs2, c2 := Run(w, rules, apart);
    if |breaking| > Day(rules, rules.rifts.bridgesToDay) {
      SameGroundSame(cells, w.cells);
      if NeverMigrates(apart, |apart|) {
        RecordedKeptApart(rules.size, Ground(cells), plates, first, from, Since(first, from, w.births, w.nextOrganismId),
          w.organisms, w.nextOrganismId);
      }
    }
  }

  /** Past the last bridge day a planned map has only deep rifts and isolated plates. */
  lemma BrokenApart(rules: Ruleset, biomes: seq<Biome>, plates: seq<nat>, rifts: seq<Rift>, cells: seq<Cell>, epoch: nat)
    requires Planned(rules, biomes, plates, rifts) && epoch >= Day(rules, rules.rifts.bridgesToDay)
    requires CaughtUp(rifts, cells, epoch) && Lowered(biomes, Ground(cells)) && DeepIsWater(cells)
    ensures AllDeep(rifts, cells) && Isolated(rules.size, Ground(cells), plates)
  {
    hide OnRift, LiesOnRift, Lowered, DeepIsWater, AllDeep, Isolated, CaughtUp, Day;
    DeepAtLast(rifts, cells, epoch);
    PlannedPlatesPart(rules, biomes, plates, rifts, cells);
  }
}
