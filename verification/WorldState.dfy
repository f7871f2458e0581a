/** The world, core/src/state.rs: its entities, the rules it runs under and what every epoch must keep. */
module WorldState {
  import opened Genomes
  import opened Grid
  import opened Hashing
  import opened Options

  datatype Biome = DeepWater | Shallows | Forest | Steppe | Desert | Mountains | Swamp

  const BIOMES: nat := 7

  function BiomeCode(b: Biome): (k: nat)
    ensures k < BIOMES
  {
    match b
    case DeepWater => 0 case Shallows => 1 case Forest => 2 case Steppe => 3
    case Desert => 4 case Mountains => 5 case Swamp => 6
  }

  /** The land biome a habitat gene refers to; none for a generalist. */
  function FromHabitat(habitat: nat): Option<Biome> {
    match habitat
    case 0 => Some(Forest) case 1 => Some(Steppe) case 2 => Some(Desert)
    case 3 => Some(Mountains) case 4 => Some(Swamp) case _ => None
  }

  predicate IsLand(b: Biome) {
    b != DeepWater && b != Shallows
  }

  /** Land a flood can cover. */
  predicate Floods(b: Biome) {
    IsLand(b) && b != Mountains
  }

  datatype RiftPhase = NoRift | Crack | Fault | Sunk | Deep

  function Rank(p: RiftPhase): nat {
    match p case NoRift => 0 case Crack => 1 case Fault => 2 case Sunk => 3 case Deep => 4
  }

  /** Codes count both lists from zero; from 2 on biomes are land, and habitats count the land. */
  lemma CodesExactly()
    ensures forall b: Biome :: [DeepWater, Shallows, Forest, Steppe, Desert, Mountains, Swamp][BiomeCode(b)] == b
    ensures forall b: Biome :: IsLand(b) <==> BiomeCode(b) >= 2
    ensures forall b: Biome, h: nat :: FromHabitat(h) == Some(b) <==> BiomeCode(b) == h + 2
    ensures forall p: RiftPhase :: Rank(p) <= 4 && [NoRift, Crack, Fault, Sunk, Deep][Rank(p)] == p
  {
  }

  datatype Cell = Cell(biome: Biome, food: nat, detritus: nat, moisture: nat, rift: RiftPhase)

  datatype Rift = Rift(cell: nat, bridge: nat, faultEpoch: nat, shallowsEpoch: nat, deepEpoch: nat)

  function PhaseAt(r: Rift, epoch: nat): RiftPhase {
    if epoch >= r.deepEpoch then Deep
    else if epoch >= r.shallowsEpoch then Sunk
    else if epoch >= r.faultEpoch then Fault
    else Crack
  }

  datatype MuseumEntry = MuseumEntry(cladeId: nat, parentId: nat, secondParentId: nat, reference: Genome,
    foundedEpoch: nat, extinctEpoch: nat, peakLiving: nat)

  datatype EffectKind = Ash | Drought | Flood | Rain | Dry

  datatype Effect = Effect(kind: EffectKind, center: nat, radius: nat, remainingTicks: nat)

  datatype Organism = Organism(id: nat, parentId: nat, lineageId: nat, cladeId: nat, cell: nat, age: nat,
    energy: int, genome: Genome)

  datatype Clade = Clade(id: nat, parentId: nat, secondParentId: nat, reference: Genome, foundedEpoch: nat,
    living: nat, peakLiving: nat)

  const WeatherCooldown: u8 := 0
  const MigrateCooldown: u8 := 1
  const MuseumCooldown: u8 := 2
  const SporeCooldown: u8 := 3

  datatype Cooldown = Cooldown(kind: u8, key: nat, until: nat)

  datatype Founder = Founder(genome: Genome, biome: Biome)

  // ---- Rules ----

  datatype BiomeParams = BiomeParams(passable: bool, baseRegen: nat, foodMax: nat, moveCost: int, cover: int)

  datatype Climate = Climate(epochsPerYear: nat, seasonMult: seq<seq<nat>>, moistureBase: seq<nat>,
    seasonMoistureDelta: seq<int>, moistureRelax: nat, moistureMultMinPct: nat, moistureMultMaxPct: nat,
    coldWinterPct: nat)

  datatype Events = Events(maxActivePerKind: nat, wildfirePpm: nat, wildfireMaxMoisture: nat,
    wildfireRadiusMin: nat, wildfireRadiusMax: nat, wildfireEnergyLossPct: int, ashGrowthPct: nat, ashTicks: nat,
    droughtPpm: nat, droughtRadius: nat, droughtGrowthPct: nat, droughtMoistureDrop: nat, droughtTicks: nat,
    floodPpm: nat, floodRadius: nat, floodTicks: nat, plagueMinSharePermille: nat, plagueMaxPpm: nat,
    plagueRadius: nat, plagueMinMembers: nat, plagueMortalityPpm: nat)

  datatype RiftRules = RiftRules(faultDay: nat, shallowsFromDay: nat, deepFromDay: nat, bridgesFromDay: nat,
    bridgesToDay: nat, faultGrowthPct: nat, faultMovePct: int, bridgeRadius: nat, rescueRadius: nat)

  datatype MoveWeights = MoveWeights(foodPct: int, huntPerPoint: int, dangerPerPoint: int, habitatBonus: int,
    crowdPerNeighbor: int, dispersalPerStep: int)

  datatype Revival = Revival(below: nat, perGenome: nat, cooldownEpochs: nat, seasonEndCount: nat, seasonEndDays: nat)

  datatype MiracleRules = MiracleRules(weatherRadius: nat, weatherTicks: nat, rainGrowthPct: nat, dryGrowthPct: nat,
    weatherMoisture: nat, cooldownEpochs: nat, migrateRadius: nat, migrateMin: nat, migrateMoved: nat,
    reviveExtinctEpochs: nat, reviveRadius: nat, reviveMaxNearby: nat, reviveCount: nat)

  datatype Ruleset = Ruleset(size: Size, ticksPerEpoch: u32, epochsPerDay: nat, maxOrganisms: nat, maxPerCell: nat,
    traitBudget: nat, genesisEnergy: int, biomes: seq<BiomeParams>, climate: Climate, events: Events,
    rifts: RiftRules, energyMax: int, baseMetabolism: int, traitUpkeep: seq<int>, habitatModifierPct: int,
    shallowDrain: int, bitePerPoint: nat, plantEfficiency: int, attackWeight: int, defenseWeight: int,
    rollSpan: nat, attackCost: int, predationEfficiencyPct: int, bodyValue: int, bodyDetritus: nat,
    remainsDetritus: nat, decompositionPct: nat, reproBase: int, reproPerFertility: int, childBase: int,
    childPerFertility: int, birthCost: int, mutation: MutationRules, kinDistance: nat, cladeSplitDistance: nat,
    cladeNameThreshold: nat, museumCapacity: nat, huntHungerPct: int, maxAge: nat, senescenceStart: nat,
    weights: MoveWeights, revival: Revival, miracles: MiracleRules, founders: seq<Founder>, organismsPerLineage: nat)

  /** The energy needed to breed, and the newborn's. */
  function BreedingThreshold(rules: Ruleset, fertility: nat): int {
    rules.reproBase - fertility * rules.reproPerFertility
  }

  function ChildEnergy(rules: Ruleset, fertility: nat): int {
    rules.childBase - fertility * rules.childPerFertility
  }

  predicate Breeds(rules: Ruleset, fertility: nat) {
    var threshold, child := BreedingThreshold(rules, fertility), ChildEnergy(rules, fertility);
    child > 0 && threshold > child + rules.birthCost && threshold <= rules.energyMax
  }

  /** What Ruleset::validate demands, core/src/ruleset.rs:765-864, without the rules of later versions. */
  predicate Validated(rules: Ruleset) {
    && 1 <= Cells(rules.size) <= 0x1_0000
    && 1 <= rules.maxPerCell <= 4
    && rules.ticksPerEpoch > 0 && rules.epochsPerDay > 0
    && rules.climate.epochsPerYear > 0 && rules.climate.epochsPerYear % 4 == 0
    && rules.maxAge > rules.senescenceStart
    && 1 <= rules.traitBudget <= TRAIT_COUNT * TRAIT_MAX
    && rules.founders != []
    && (forall k :: 0 <= k < |rules.founders| ==>
          IsValid(rules.founders[k].genome, rules.traitBudget) && IsLand(rules.founders[k].biome))
    && |rules.biomes| == BIOMES && (forall k :: 0 <= k < BIOMES ==> rules.biomes[k].cover >= 0)
    && 0 < rules.genesisEnergy <= rules.energyMax
    && rules.decompositionPct <= 100 && 0 <= rules.habitatModifierPct <= 100 && 0 <= rules.huntHungerPct <= 100
    && 0 <= rules.events.wildfireEnergyLossPct <= 100
    && |rules.climate.seasonMult| == BIOMES && (forall k :: 0 <= k < BIOMES ==> |rules.climate.seasonMult[k]| == 4)
    && |rules.climate.moistureBase| == BIOMES && |rules.climate.seasonMoistureDelta| == 4
    && |rules.traitUpkeep| == TRAIT_COUNT
    && rules.climate.moistureMultMinPct <= rules.climate.moistureMultMaxPct
    && rules.events.wildfireRadiusMin <= rules.events.wildfireRadiusMax
    && rules.events.plagueMinSharePermille < 1000
    && 0 <= rules.rifts.faultMovePct <= 1000
    && rules.rifts.faultDay <= rules.rifts.shallowsFromDay <= rules.rifts.deepFromDay
       <= rules.rifts.bridgesFromDay <= rules.rifts.bridgesToDay
    && rules.revival.seasonEndCount > 0
    && (forall f: nat :: f <= TRAIT_MAX ==> Breeds(rules, f))
  }

  /** What the world's invariant needs of the rules beyond validation: the only impassable biome is deep
      water, nothing has a negative cost, effects last at least a tick, and mutation plays six traits. */
  predicate Sound(rules: Ruleset) {
    && Validated(rules)
    && (forall b: Biome :: rules.biomes[BiomeCode(b)].passable <==> b != DeepWater)
    && (forall k :: 0 <= k < BIOMES ==> rules.biomes[k].moveCost >= 0)
    && rules.baseMetabolism >= 0 && (forall k :: 0 <= k < TRAIT_COUNT ==> rules.traitUpkeep[k] >= 0)
    && rules.shallowDrain >= 0 && rules.attackCost >= 0 && rules.birthCost >= 0
    && rules.miracles.weatherTicks >= 1
    && !rules.mutation.eight
  }

  // ---- The world ----

  /** Where an organism was first seen, and whose child it is. */
  datatype Birth = Birth(cell: nat, parentId: nat, lineageId: nat)

  function BirthOf(o: Organism): Birth {
    Birth(o.cell, o.parentId, o.lineageId)
  }

  class World {
    const size: Size
    var epoch: nat
    var cells: seq<Cell>
    /** Living organisms, ordered by id. */
    var organisms: seq<Organism>
    var clades: map<nat, Clade>
    var effects: seq<Effect>
    var rifts: seq<Rift>
    var museum: seq<MuseumEntry>
    var sporeBank: seq<Founder>
    var revivals: seq<nat>
    var cooldowns: seq<Cooldown>
    var ended: bool
    var nextOrganismId: nat
    var nextCladeId: nat
    /** Everyone who was ever put on the list of organisms, as it was then. The program does not keep it. */
    ghost var births: map<nat, Birth>

    constructor (size: Size)
      ensures this.size == size
      ensures cells == [] && organisms == [] && clades == map[] && effects == [] && rifts == [] && museum == []
      ensures sporeBank == [] && revivals == [] && cooldowns == [] && !ended && epoch == 0
      ensures nextOrganismId == 1 && nextCladeId == 1 && births == map[]
    {
      this.size := size;
      epoch, cells, organisms, clades, effects, rifts, museum := 0, [], [], map[], [], [], [];
      sporeBank, revivals, cooldowns, ended, nextOrganismId, nextCladeId := [], [], [], false, 1, 1;
      births := map[];
    }
  }

  // ---- Counting ----

  datatype Key = InCell(cell: nat) | OfClade(id: nat) | Anyone

  predicate Matches(o: Organism, key: Key) {
    match key
    case InCell(c) => o.cell == c
    case OfClade(id) => o.cladeId == id
    case Anyone => true
  }

  function Tally(os: seq<Organism>, key: Key): nat {
    if os == [] then 0
    else Tally(os[..|os| - 1], key) + if Matches(os[|os| - 1], key) then 1 else 0
  }

  // ---- What every epoch must keep ----

  predicate CellFine(rules: Ruleset, c: Cell)
    requires |rules.biomes| == BIOMES
  {
    c.food <= rules.biomes[BiomeCode(c.biome)].foodMax && c.moisture <= 100
  }

  predicate Stands(cells: seq<Cell>, o: Organism) {
    o.cell < |cells| && cells[o.cell].biome != DeepWater
  }

  predicate Ascending(os: seq<Organism>, next: nat) {
    && (forall i :: 0 <= i < |os| ==> 0 < os[i].id < next)
    && (forall i, j :: 0 <= i < j < |os| ==> os[i].id < os[j].id)
  }

  predicate BodyFine(rules: Ruleset, cells: seq<Cell>, o: Organism) {
    IsValid(o.genome, rules.traitBudget) && 0 < o.energy <= rules.energyMax && Stands(cells, o)
  }

  predicate CladeFine(id: nat, c: Clade, nextCladeId: nat, os: seq<Organism>) {
    c.id == id < nextCladeId && 0 < c.living == Tally(os, OfClade(id)) && c.living <= c.peakLiving
  }

  predicate OnRift(rifts: seq<Rift>, c: nat) {
    exists k :: 0 <= k < |rifts| && rifts[k].cell == c
  }

  lemma RiftNext(rifts: seq<Rift>, r: Rift)
    ensures forall c: nat :: OnRift(rifts + [r], c) <==> (c == r.cell || OnRift(rifts, c))
  {
    forall c: nat
      ensures OnRift(rifts + [r], c) <==> (c == r.cell || OnRift(rifts, c))
    {
      var all := rifts + [r];
      if OnRift(rifts, c) {
        var k :| 0 <= k < |rifts| && rifts[k].cell == c;
        assert all[k].cell == c;
      }
      if c == r.cell {
        assert all[|rifts|].cell == c;
      }
    }
  }

  predicate RiftsFine(rifts: seq<Rift>, cells: seq<Cell>) {
    && (forall k :: 0 <= k < |rifts| ==> rifts[k].cell < |cells|)
    && (forall k :: 0 <= k < |rifts| ==> rifts[k].faultEpoch <= rifts[k].shallowsEpoch <= rifts[k].deepEpoch)
    && (forall j, k :: 0 <= j < k < |rifts| ==> rifts[j].cell < rifts[k].cell)
    && (forall c :: 0 <= c < |cells| ==> (OnRift(rifts, c) <==> cells[c].rift != NoRift))
  }

  predicate Increasing(s: seq<nat>) {
    forall j, k :: 0 <= j < k < |s| ==> s[j] < s[k]
  }

  /** World::check_invariants, core/src/state.rs:414-504. */
  ghost predicate Invariants(w: World, rules: Ruleset)
    requires Sound(rules)
    reads w
  {
    && w.size == rules.size && |w.cells| == Cells(rules.size)
    && (forall c :: 0 <= c < |w.cells| ==> CellFine(rules, w.cells[c]))
    && |w.organisms| <= rules.maxOrganisms
    && Ascending(w.organisms, w.nextOrganismId)
    && (forall i :: 0 <= i < |w.organisms| ==> BodyFine(rules, w.cells, w.organisms[i]))
    && (forall c :: 0 <= c < |w.cells| ==> Tally(w.organisms, InCell(c)) <= rules.maxPerCell)
    && (forall id :: id in w.clades ==> CladeFine(id, w.clades[id], w.nextCladeId, w.organisms))
    && (forall i :: 0 <= i < |w.organisms| ==> w.organisms[i].cladeId in w.clades)
    && RiftsFine(w.rifts, w.cells)
    && |w.museum| <= rules.museumCapacity
    && Increasing(w.revivals)
  }
}
