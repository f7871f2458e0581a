/** States that check_invariants of core/src/state.rs accepts and a step of an epoch breaks, one for each
    condition of Viable. */
module Unviable {
  import opened Applying
  import opened Cohesion
  import opened Environment
  import opened Genomes
  import opened Grid
  import opened Hashing
  import opened Herd
  import opened Miracles
  import opened Options
  import opened Randomness
  import opened Revivals
  import opened Rifting
  import opened Steadiness
  import opened Ticks
  import opened TickState
  import opened WorldState

  // ---- Rules under which all of them can be ----

  const PLAIN_BIOMES: seq<BiomeParams> := [BiomeParams(false, 0, 0, 0, 0), BiomeParams(true, 0, 0, 0, 0),
    BiomeParams(true, 0, 0, 0, 0), BiomeParams(true, 0, 0, 0, 0), BiomeParams(true, 0, 0, 0, 0),
    BiomeParams(true, 0, 0, 0, 0), BiomeParams(true, 0, 0, 0, 0)]

  const ONE_TRAIT: Genome := Genome([1, 0, 0, 0, 0, 0, 0, 0], 0, 0, 0, 0, 0)
  const NO_TRAIT: Genome := Genome([0, 0, 0, 0, 0, 0, 0, 0], 0, 0, 0, 0, 0)

  const STILL: seq<nat> := [0, 0, 0, 0]

  /** Two cells, one trait, and as little as possible of everything else. */
  function Plain(): Ruleset {
    Ruleset(size := Size(2, 1), ticksPerEpoch := 1, epochsPerDay := 1, maxOrganisms := 2, maxPerCell := 1, traitBudget := 1,
      genesisEnergy := 1, biomes := PLAIN_BIOMES,
      climate := Climate(4, [STILL, STILL, STILL, STILL, STILL, STILL, STILL], [0, 0, 0, 0, 0, 0, 0], [0, 0, 0, 0], 0, 0, 0, 0),
      events := Events(0, 0, 0, 0, 0, 0, 0, 0, 0, 0, 0, 0, 0, 0, 0, 0, 0, 0, 0, 0, 0),
      rifts := RiftRules(0, 0, 0, 0, 0, 0, 0, 0, 0), energyMax := 100, baseMetabolism := 0,
      traitUpkeep := [0, 0, 0, 0, 0, 0], habitatModifierPct := 0, shallowDrain := 0, bitePerPoint := 0, plantEfficiency := 0,
      attackWeight := 0, defenseWeight := 0, rollSpan := 0, attackCost := 0, predationEfficiencyPct := 0, bodyValue := 0,
      bodyDetritus := 0, remainsDetritus := 0, decompositionPct := 0, reproBase := 100, reproPerFertility := 0,
      childBase := 10, childPerFertility := 0, birthCost := 0, mutation := MutationRules(0, 0, 0, false, None), kinDistance := 0,
      cladeSplitDistance := 0, cladeNameThreshold := 0, museumCapacity := 1, huntHungerPct := 0, maxAge := 1,
      senescenceStart := 0, weights := MoveWeights(0, 0, 0, 0, 0, 0), revival := Revival(1, 1, 0, 1, 0),
      miracles := MiracleRules(0, 1, 0, 0, 0, 0, 0, 0, 0, 0, 0, 0, 1), founders := [Founder(ONE_TRAIT, Forest)],
      organismsPerLineage := 1)
  }

  lemma {:induction false} ZeroesSum(t: seq<nat>)
    requires forall k :: 0 <= k < |t| ==> t[k] == 0
    ensures Sum(t) == 0
  {
    if t != [] {
      ZeroesSum(t[1..]);
    }
  }

  lemma TraitsSum()
    ensures IsValid(ONE_TRAIT, 1) && !IsValid(NO_TRAIT, 1)
  {
    ZeroesSum(NO_TRAIT.lanes);
    ZeroesSum(ONE_TRAIT.lanes[1..]);
  }

  lemma PlainBreeds()
    ensures forall f: nat :: f <= TRAIT_MAX ==> Breeds(Plain(), f)
  {
  }

  lemma PlainClimate()
    ensures |Plain().climate.seasonMult| == BIOMES
    ensures forall k :: 0 <= k < BIOMES ==> |Plain().climate.seasonMult[k]| == 4
    ensures |Plain().climate.moistureBase| == BIOMES && |Plain().climate.seasonMoistureDelta| == 4
  {
  }

  lemma PlainIsValidated()
    ensures Validated(Plain())
  {
    hide Sum, Breeds, IsValid;
    TraitsSum();
    PlainBreeds();
    PlainClimate();
  }

  lemma PlainIsSound()
    ensures Sound(Plain()) && IsValid(ONE_TRAIT, Plain().traitBudget) && !IsValid(NO_TRAIT, Plain().traitBudget)
  {
    hide IsValid, Validated;
    TraitsSum();
    PlainIsValidated();
  }

  /** They let everything below happen. */
  lemma PlainAllows(rules: Ruleset)
    requires rules == Plain()
    ensures Sows(rules) && rules.revival.cooldownEpochs == 0 && rules.museumCapacity > 0
    ensures rules.miracles.reviveCount > 0 && rules.miracles.reviveExtinctEpochs == 0 && rules.maxOrganisms > 0
    ensures rules.size == Size(2, 1) && rules.rifts.rescueRadius == 0 && rules.cladeNameThreshold == 0
  {
  }

  // ---- Worlds without anyone ----

  const BARE: Cell := Cell(Forest, 0, 0, 0, NoRift)

  /** Forest everywhere, and nobody in it. */
  ghost predicate Empty(w: World, rules: Ruleset)
    reads w
  {
    && Sound(rules) && w.size == rules.size && w.cells == seq(Cells(rules.size), _ => BARE) && w.organisms == []
    && w.clades == map[] && w.rifts == [] && w.cooldowns == [] && !w.ended
  }

  /** Such a world is accepted, whatever it keeps for later. */
  lemma EmptyIsAccepted(w: World, rules: Ruleset)
    requires Empty(w, rules) && |w.museum| <= rules.museumCapacity && Increasing(w.revivals)
    ensures Steady(w, rules)
  {
    hide Sound;
    BiomesListed(rules);
  }

  /** One can be made of any of this. */
  method MakeEmpty(rules: Ruleset, epoch: nat, next: nat, spores: seq<Founder>, museum: seq<MuseumEntry>,
      revivals: seq<nat>, effects: seq<Effect>) returns (w: World)
    requires Sound(rules)
    ensures fresh(w) && Empty(w, rules) && w.epoch == epoch && w.nextOrganismId == next && w.sporeBank == spores
    ensures w.museum == museum && w.revivals == revivals && w.effects == effects
  {
    hide Sound;
    w := new World(rules.size);
    w.cells := seq(Cells(rules.size), _ => BARE);
    w.epoch, w.nextOrganismId, w.sporeBank, w.museum, w.revivals, w.effects := epoch, next, spores, museum, revivals, effects;
  }

  /** The rules let the spore bank be sown. */
  predicate Sows(rules: Ruleset) {
    rules.revival.perGenome > 0 && rules.revival.below > 0 && rules.maxOrganisms > 0
  }

  lemma EmptyHasRoom(w: World, rules: Ruleset)
    requires Empty(w, rules) && rules.maxOrganisms > 0
    ensures !Full(rules, w.cells, w.organisms) && |w.cells| > 0 && Chebyshev(rules.size, 0, 0) == 0
    ensures RoomAround(rules, w.cells, w.organisms, 0)
  {
    SoundCells(rules);
    assert IsLand(w.cells[0].biome) && Tally([], InCell(0)) == 0;
  }

  lemma SoundCells(rules: Ruleset)
    requires Sound(rules)
    ensures Cells(rules.size) >= 1 && rules.maxPerCell >= 1
  {
  }

  // ---- One condition each ----

  /** Without a cooldown: a world revived in this epoch is revived again, and the revivals are out of order. */
  method RevivedTwice(w: World, rules: Ruleset, rng: Rng)
    requires Empty(w, rules) && Sows(rules) && rules.revival.cooldownEpochs == 0 && w.museum == []
    requires w.sporeBank != [] && w.revivals == [w.epoch]
    modifies w
    ensures old(Steady(w, rules)) && !Steady(w, rules)
  {
    hide Sound, Steady, Full, Sustainable;
    EmptyIsAccepted(w, rules);
    ghost var revived, placed, groups, folks := NaturalRevival(w, rules, rng);
  }

  /** Ids from zero: the first organism that a revival places has id zero. */
  method BornAsZero(w: World, rules: Ruleset, rng: Rng)
    requires Empty(w, rules) && Sows(rules) && w.museum == [] && w.revivals == []
    requires w.sporeBank != [] && w.nextOrganismId == 0
    modifies w
    ensures old(Steady(w, rules)) && !Steady(w, rules)
  {
    hide Sound, Steady, Full, IsValid;
    EmptyIsAccepted(w, rules);
    EmptyHasRoom(w, rules);
    ghost var cells, os := w.cells, w.organisms;
    ghost var revived, placed, groups, folks := NaturalRevival(w, rules, rng);
    assert os + Together(groups, 0) == os;
    assert groups[0] != [];
  }

  /** An invalid spore: it comes back as it is. */
  method BadSpore(w: World, rules: Ruleset, rng: Rng)
    requires Empty(w, rules) && Sows(rules) && w.museum == [] && w.revivals == []
    requires w.sporeBank != [] && !IsValid(w.sporeBank[0].genome, rules.traitBudget)
    modifies w
    ensures old(Steady(w, rules)) && !Steady(w, rules)
  {
    hide Sound, Steady, Full, IsValid;
    EmptyIsAccepted(w, rules);
    EmptyHasRoom(w, rules);
    ghost var cells, os := w.cells, w.organisms;
    ghost var revived, placed, groups, folks := NaturalRevival(w, rules, rng);
    assert os + Together(groups, 0) == os;
    assert groups[0] != [];
  }

  /** An invalid reference in the museum: a patron can ask for it. */
  method BadMuseum(w: World, rules: Ruleset, e: MuseumEntry)
    requires Empty(w, rules) && rules.maxOrganisms > 0 && rules.miracles.reviveCount > 0 && rules.museumCapacity > 0
    requires w.museum == [e] && !IsValid(e.reference, rules.traitBudget) && w.revivals == []
    requires w.epoch >= e.extinctEpoch + rules.miracles.reviveExtinctEpochs
    modifies w
    ensures old(Steady(w, rules)) && !Steady(w, rules)
  {
    hide Sound, Steady, IsValid, RoomAround, Chebyshev;
    EmptyIsAccepted(w, rules);
    EmptyHasRoom(w, rules);
    ghost var placed := ApplyRevive(w, rules, Revive(true, e.cladeId, [], 0));
  }

  /** An effect without ticks left: the next tick panics. */
  method SpentEffect(w: World, rules: Ruleset, rng: Rng, tick: u32, e: Effect) returns (panics: bool)
    requires Empty(w, rules) && w.museum == [] && w.revivals == [] && w.effects == [e] && e.remainingTicks == 0
    modifies w
    ensures old(Steady(w, rules)) && panics
  {
    hide Sound, Steady;
    EmptyIsAccepted(w, rules);
    assert w.effects[0] == e;
    var s := new Scratch();
    ghost var course;
    panics, course := RunTick(w, rules, rng, tick, s);
  }

  // ---- An invalid reference of a living clade ----

  /** Two cells of forest, one about to sink with the only organism, whose own genome is valid and whose clade's
      reference is not. */
  ghost predicate Sinking(w: World, rules: Ruleset, own: Genome, reference: Genome)
    reads w
  {
    && Sound(rules) && rules.size == Size(2, 1) == w.size && rules.rifts.rescueRadius == 0 && rules.cladeNameThreshold == 0
    && rules.museumCapacity > 0 && rules.maxOrganisms > 0 && rules.miracles.reviveCount > 0
    && rules.miracles.reviveExtinctEpochs == 0
    && IsValid(own, rules.traitBudget) && !IsValid(reference, rules.traitBudget)
    && w.cells == [BARE.(rift := Crack), BARE] && w.rifts == [Rift(0, 0, 0, 0, 0)]
    && w.organisms == [Organism(1, 0, 0, 1, 0, 0, 1, own)] && w.nextOrganismId == 2 && w.nextCladeId == 2
    && w.clades == map[1 := Clade(1, 0, 0, reference, 0, 1, 1)]
    && w.museum == [] && w.revivals == [] && w.cooldowns == []
  }

  method MakeSinking() returns (w: World)
    ensures fresh(w) && Sinking(w, Plain(), ONE_TRAIT, NO_TRAIT)
  {
    hide Sound, IsValid, Plain;
    PlainIsSound();
    PlainAllows(Plain());
    w := new World(Plain().size);
    w.cells, w.rifts := [BARE.(rift := Crack), BARE], [Rift(0, 0, 0, 0, 0)];
    w.organisms, w.nextOrganismId := [Organism(1, 0, 0, 1, 0, 0, 1, ONE_TRAIT)], 2;
    w.clades, w.nextCladeId := map[1 := Clade(1, 0, 0, NO_TRAIT, 0, 1, 1)], 2;
  }

  lemma SinkingIsAccepted(w: World, rules: Ruleset, own: Genome, reference: Genome)
    requires Sinking(w, rules, own, reference)
    ensures Steady(w, rules)
  {
    hide Sound, IsValid, Tally;
    BiomesListed(rules);
    SoundCells(rules);
    SomeEnergy(rules);
    OneTallied(w.organisms[0]);
    assert forall c: nat :: OnRift(w.rifts, c) <==> c == 0 by {
      assert w.rifts[0].cell == 0;
    }
    assert CladeFine(1, w.clades[1], 2, w.organisms);
    assert BodyFine(rules, w.cells, w.organisms[0]);
  }

  lemma OneTallied(o: Organism)
    ensures forall key :: Tally([o], key) == if Matches(o, key) then 1 else 0
  {
    assert [o][..0] == [];
  }

  lemma SomeEnergy(rules: Ruleset)
    requires Sound(rules)
    ensures rules.energyMax >= 1
  {
  }

  /** The one who stood on the cell that sank has drowned. */
  lemma SunkDrowns(rules: Ruleset, epoch: nat, before: seq<Cell>, cells: seq<Cell>, os: seq<Organism>,
      moved: seq<Organism>, alive: seq<bool>)
    requires rules.size == Size(2, 1) && rules.rifts.rescueRadius == 0 && before == [BARE.(rift := Crack), BARE]
    requires ShiftedUpTo([Rift(0, 0, 0, 0, 0)], epoch, before, cells, 1)
    requires |os| == 1 && os[0].cell == 0 && CarriedUpTo(rules, cells, os, moved, alive, 1)
    ensures |moved| == |alive| == 1 && !alive[0] && Retained(moved, alive) == []
    ensures |cells| == 2 && cells[1] == BARE
  {
    hide ShiftedUpTo, Carried;
    SunkCells(epoch, before, cells);
    assert Carried(rules, cells, os, moved, alive, 0);
    NobodyAshore(rules, cells, os, moved, alive);
    assert moved[..0] == [] && alive[..0] == [];
  }

  lemma SunkCells(epoch: nat, before: seq<Cell>, cells: seq<Cell>)
    requires before == [BARE.(rift := Crack), BARE] && ShiftedUpTo([Rift(0, 0, 0, 0, 0)], epoch, before, cells, 1)
    ensures |cells| == 2 && cells[0].biome == DeepWater && cells[1] == BARE
  {
    var rifts := [Rift(0, 0, 0, 0, 0)];
    assert cells[rifts[0].cell] == Shifted(before[0], PhaseAt(rifts[0], epoch));
  }

  /** With no reach there is no land to be carried to. */
  lemma NobodyAshore(rules: Ruleset, cells: seq<Cell>, os: seq<Organism>, moved: seq<Organism>, alive: seq<bool>)
    requires rules.size == Size(2, 1) && rules.rifts.rescueRadius == 0 && |os| == |moved| == |alive| == 1
    requires |cells| == 2 && os[0].cell == 0 && cells[0].biome == DeepWater && Carried(rules, cells, os, moved, alive, 0)
    ensures !alive[0]
  {
    hide Occupied, Nearer, OffsetTo, Chebyshev;
    if alive[0] {
      var occ :| |occ| == |cells| && Occupied(occ, Meanwhile(os, moved, 0), StillAlive(alive, 0)[0 := false])
        && NearestFree(rules, cells, occ, 0, Some(moved[0].cell));
      SamePlace(rules.size, 0, moved[0].cell);
    }
  }

  /** Its clade is in the museum, with its reference. */
  lemma SunkArchived(rules: Ruleset, clades: map<nat, Clade>, epoch: nat, left: map<nat, Clade>, moved: seq<Organism>,
      alive: seq<bool>, clades': map<nat, Clade>, museum': seq<MuseumEntry>)
    requires Culled(rules, clades, [], epoch, 2, left, moved, alive, clades', museum') && clades.Keys == {1}
    requires rules.cladeNameThreshold == 0 && rules.museumCapacity > 0 && |alive| == 1 && !alive[0]
    ensures |museum'| == 1 && museum'[0].cladeId == 1 && museum'[0].reference == clades[1].reference
    ensures museum'[0].extinctEpoch == epoch
  {
    assert 1 in left && ClanFine(1, left[1], 2);
    assert Count(moved, alive, OfClade(1)) == 0 by {
      CountNone(moved, alive, OfClade(1));
    }
    assert 0 !in left;
    var none: seq<MuseumEntry> := [];
    assert ArchivedUpTo(rules, none, left, epoch, 1) == none;
    assert ArchivedUpTo(rules, none, left, epoch, 2) == Archived(rules, none, left[1], epoch);
  }

  /** An invalid reference of a living clade: it enters the museum when the clade dies out, and a patron can ask
      for it. Two steps, the first of which keeps every invariant. */
  method BadReference(w: World, rules: Ruleset, own: Genome, reference: Genome)
    requires Sinking(w, rules, own, reference)
    modifies w
    ensures old(Steady(w, rules)) && !Steady(w, rules)
  {
    hide Sound, IsValid, Steady, ShiftedUpTo, CarriedUpTo, Culled, Retained, Chebyshev, CaughtUp, Lowered, Cohesive, StockValid;
    SinkingIsAccepted(w, rules, own, reference);
    ghost var cells, os, clades := w.cells, w.organisms, w.clades;
    ghost var moved, alive, left := RiftChanges(w, rules);
    SunkDrowns(rules, w.epoch, cells, w.cells, os, moved, alive);
    SunkArchived(rules, clades, w.epoch, left, moved, alive, w.clades, w.museum);
    RoomAtOne(rules, w.cells, w.organisms);
    ghost var placed := ApplyRevive(w, rules, Revive(true, 1, [], 1));
  }

  lemma RoomAtOne(rules: Ruleset, cells: seq<Cell>, os: seq<Organism>)
    requires Sound(rules) && |cells| == 2 && cells[1] == BARE && os == []
    ensures RoomAround(rules, cells, os, 1)
  {
    hide Sound;
    SoundCells(rules);
    assert Chebyshev(rules.size, 1, 1) == 0;
    assert Tally(os, InCell(1)) == 0;
  }
}
