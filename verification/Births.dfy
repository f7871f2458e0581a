/** Births, core/src/sim.rs:1358-1462: whoever has the energy has one offspring, near home. */
module Births {
  import opened Acts
  import opened Cohesion
  import opened Genomes
  import opened Grid
  import opened Hashing
  import opened Herd
  import opened Kinship
  import opened Options
  import opened Randomness
  import opened TickState
  import opened Walks
  import opened WorldState

  // ---- The newborn's cell ----

  /** The order in which neighbours are tried; part of consensus. */
  const NEIGHBORS: seq<(int, int)> := [(0, -1), (1, -1), (1, 0), (1, 1), (0, 1), (-1, 1), (-1, 0), (-1, -1)]

  function Neighbor(size: Size, home: nat, k: nat): Option<nat>
    requires k < 8
  {
    At(size, X(size, home) + NEIGHBORS[k].0, Y(size, home) + NEIGHBORS[k].1)
  }

  /** The cells among the first k neighbours that can be entered. */
  function Rooms(size: Size, biome: seq<Biome>, occ: seq<nat>, limit: nat, home: nat, k: nat): seq<nat>
    requires k <= 8
  {
    if k == 0 then []
    else
      var before, n := Rooms(size, biome, occ, limit, home, k - 1), Neighbor(size, home, k - 1);
      if n.Some? && Enterable(biome, occ, limit, n.value) then before + [n.value] else before
  }

  /** A newborn's cell: home if it has room, otherwise one drawn evenly among the rooms around; none when there are none. */
  ghost predicate Sited(size: Size, biome: seq<Biome>, occ: seq<nat>, limit: nat, home: nat, rng: Rng, tick: u32, child: nat,
      site: Option<nat>)
    requires home < |occ|
  {
    var rooms := Rooms(size, biome, occ, limit, home, 8);
    if occ[home] < limit then site == Some(home)
    else if rooms == [] then site == None
    else site == Some(rooms[Below(rng, tick, Placement, child % WORDS, |rooms|)])
  }

  /** Home if it has room, otherwise a neighbour drawn among those that have. */
  method ChooseSite(size: Size, biome: seq<Biome>, occ: seq<nat>, limit: nat, home: nat, rng: Rng, tick: u32, child: nat)
    returns (site: Option<nat>)
    requires |biome| == |occ| == Cells(size) && home < Cells(size)
    ensures Sited(size, biome, occ, limit, home, rng, tick, child, site)
  {
    if occ[home] < limit {
      return Some(home);
    }
    var options := [];
    var x: int, y: int := X(size, home), Y(size, home);
    for k := 0 to 8
      invariant options == Rooms(size, biome, occ, limit, home, k)
    {
      var c := At(size, x + NEIGHBORS[k].0, y + NEIGHBORS[k].1);
      if c.Some? && Enterable(biome, occ, limit, c.value) {
        options := options + [c.value];
      }
    }
    if options == [] {
      return None;
    }
    site := Some(options[Below(rng, tick, Placement, child % WORDS, |options|)]);
  }

  /** The rooms are exactly the neighbouring cells that can be entered. */
  lemma {:induction false} RoomsAreNeighbors(size: Size, biome: seq<Biome>, occ: seq<nat>, limit: nat, home: nat,
      k: nat, c: nat)
    requires k <= 8 && home < Cells(size)
    ensures c in Rooms(size, biome, occ, limit, home, k) <==>
      Enterable(biome, occ, limit, c) && exists j :: 0 <= j < k && Neighbor(size, home, j) == Some(c)
  {
    if k > 0 {
      RoomsAreNeighbors(size, biome, occ, limit, home, k - 1, c);
    }
  }

  lemma NeighborIsOneStep(size: Size, home: nat, c: nat)
    requires home < Cells(size) && c < Cells(size)
    ensures (exists j :: 0 <= j < 8 && Neighbor(size, home, j) == Some(c)) <==> Chebyshev(size, home, c) == 1
  {
    CellInside(size, c);
    var dx, dy := X(size, c) - X(size, home), Y(size, c) - Y(size, home);
    if Chebyshev(size, home, c) == 1 {
      var j := if dy == -1 then (if dx == -1 then 7 else if dx == 0 then 0 else 1)
        else if dy == 0 then (if dx == 1 then 2 else 6)
        else if dx == 1 then 3 else if dx == 0 then 4 else 5;
      assert NEIGHBORS[j] == (dx, dy);
      assert Neighbor(size, home, j) == Some(c);
    }
  }

  // ---- The newborn ----

  function Parted(rules: Ruleset, o: Organism): Organism {
    o.(energy := o.energy - (ChildEnergy(rules, o.genome.lanes[FERTILITY]) + rules.birthCost))
  }

  /** The newborn's clade: its parent's, or its own when it is too far from that clade's reference. */
  predicate Splits(rules: Ruleset, genome: Genome, reference: Genome) {
    Distance(genome, reference) >= rules.cladeSplitDistance
  }

  function Newborn(rules: Ruleset, parent: Organism, id: nat, cladeId: nat, site: nat, genome: Genome): Organism {
    Organism(id, parent.id, parent.lineageId, cladeId, site, 0, ChildEnergy(rules, parent.genome.lanes[FERTILITY]), genome)
  }

  function FoundedBy(parent: Organism, id: nat, genome: Genome, epoch: nat): Clade {
    Clade(id, parent.cladeId, 0, genome, epoch, 0, 0)
  }

  /** What parent and child have between them is what the parent had, less the price of a birth. The child joins its parent's
      clade exactly when it is close enough to its reference, and otherwise founds one in its own likeness. */
  ghost predicate Begets(rules: Ruleset, p: Organism, p': Organism, c: Organism, clades: map<nat, Clade>,
      clades': map<nat, Clade>, next: nat, epoch: nat)
  {
    && p.cladeId in clades && c.cladeId in clades'
    && p'.energy + c.energy + rules.birthCost == p.energy && p' == p.(energy := p'.energy)
    && c.energy + p.genome.lanes[FERTILITY] * rules.childPerFertility == rules.childBase
    && c.age == 0 && c.parentId == p.id && c.lineageId == p.lineageId
    && (forall id :: id in clades && id != c.cladeId ==> id in clades' && clades'[id] == clades[id])
    && if Distance(c.genome, clades[p.cladeId].reference) < rules.cladeSplitDistance then
         var was, now := clades[p.cladeId], clades'[c.cladeId];
         && c.cladeId == p.cladeId && clades'.Keys == clades.Keys
         && now == was.(living := was.living + 1, peakLiving := now.peakLiving)
         && now.peakLiving == (if was.living < was.peakLiving then was.peakLiving else was.living + 1)
       else
         && c.cladeId == next && clades'.Keys == clades.Keys + {next}
         && clades'[next] == Clade(next, p.cladeId, 0, c.genome, epoch, 1, 1)
  }

  lemma BirthBegets(rules: Ruleset, p: Organism, id: nat, site: nat, genome: Genome, clades: map<nat, Clade>, next: nat, epoch: nat)
    requires p.cladeId in clades && next !in clades
    ensures var splits := Splits(rules, genome, clades[p.cladeId].reference);
      var cladeId := if splits then next else p.cladeId;
      Begets(rules, p, Parted(rules, p), Newborn(rules, p, id, cladeId, site, genome), clades,
        More(if splits then clades[cladeId := FoundedBy(p, cladeId, genome, epoch)] else clades, cladeId), next, epoch)
  {
    hide Distance;
  }

  lemma ParentsCanAfford(rules: Ruleset, o: Organism)
    requires Sound(rules) && IsValid(o.genome, rules.traitBudget) && o.energy <= rules.energyMax
    requires o.energy >= BreedingThreshold(rules, o.genome.lanes[FERTILITY])
    ensures 0 < Parted(rules, o).energy <= rules.energyMax
    ensures 0 < ChildEnergy(rules, o.genome.lanes[FERTILITY]) <= rules.energyMax
  {
    assert Breeds(rules, o.genome.lanes[FERTILITY]);
  }

  lemma AscendingPush(os: seq<Organism>, next: nat, o: Organism)
    requires Ascending(os, next) && next > 0 && o.id == next
    ensures Ascending(os + [o], next + 1)
  {
  }

  lemma HerdPush(rules: Ruleset, cells: seq<Cell>, os: seq<Organism>, next: nat, o: Organism)
    requires HerdFine(rules, cells, os, next) && next > 0 && o.id == next
    requires Stands(cells, o) && IsValid(o.genome, rules.traitBudget) && o.energy <= rules.energyMax
    ensures HerdFine(rules, cells, os + [o], next + 1)
  {
    hide Ascending, IsValid, Stands;
    AscendingPush(os, next, o);
  }

  /** What births change. */
  datatype Cradle = Cradle(os: seq<Organism>, alive: seq<bool>, clades: map<nat, Clade>, occ: seq<nat>, aliveCount: nat,
    nextOrganismId: nat, nextCladeId: nat)

  function CradleOf(w: World, s: Scratch): Cradle
    reads w, s
  {
    Cradle(w.organisms, s.alive, w.clades, s.occ, s.aliveCount, w.nextOrganismId, w.nextCladeId)
  }

  /** Organism i has borne a child with the next id in a cell. */
  ghost predicate Borne(rules: Ruleset, epoch: nat, a: Cradle, b: Cradle, i: nat, site: nat, genome: Genome) {
    && i < |a.os| && site < |a.occ| && |b.os| == |a.os| + 1
    && b.os == a.os[i := Parted(rules, a.os[i])]
         + [Newborn(rules, a.os[i], a.nextOrganismId, b.os[|a.os|].cladeId, site, genome)]
    && Begets(rules, a.os[i], b.os[i], b.os[|a.os|], a.clades, b.clades, a.nextCladeId, epoch)
    && b.nextCladeId == a.nextCladeId + (if b.os[|a.os|].cladeId == a.os[i].cladeId then 0 else 1)
    && b.alive == a.alive + [true] && b.occ == a.occ[site := a.occ[site] + 1]
    && b.aliveCount == a.aliveCount + 1 && b.nextOrganismId == a.nextOrganismId + 1
  }

  /** A child of organism i is born in a cell with room. */
  method Bear(w: World, s: Scratch, rules: Ruleset, i: nat, site: nat, genome: Genome)
    requires Ticking(w, s, rules) && i < |w.organisms| && s.alive[i]
    requires w.organisms[i].energy >= BreedingThreshold(rules, w.organisms[i].genome.lanes[FERTILITY])
    requires s.aliveCount < rules.maxOrganisms
    requires site < |w.cells| && site < |s.occ| && s.occ[site] < rules.maxPerCell && w.cells[site].biome != DeepWater
    requires IsValid(genome, rules.traitBudget) && w.organisms[i].cladeId in w.clades
    modifies w`organisms, w`clades, w`nextOrganismId, w`nextCladeId, w`births
    modifies s`alive, s`spent, s`occ, s`members, s`aliveCount
    ensures Ticking(w, s, rules) && w.nextOrganismId == old(w.nextOrganismId) + 1 && s.alive == old(s.alive) + [true]
    ensures Branched(rules, old(w.clades), w.organisms, w.clades, |old(w.organisms)|)
    ensures Borne(rules, w.epoch, old(CradleOf(w, s)), CradleOf(w, s), i, site, genome)
    ensures |w.organisms| == |old(w.organisms)| + 1 && w.organisms[|old(w.organisms)|].id == old(w.nextOrganismId)
    ensures w.births == old(w.births)[old(w.nextOrganismId) := BirthOf(w.organisms[|old(w.organisms)|])]
  {
    hide Crowd, ClansFine, Count, TablesFine, SpentFine, ActingFine, Ascending, Sound, CellFine, IsValid, Distance, Entered,
      Branched, More, Begets;
    var parent := w.organisms[i];
    IdsAboveZero(w, s, rules, i);
    NextIsNew(w, s, rules);
    BirthBegets(rules, parent, w.nextOrganismId, site, genome, w.clades, w.nextCladeId, w.epoch);
    ParentsCanAfford(rules, parent);
    SetBody(w, s, rules, i, Parted(rules, parent));
    var id, cladeId := w.nextOrganismId, parent.cladeId;
    if Splits(rules, genome, w.clades[parent.cladeId].reference) {
      cladeId := w.nextCladeId;
      Found(w, s, rules, FoundedBy(parent, cladeId, genome, w.epoch));
    }
    var child := Newborn(rules, parent, id, cladeId, site, genome);
    Join(w, s, rules, child);
    BirthBranches(rules, old(w.clades), old(w.nextCladeId), parent, w.organisms, genome, w.epoch, w.clades);
  }

  lemma NextIsNew(w: World, s: Scratch, rules: Ruleset)
    requires Ticking(w, s, rules)
    ensures w.nextCladeId !in w.clades
  {
    hide Crowd, Count, TablesFine, SpentFine, ActingFine, Sound, CellsFine, HerdFine;
  }

  /** Ids start above zero as soon as there is one. */
  lemma IdsAboveZero(w: World, s: Scratch, rules: Ruleset, i: nat)
    requires Ticking(w, s, rules) && i < |w.organisms|
    ensures w.nextOrganismId > 0
  {
    hide Crowd, ClansFine, Count, TablesFine, SpentFine, ActingFine, Sound, CellsFine, IsValid, Stands;
    assert w.organisms[i].id < w.nextOrganismId;
  }

  /** A child joins a clade that it is close to, or founds its own. */
  lemma BirthBranches(rules: Ruleset, clades: map<nat, Clade>, next: nat, parent: Organism, os': seq<Organism>,
      genome: Genome, epoch: nat, clades': map<nat, Clade>)
    requires parent.cladeId in clades && IsValid(genome, rules.traitBudget) && os' != []
    requires os'[|os'| - 1].genome == genome
    requires if Splits(rules, genome, clades[parent.cladeId].reference)
      then next !in clades && os'[|os'| - 1].cladeId == next
        && clades' == More(clades[next := FoundedBy(parent, next, genome, epoch)], next)
      else os'[|os'| - 1].cladeId == parent.cladeId && clades' == More(clades, parent.cladeId)
    ensures Branched(rules, clades, os', clades', |os'| - 1)
  {
    hide IsValid, Distance;
    FounderIsClose(rules, genome);
  }

  /** A clade's founder is no step away from its reference. */
  lemma FounderIsClose(rules: Ruleset, genome: Genome)
    ensures Distance(genome, genome) == 0
  {
    GapZero(genome.lanes, genome.lanes);
  }

  /** A clade opens, still without members. */
  method Found(w: World, s: Scratch, rules: Ruleset, c: Clade)
    requires Ticking(w, s, rules)
    requires c.id == w.nextCladeId && c.living == c.peakLiving == 0
    modifies w`clades, w`nextCladeId
    ensures Ticking(w, s, rules) && c.id !in old(w.clades)
    ensures w.nextCladeId == c.id + 1 && w.clades == old(w.clades)[c.id := c]
  {
    hide Crowd, ClansFine, Count, TablesFine, SpentFine, ActingFine, HerdFine, Sound, CellFine, IsValid;
    FoundingKeepsClans(w.organisms, s.alive, w.clades, w.nextCladeId, c);
    w.clades := w.clades[c.id := c];
    w.nextCladeId := w.nextCladeId + 1;
  }

  /** An organism joins the list, its clade and the index. */
  method Join(w: World, s: Scratch, rules: Ruleset, child: Organism)
    requires Ticking(w, s, rules) && child.id == w.nextOrganismId > 0
    requires s.aliveCount < rules.maxOrganisms
    requires Stands(w.cells, child) && child.cell < |s.occ| && s.occ[child.cell] < rules.maxPerCell
    requires IsValid(child.genome, rules.traitBudget) && child.energy <= rules.energyMax
    requires child.cladeId in w.clades
    modifies w`organisms, w`clades, w`nextOrganismId, w`births, s`alive, s`spent, s`occ, s`members, s`aliveCount
    ensures Ticking(w, s, rules) && w.nextOrganismId == child.id + 1
    ensures s.alive == old(s.alive) + [true] && s.aliveCount == old(s.aliveCount) + 1
    ensures s.occ == old(s.occ)[child.cell := old(s.occ)[child.cell] + 1]
    ensures w.organisms == old(w.organisms) + [child] && w.clades == More(old(w.clades), child.cladeId)
    ensures w.births == old(w.births)[child.id := BirthOf(child)]
  {
    hide Crowd, ClansFine, Count, TablesFine, ActingFine, HerdFine, Sound, CellFine, IsValid, Entered;
    ghost var os, alive := w.organisms, s.alive;
    HerdPush(rules, w.cells, os, w.nextOrganismId, child);
    BirthKeeps(s.Ix(), |w.cells|, rules.maxPerCell, os, alive, child);
    BirthKeepsClans(os, alive, w.clades, w.nextCladeId, child);
    CountPush(os, alive, child, true, Anyone);
    w.clades := More(w.clades, child.cladeId);
    w.nextOrganismId := w.nextOrganismId + 1;
    w.organisms := w.organisms + [child];
    w.births := w.births[child.id := BirthOf(child)];
    s.alive := s.alive + [true];
    s.spent := s.spent + [0];
    s.Add(child.cell, |w.organisms| - 1);
    s.aliveCount := s.aliveCount + 1;
  }

  /** Why an organism did not breed, or where its child was born. */
  datatype Brood = NotReady | AtCap | NoSpace | Bred(site: nat)

  /** No cell within one step has room. */
  predicate FullAround(rules: Ruleset, biome: seq<Biome>, occ: seq<nat>, home: nat) {
    forall c: nat :: c < Cells(rules.size) && Chebyshev(rules.size, home, c) <= 1 ==>
      !Enterable(biome, occ, rules.maxPerCell, c)
  }

  /** Organism i is alive and has the energy that breeding takes at its fertility. */
  predicate Ready(rules: Ruleset, a: Cradle, i: nat)
    requires i < |a.os| == |a.alive|
  {
    a.alive[i] && a.os[i].energy + a.os[i].genome.lanes[FERTILITY] * rules.reproPerFertility >= rules.reproBase
  }

  /** Organism i has had its chance to breed. Its child is born at home if there is room, otherwise in a neighbouring cell drawn
      evenly among those that have some; with the next id, a mutant of its genome. */
  ghost predicate BroodBorn(rules: Ruleset, rng: Rng, tick: u32, biome: seq<Biome>, epoch: nat, a: Cradle, b: Cradle, i: nat,
      brood: Brood)
  {
    && i < |a.os| == |a.alive|
    && match brood
      case NotReady => !Ready(rules, a, i) && b == a
      case AtCap => Ready(rules, a, i) && a.aliveCount >= rules.maxOrganisms && b == a
      case NoSpace =>
        && Ready(rules, a, i) && a.aliveCount < rules.maxOrganisms && b == a
        && (forall c: nat :: c < |biome| == |a.occ| == Cells(rules.size) && Chebyshev(rules.size, a.os[i].cell, c) <= 1 ==>
              biome[c] == DeepWater || a.occ[c] >= rules.maxPerCell)
      case Bred(site) =>
        && Ready(rules, a, i) && a.aliveCount < rules.maxOrganisms && |b.os| == |a.os| + 1 && BornIn(rules, rng, tick, biome, a, i, site)
        && var child := b.os[|a.os|];
        && b.os == a.os[i := b.os[i]] + [child] && child.id == a.nextOrganismId && child.cell == site
        && Mutant(a.os[i].genome, child.genome, rules.mutation, rng, tick, a.nextOrganismId % WORDS)
        && Begets(rules, a.os[i], b.os[i], child, a.clades, b.clades, a.nextCladeId, epoch)
        && b.alive == a.alive + [true] && b.occ == a.occ[site := a.occ[site] + 1] && b.aliveCount == a.aliveCount + 1
        && b.nextOrganismId == a.nextOrganismId + 1
        && b.nextCladeId == a.nextCladeId + if child.cladeId == a.os[i].cladeId then 0 else 1
  }

  ghost predicate BornIn(rules: Ruleset, rng: Rng, tick: u32, biome: seq<Biome>, a: Cradle, i: nat, site: nat)
    requires i < |a.os|
  {
    a.os[i].cell < |a.occ| && site < |a.occ| && a.occ[site] < rules.maxPerCell
    && Sited(rules.size, biome, a.occ, rules.maxPerCell, a.os[i].cell, rng, tick, a.nextOrganismId, Some(site))
  }

  lemma FullIsFull(rules: Ruleset, biome: seq<Biome>, occ: seq<nat>, home: nat)
    requires FullAround(rules, biome, occ, home)
    ensures forall c: nat :: c < |biome| == |occ| == Cells(rules.size) && Chebyshev(rules.size, home, c) <= 1 ==>
      biome[c] == DeepWater || occ[c] >= rules.maxPerCell
  {
    hide Chebyshev;
  }

  /** Organism i breeds if it is alive, has the energy, and the world and its neighbourhood have room. */
  method Breed(w: World, s: Scratch, rules: Ruleset, rng: Rng, tick: u32, i: nat) returns (brood: Brood)
    requires Ticking(w, s, rules) && i < |w.organisms|
    modifies w`organisms, w`clades, w`nextOrganismId, w`nextCladeId, w`births
    modifies s`alive, s`spent, s`occ, s`members, s`aliveCount
    ensures Ticking(w, s, rules) && w.nextOrganismId == old(w.nextOrganismId) + (if brood.Bred? then 1 else 0)
    ensures Branched(rules, old(w.clades), w.organisms, w.clades, |old(w.organisms)|)
    ensures !brood.Bred? ==> w.organisms == old(w.organisms) && s.alive == old(s.alive)
    ensures !brood.Bred? ==> w.clades == old(w.clades) && w.births == old(w.births)
    ensures BroodBorn(rules, rng, tick, s.biome, w.epoch, old(CradleOf(w, s)), CradleOf(w, s), i, brood)
    ensures brood.Bred? ==> BornNear(rules, w.cells, old(w.organisms), w.organisms, i, brood.site)
    ensures brood.Bred? ==> s.alive == old(s.alive) + [true]
    ensures brood.Bred? ==> w.organisms != [] && (var child := w.organisms[|w.organisms| - 1];
      child.id == old(w.nextOrganismId) && w.births == old(w.births)[child.id := BirthOf(child)])
  {
    hide Ticking, Distance, Rooms, Enterable, Chebyshev, Branched, Begets, FullAround, BroodBorn, Mutant, Ready, BornNear, Sited,
      ActingFine, Sound, IsValid;
    ParentInTick(w, s, rules, i);
    ghost var a := CradleOf(w, s);
    ReadyExactly(rules, a, i);
    NothingBranched(rules, w.clades, w.organisms);
    if !s.alive[i] {
      NotBorn(rules, rng, tick, s.biome, w.epoch, a, i, NotReady);
      return NotReady;
    }
    var parent := w.organisms[i];
    if parent.energy < BreedingThreshold(rules, parent.genome.lanes[FERTILITY]) {
      NotBorn(rules, rng, tick, s.biome, w.epoch, a, i, NotReady);
      return NotReady;
    }
    if s.aliveCount >= rules.maxOrganisms {
      NotBorn(rules, rng, tick, s.biome, w.epoch, a, i, AtCap);
      return AtCap;
    }
    var childId := w.nextOrganismId;
    var site := ChooseSite(rules.size, s.biome, s.occ, rules.maxPerCell, parent.cell, rng, tick, childId);
    SiteFacts(rules, w.cells, s.biome, s.moveCost, s.occ, parent.cell, rng, tick, childId, site);
    if site == None {
      FullIsFull(rules, s.biome, s.occ, parent.cell);
      NotBorn(rules, rng, tick, s.biome, w.epoch, a, i, NoSpace);
      return NoSpace;
    }
    Deliver(w, s, rules, rng, tick, i, site.value);
    brood := Bred(site.value);
  }

  /** Organism i has a child in a cell with room. */
  method Deliver(w: World, s: Scratch, rules: Ruleset, rng: Rng, tick: u32, i: nat, site: nat)
    requires Ticking(w, s, rules) && i < |w.organisms| == |s.alive| && s.alive[i]
    requires w.organisms[i].energy >= BreedingThreshold(rules, w.organisms[i].genome.lanes[FERTILITY])
    requires s.aliveCount < rules.maxOrganisms
    requires site < |w.cells| && site < |s.occ| && s.occ[site] < rules.maxPerCell && w.cells[site].biome != DeepWater
    requires Chebyshev(rules.size, w.organisms[i].cell, site) <= 1
    requires BornIn(rules, rng, tick, s.biome, CradleOf(w, s), i, site)
    modifies w`organisms, w`clades, w`nextOrganismId, w`nextCladeId, w`births
    modifies s`alive, s`spent, s`occ, s`members, s`aliveCount
    ensures Ticking(w, s, rules) && w.nextOrganismId == old(w.nextOrganismId) + 1
    ensures Branched(rules, old(w.clades), w.organisms, w.clades, |old(w.organisms)|)
    ensures BroodBorn(rules, rng, tick, s.biome, w.epoch, old(CradleOf(w, s)), CradleOf(w, s), i, Bred(site))
    ensures BornNear(rules, w.cells, old(w.organisms), w.organisms, i, site) && s.alive == old(s.alive) + [true]
    ensures w.organisms != [] && (var child := w.organisms[|w.organisms| - 1];
      child.id == old(w.nextOrganismId) && w.births == old(w.births)[child.id := BirthOf(child)])
  {
    hide Ticking, Sound, IsValid, Distance, Chebyshev, Branched, Begets, BroodBorn, Mutant, BornIn, Ready, BornNear, BirthOf,
      Parted, BreedingThreshold, ChildEnergy, Borne;
    ghost var a := CradleOf(w, s);
    ReadyExactly(rules, a, i);
    var parent := w.organisms[i];
    ParentInTick(w, s, rules, i);
    var genome := Mutate(parent.genome, rules.mutation, rng, tick, w.nextOrganismId % WORDS, rules.traitBudget);
    ClansCover(w, s, rules, i);
    ParentsCanAfford(rules, parent);
    Bear(w, s, rules, i, site, genome);
    IsDelivered(rules, rng, tick, s.biome, w.epoch, w.cells, a, CradleOf(w, s), i, site, genome);
  }

  lemma IsDelivered(rules: Ruleset, rng: Rng, tick: u32, biome: seq<Biome>, epoch: nat, cells: seq<Cell>, a: Cradle, b: Cradle,
      i: nat, site: nat, genome: Genome)
    requires i < |a.os| == |a.alive| && Ready(rules, a, i) && a.aliveCount < rules.maxOrganisms
    requires BornIn(rules, rng, tick, biome, a, i, site) && site < |cells| && cells[site].biome != DeepWater
    requires Chebyshev(rules.size, a.os[i].cell, site) <= 1
    requires Borne(rules, epoch, a, b, i, site, genome)
    requires Mutant(a.os[i].genome, genome, rules.mutation, rng, tick, a.nextOrganismId % WORDS)
    requires Distance(a.os[i].genome, genome) <= 1 && Parted(rules, a.os[i]).energy > 0
    requires ChildEnergy(rules, a.os[i].genome.lanes[FERTILITY]) > 0
    ensures BroodBorn(rules, rng, tick, biome, epoch, a, b, i, Bred(site))
    ensures BornNear(rules, cells, a.os, b.os, i, site)
  {
    hide Begets, Mutant, BornIn, Ready, Chebyshev, BroodBorn, BornNear, Distance;
    var child := Newborn(rules, a.os[i], a.nextOrganismId, b.os[|a.os|].cladeId, site, genome);
    IsBorn(rules, rng, tick, biome, epoch, a, b, i, site, Parted(rules, a.os[i]), child);
    IsBornNear(rules, cells, a.os, b.os, i, site, a.os[i], child.cladeId, genome, a.nextOrganismId);
  }

  lemma ParentInTick(w: World, s: Scratch, rules: Ruleset, i: nat)
    requires Ticking(w, s, rules) && i < |w.organisms|
    ensures Sound(rules) && IsValid(w.organisms[i].genome, rules.traitBudget) && w.organisms[i].energy <= rules.energyMax
    ensures |w.organisms| == |s.alive| && |s.occ| == |w.cells| == |s.biome| && |w.cells| == Cells(rules.size)
    ensures ActingFine(w.cells, s.biome, s.moveCost) && w.organisms[i].cell < |w.cells|
    ensures w.cells[w.organisms[i].cell].biome != DeepWater
  {
    hide ClansFine, Count, TablesFine, SpentFine, Ascending, Sound, CellFine, IsValid;
    assert Stands(w.cells, w.organisms[i]);
  }

  /** A child is born within a step of its parent, on ground that is not deep water, and both have energy left. */
  ghost predicate BornNear(rules: Ruleset, cells: seq<Cell>, os: seq<Organism>, os': seq<Organism>, i: nat, site: nat) {
    && i < |os| && |os'| == |os| + 1 && site < |cells| && Chebyshev(rules.size, os[i].cell, site) <= 1
    && cells[site].biome != DeepWater && os'[..|os|] == os[i := Parted(rules, os[i])]
    && var child := os'[|os|];
    && child == Newborn(rules, os[i], child.id, child.cladeId, site, child.genome)
    && Distance(os[i].genome, child.genome) <= 1 && child.energy > 0 && Parted(rules, os[i]).energy > 0
  }

  lemma IsBornNear(rules: Ruleset, cells: seq<Cell>, os: seq<Organism>, os': seq<Organism>, i: nat, site: nat, parent: Organism,
      cladeId: nat, genome: Genome, id: nat)
    requires i < |os| && parent == os[i] && site < |cells| && Chebyshev(rules.size, os[i].cell, site) <= 1
    requires cells[site].biome != DeepWater
    requires os' == os[i := Parted(rules, parent)] + [Newborn(rules, parent, id, cladeId, site, genome)]
    requires Distance(parent.genome, genome) <= 1 && Parted(rules, parent).energy > 0
    requires ChildEnergy(rules, parent.genome.lanes[FERTILITY]) > 0
    ensures BornNear(rules, cells, os, os', i, site)
  {
    hide Distance, Chebyshev;
  }

  lemma ReadyExactly(rules: Ruleset, a: Cradle, i: nat)
    requires i < |a.os| == |a.alive|
    ensures Ready(rules, a, i) <==> a.alive[i] && a.os[i].energy >= BreedingThreshold(rules, a.os[i].genome.lanes[FERTILITY])
  {
  }

  lemma NotBorn(rules: Ruleset, rng: Rng, tick: u32, biome: seq<Biome>, epoch: nat, a: Cradle, i: nat, brood: Brood)
    requires i < |a.os| == |a.alive| && !brood.Bred? && (brood == NotReady <==> !Ready(rules, a, i))
    requires brood == AtCap <==> Ready(rules, a, i) && a.aliveCount >= rules.maxOrganisms
    requires brood == NoSpace ==>
      forall c: nat :: c < |biome| == |a.occ| == Cells(rules.size) && Chebyshev(rules.size, a.os[i].cell, c) <= 1 ==>
        biome[c] == DeepWater || a.occ[c] >= rules.maxPerCell
    ensures BroodBorn(rules, rng, tick, biome, epoch, a, a, i, brood)
  {
    hide Chebyshev;
  }

  lemma IsBorn(rules: Ruleset, rng: Rng, tick: u32, biome: seq<Biome>, epoch: nat, a: Cradle, b: Cradle, i: nat, site: nat,
      parent': Organism, child: Organism)
    requires i < |a.os| == |a.alive| && Ready(rules, a, i) && a.aliveCount < rules.maxOrganisms
    requires BornIn(rules, rng, tick, biome, a, i, site)
    requires b.os == a.os[i := parent'] + [child] && child.id == a.nextOrganismId && child.cell == site
    requires Mutant(a.os[i].genome, child.genome, rules.mutation, rng, tick, a.nextOrganismId % WORDS)
    requires Begets(rules, a.os[i], b.os[i], b.os[|a.os|], a.clades, b.clades, a.nextCladeId, epoch)
    requires b.nextCladeId == a.nextCladeId + if b.os[|a.os|].cladeId == a.os[i].cladeId then 0 else 1
    requires b.alive == a.alive + [true] && site < |a.occ| && b.occ == a.occ[site := a.occ[site] + 1]
    requires b.aliveCount == a.aliveCount + 1 && b.nextOrganismId == a.nextOrganismId + 1
    ensures BroodBorn(rules, rng, tick, biome, epoch, a, b, i, Bred(site))
  {
    hide Begets, Mutant, BornIn, Ready, Chebyshev;
    assert b.os[i] == parent' && b.os[|a.os|] == child;
  }

  lemma SiteFacts(rules: Ruleset, cells: seq<Cell>, biome: seq<Biome>, moveCost: seq<int>, occ: seq<nat>, home: nat,
      rng: Rng, tick: u32, child: nat, site: Option<nat>)
    requires |cells| == |occ| == Cells(rules.size) && ActingFine(cells, biome, moveCost) && home < |cells|
    requires cells[home].biome != DeepWater
    requires Sited(rules.size, biome, occ, rules.maxPerCell, home, rng, tick, child, site)
    ensures site.Some? ==> site.value < |cells| && occ[site.value] < rules.maxPerCell
    ensures site.Some? ==> cells[site.value].biome != DeepWater && Chebyshev(rules.size, home, site.value) <= 1
    ensures site == None ==> FullAround(rules, biome, occ, home)
  {
    hide Rooms, Neighbor, Chebyshev;
    assert ActsAs(biome[home], cells[home].biome);
    HomeIsNear(rules.size, home);
    if site == None {
      forall c: nat | c < |cells| && Chebyshev(rules.size, home, c) <= 1
        ensures !Enterable(biome, occ, rules.maxPerCell, c)
      {
        NeighborIsOneStep(rules.size, home, c);
        RoomsAreNeighbors(rules.size, biome, occ, rules.maxPerCell, home, 8, c);
        if Chebyshev(rules.size, home, c) == 0 {
          SamePlace(rules.size, home, c);
        }
      }
    } else if occ[home] >= rules.maxPerCell {
      RoomsAreNeighbors(rules.size, biome, occ, rules.maxPerCell, home, 8, site.value);
      NeighborIsOneStep(rules.size, home, site.value);
      assert ActsAs(biome[site.value], cells[site.value].biome);
    }
  }

  lemma HomeIsNear(size: Size, home: nat)
    ensures Chebyshev(size, home, home) == 0
  {
  }

  // ---- All births of a tick ----

  /** c is a child of p, born within a step of it. */
  predicate ChildOf(size: Size, ground: seq<Biome>, p: Organism, c: Organism) {
    && c.parentId == p.id && c.lineageId == p.lineageId && c.age == 0 && Distance(p.genome, c.genome) <= 1
    && p.cell < |ground| && c.cell < |ground| && Chebyshev(size, p.cell, c.cell) <= 1
    && ground[p.cell] != DeepWater && ground[c.cell] != DeepWater
  }

  /** The organisms there were, some with less energy, then the children of some of them, numbered on. */
  ghost predicate Grown(size: Size, ground: seq<Biome>, os: seq<Organism>, os': seq<Organism>, alive': seq<bool>,
      next: nat, next': nat)
    requires |os'| == |alive'|
  {
    && |os| <= |os'| && next' == next + |os'| - |os|
    && (forall k :: 0 <= k < |os| ==> os'[k] == os[k].(energy := os'[k].energy))
    && (forall k :: |os| <= k < |os'| ==> os'[k].id == next + k - |os| && alive'[k])
    && (forall k :: |os| <= k < |os'| ==> exists p :: 0 <= p < |os| && ChildOf(size, ground, os[p], os'[k]))
  }

  /** Everyone has had its chance to breed, in order of id. */
  ghost predicate BroodsBorn(rules: Ruleset, rng: Rng, tick: u32, biome: seq<Biome>, epoch: nat, cradles: seq<Cradle>,
      broods: seq<Brood>)
  {
    |cradles| == |broods| + 1
    && forall i :: 0 <= i < |broods| ==> BroodBorn(rules, rng, tick, biome, epoch, cradles[i], cradles[i + 1], i, broods[i])
  }

  lemma BroodsBornNext(rules: Ruleset, rng: Rng, tick: u32, biome: seq<Biome>, epoch: nat, cradles: seq<Cradle>,
      broods: seq<Brood>, b: Cradle, brood: Brood)
    requires BroodsBorn(rules, rng, tick, biome, epoch, cradles, broods)
    requires BroodBorn(rules, rng, tick, biome, epoch, cradles[|broods|], b, |broods|, brood)
    ensures BroodsBorn(rules, rng, tick, biome, epoch, cradles + [b], broods + [brood])
  {
    hide BroodBorn;
  }

  method BreedAll(w: World, s: Scratch, rules: Ruleset, rng: Rng, tick: u32)
    returns (ghost cradles: seq<Cradle>, ghost broods: seq<Brood>)
    requires Ticking(w, s, rules) && |w.organisms| == |s.alive| && AllFed(w.organisms, s.alive)
    modifies w`organisms, w`clades, w`nextOrganismId, w`nextCladeId, w`births
    modifies s`alive, s`spent, s`occ, s`members, s`aliveCount
    ensures Ticking(w, s, rules)
    ensures |w.organisms| == |s.alive| && AllFed(w.organisms, s.alive)
    ensures |s.alive| >= |old(s.alive)| && s.alive[..|old(s.alive)|] == old(s.alive)
    ensures Grown(rules.size, Ground(w.cells), old(w.organisms), w.organisms, s.alive, old(w.nextOrganismId), w.nextOrganismId)
    ensures Branched(rules, old(w.clades), w.organisms, w.clades, |old(w.organisms)|)
    ensures w.births == Added(old(w.births), w.organisms[|old(w.organisms)|..])
    ensures BroodsBorn(rules, rng, tick, s.biome, w.epoch, cradles, broods) && |broods| == |old(w.organisms)|
    ensures cradles[0] == old(CradleOf(w, s)) && cradles[|broods|] == CradleOf(w, s)
  {
    hide BroodsBorn, Ticking, Distance, BreedingThreshold, FullAround, ChildEnergy, Branched, Added, BirthOf, Begets, Chebyshev, BornNear,
      BroodBorn, Grown, AllFed, Stands;
    GrownNone(rules.size, Ground(w.cells), w.organisms, s.alive, w.nextOrganismId);
    NothingBranched(rules, w.clades, w.organisms);
    assert w.organisms[|w.organisms|..] == [];
    AddedNone(w.births);
    var parents := |w.organisms|;
    cradles, broods := [CradleOf(w, s)], [];
    NoBroods(rules, rng, tick, s.biome, w.epoch, CradleOf(w, s));
    for i := 0 to parents
      invariant Ticking(w, s, rules) && Branched(rules, old(w.clades), w.organisms, w.clades, parents)
      invariant |w.organisms| == |s.alive| && AllFed(w.organisms, s.alive) && parents <= |w.organisms|
      invariant s.alive[..parents] == old(s.alive) && w.births == Added(old(w.births), w.organisms[parents..])
      invariant Grown(rules.size, Ground(w.cells), old(w.organisms), w.organisms, s.alive, old(w.nextOrganismId),
        w.nextOrganismId)
      invariant BroodsBorn(rules, rng, tick, s.biome, w.epoch, cradles, broods) && |broods| == i && |cradles| == i + 1
      invariant cradles[0] == old(CradleOf(w, s)) && cradles[i] == CradleOf(w, s)
    {
      ghost var os, clades, next := w.organisms, w.clades, w.nextOrganismId;
      StandsInTick(w, s, rules, i);
      ghost var alive := s.alive;
      var brood := Breed(w, s, rules, rng, tick, i);
      if brood.Bred? {
        GrownNext(rules, w.cells, old(w.organisms), os, alive, old(w.nextOrganismId), next, i, w.organisms, brood.site);
        AddedOne(old(w.births), os[parents..], w.organisms[|os|]);
        assert w.organisms[parents..] == os[parents..] + [w.organisms[|os|]];
        BranchedThrough(rules, old(w.clades), os, clades, parents, w.organisms, w.clades);
      }
      BroodsBornNext(rules, rng, tick, s.biome, w.epoch, cradles, broods, CradleOf(w, s), brood);
      cradles, broods := cradles + [CradleOf(w, s)], broods + [brood];
    }
  }

  lemma NoBroods(rules: Ruleset, rng: Rng, tick: u32, biome: seq<Biome>, epoch: nat, a: Cradle)
    ensures BroodsBorn(rules, rng, tick, biome, epoch, [a], [])
  {
  }

  lemma GrownNone(size: Size, ground: seq<Biome>, os: seq<Organism>, alive: seq<bool>, next: nat)
    requires |os| == |alive|
    ensures Grown(size, ground, os, os, alive, next, next)
  {
  }

  lemma GrownNext(rules: Ruleset, cells: seq<Cell>, first: seq<Organism>, os: seq<Organism>, alive: seq<bool>, start: nat,
      next: nat, i: nat, os': seq<Organism>, site: nat)
    requires |os| == |alive| && Grown(rules.size, Ground(cells), first, os, alive, start, next) && i < |first|
    requires AllFed(os, alive) && Stands(cells, os[i])
    requires BornNear(rules, cells, os, os', i, site) && os'[|os'| - 1].id == next
    ensures Grown(rules.size, Ground(cells), first, os', alive + [true], start, next + 1)
    ensures AllFed(os', alive + [true]) && |os'| == |os| + 1 && |first| <= |os|
    ensures SameKin(os, os'[..|os|])
    ensures os'[|first|..] == os[|first|..] + [os'[|os|]]
  {
    hide Distance, ChildEnergy, Chebyshev;
    forall k | 0 <= k < |os|
      ensures os'[k] == os[k].(energy := os'[k].energy)
      ensures k != i ==> os'[k] == os[k]
    {
      assert os'[k] == os'[..|os|][k];
    }
    assert ChildOf(rules.size, Ground(cells), first[i], os'[|os|]);
    forall k | |first| <= k < |os|
      ensures exists p :: 0 <= p < |first| && ChildOf(rules.size, Ground(cells), first[p], os'[k])
    {
      var p :| 0 <= p < |first| && ChildOf(rules.size, Ground(cells), first[p], os[k]);
      assert ChildOf(rules.size, Ground(cells), first[p], os'[k]);
    }
  }

  lemma StandsInTick(w: World, s: Scratch, rules: Ruleset, i: nat)
    requires Ticking(w, s, rules) && i < |w.organisms|
    ensures Stands(w.cells, w.organisms[i])
  {
  }
}
