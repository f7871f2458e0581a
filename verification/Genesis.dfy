/** The beginning of a world, core/src/map.rs:31-178: its rifts, and founders on every plate. */
module Genesis {
  import opened Arithmetic
  import opened Births
  import opened Climates
  import opened Cohesion
  import opened Environment
  import opened Epochs
  import opened Events
  import opened Genomes
  import opened Grid
  import opened Herd
  import opened Kinship
  import opened Options
  import opened Randomness
  import opened Revivals
  import opened RiftPlan
  import opened Rifting
  import opened Steadiness
  import opened TickState
  import opened Waves
  import opened WorldState

  // ---- The ground ----

  /** A cell as it begins. */
  function FirstCell(rules: Ruleset, biome: Biome): Cell
    requires Validated(rules)
  {
    Cell(biome, rules.biomes[BiomeCode(biome)].foodMax, 0, TargetMoisture(rules, biome, 0), NoRift)
  }

  /** The ground begins full of food and bare of detritus, as moist as spring wants it. */
  lemma FirstCellExactly(rules: Ruleset, biome: Biome)
    requires Validated(rules)
    ensures var c := FirstCell(rules, biome);
      c.food == rules.biomes[BiomeCode(biome)].foodMax && c.detritus == 0 && c.moisture == TargetMoisture(rules, biome, 0) <= 100
  {
    hide Validated, TargetMoisture;
  }

  /** The cells of a map, with cracks where the first k rifts lie. */
  ghost predicate Cracked(rules: Ruleset, biomes: seq<Biome>, rifts: seq<Rift>, k: nat, cells: seq<Cell>)
    requires Validated(rules) && k <= |rifts|
  {
    |cells| == |biomes| && forall c: nat :: c < |cells| ==>
      cells[c] == FirstCell(rules, biomes[c]).(rift := if OnRift(rifts[..k], c) then Crack else NoRift)
  }

  method CrackCells(w: World, rules: Ruleset, biomes: seq<Biome>, rifts: seq<Rift>)
    requires Validated(rules) && forall k :: 0 <= k < |rifts| ==> rifts[k].cell < |biomes|
    modifies w`cells
    ensures Cracked(rules, biomes, rifts, |rifts|, w.cells)
  {
    hide Validated, TargetMoisture, OnRift;
    w.cells := seq(|biomes|, i requires 0 <= i < |biomes| => FirstCell(rules, biomes[i]));
    NoRifts();
    assert rifts[..0] == [];
    for k := 0 to |rifts|
      invariant Cracked(rules, biomes, rifts, k, w.cells)
    {
      var c := rifts[k].cell;
      RiftNext(rifts[..k], rifts[k]);
      assert rifts[..k + 1] == rifts[..k] + [rifts[k]];
      w.cells := w.cells[c := w.cells[c].(rift := Crack)];
    }
  }

  lemma CrackedFine(rules: Ruleset, biomes: seq<Biome>, rifts: seq<Rift>, cells: seq<Cell>)
    requires Sound(rules) && |biomes| == Cells(rules.size) && Cracked(rules, biomes, rifts, |rifts|, cells)
    requires forall k :: 0 <= k < |rifts| ==> rifts[k].cell < |biomes|
    requires forall k :: 0 <= k < |rifts| ==> rifts[k].faultEpoch <= rifts[k].shallowsEpoch <= rifts[k].deepEpoch
    requires forall j, k :: 0 <= j < k < |rifts| ==> rifts[j].cell < rifts[k].cell
    ensures CellsFine(rules, cells) && RiftsFine(rifts, cells) && DeepIsWater(cells) && Ground(cells) == biomes
  {
    hide OnRift, Sound, TargetMoisture, Validated;
    BiomesListed(rules);
    SoundIsValidated(rules);
    assert rifts[..|rifts|] == rifts;
    FirstCellsFine(rules);
    forall c | 0 <= c < |cells|
      ensures CellFine(rules, cells[c])
    {
      assert cells[c] == FirstCell(rules, biomes[c]).(rift := cells[c].rift);
    }
  }

  lemma FirstCellsFine(rules: Ruleset)
    requires Validated(rules) && |rules.biomes| == BIOMES
    ensures forall b: Biome, p: RiftPhase :: CellFine(rules, FirstCell(rules, b).(rift := p))
  {
    hide Validated;
  }

  // ---- Where a lineage starts ----

  const FOUNDER_INLAND: nat := 4

  /** No cell of another plate within reach. */
  predicate Inland(size: Size, plates: seq<nat>, i: nat)
    requires |plates| == Cells(size) && i < |plates|
  {
    forall j :: 0 <= j < |plates| && Chebyshev(size, i, j) <= FOUNDER_INLAND ==> plates[j] == plates[i]
  }

  /** The k-th kind of place a lineage may start in, most wanted first. */
  predicate Welcome(size: Size, cells: seq<Cell>, plates: seq<nat>, preferred: Biome, plate: nat, k: nat, i: nat)
    requires |cells| == |plates| == Cells(size)
  {
    i < |cells|
    && match k
       case 0 => cells[i].biome == preferred && plates[i] == plate && Inland(size, plates, i)
       case 1 => cells[i].biome == preferred && plates[i] == plate
       case 2 => IsLand(cells[i].biome) && plates[i] == plate && Inland(size, plates, i)
       case 3 => IsLand(cells[i].biome) && plates[i] == plate
       case 4 => cells[i].biome == preferred
       case _ => IsLand(cells[i].biome)
  }

  /** The preferred biome on the own plate is wanted most, then any land there, then the preferred biome anywhere, then any
      land; on the own plate, away from the others first. */
  lemma WelcomeExactly(size: Size, cells: seq<Cell>, plates: seq<nat>, preferred: Biome, plate: nat, k: nat, i: nat)
    requires |cells| == |plates| == Cells(size) && i < |cells| && k < 6
    ensures Welcome(size, cells, plates, preferred, plate, k, i) <==>
      && (k in {0, 1, 4} ==> cells[i].biome == preferred)
      && (k in {2, 3, 5} ==> cells[i].biome != DeepWater && cells[i].biome != Shallows)
      && (k <= 3 ==> plates[i] == plate)
      && (k in {0, 2} ==> forall j: nat :: j < |plates| && plates[j] != plates[i] ==> Chebyshev(size, i, j) >= 5)
  {
    hide Chebyshev;
  }

  /** A site of the most wanted kind that there is; none when there is no land. */
  ghost predicate BestStart(size: Size, cells: seq<Cell>, plates: seq<nat>, preferred: Biome, plate: nat, site: Option<nat>)
    requires |cells| == |plates| == Cells(size)
  {
    match site
    case None => forall i: nat :: i < |cells| ==> !IsLand(cells[i].biome)
    case Some(s) => exists k: nat :: (k < 6 && Welcome(size, cells, plates, preferred, plate, k, s)
      && forall j: nat, i: nat :: j < k ==> !Welcome(size, cells, plates, preferred, plate, j, i))
  }

  /** The sites of a kind. */
  ghost function Starts(size: Size, cells: seq<Cell>, plates: seq<nat>, preferred: Biome, plate: nat, k: nat): iset<nat>
    requires |cells| == |plates| == Cells(size)
  {
    iset i: nat | Welcome(size, cells, plates, preferred, plate, k, i)
  }

  /** The site was drawn evenly among those of its kind. */
  ghost predicate DrawnStart(size: Size, cells: seq<Cell>, plates: seq<nat>, preferred: Biome, plate: nat, rng: Rng,
      lineage: nat, s: nat)
    requires |cells| == |plates| == Cells(size)
  {
    exists k: nat ::
      k < 6 && DrawnFrom(Starts(size, cells, plates, preferred, plate, k), rng, GenesisSite, lineage, s)
  }

  method ChooseStart(size: Size, cells: seq<Cell>, plates: seq<nat>, preferred: Biome, plate: nat, rng: Rng, lineage: nat)
    returns (site: Option<nat>)
    requires |cells| == |plates| == Cells(size) && IsLand(preferred)
    ensures BestStart(size, cells, plates, preferred, plate, site)
    ensures site.Some? ==> site.value < |cells| && IsLand(cells[site.value].biome)
    ensures site.Some? ==> DrawnStart(size, cells, plates, preferred, plate, rng, lineage, site.value)
  {
    hide Inland;
    for k := 0 to 6
      invariant forall j: nat, i: nat :: j < k ==> !Welcome(size, cells, plates, preferred, plate, j, i)
    {
      var sites := CellsWhere(|cells|, (i: nat) => Welcome(size, cells, plates, preferred, plate, k, i));
      if sites != [] {
        var s := sites[Below(rng, 0, GenesisSite, lineage % WORDS, |sites|)];
        assert s in sites;
        assert IsCast(Starts(size, cells, plates, preferred, plate, k), rng, GenesisSite, lineage, sites, s);
        return Some(s);
      }
      forall i: nat
        ensures !Welcome(size, cells, plates, preferred, plate, k, i)
      {
        assert i !in sites;
      }
    }
    forall i: nat | i < |cells|
      ensures !IsLand(cells[i].biome)
    {
      assert !Welcome(size, cells, plates, preferred, plate, 5, i);
    }
    site := None;
  }

  // ---- Founders around a site ----

  /** A founder: of some age, and without parents. */
  function Settler(rules: Ruleset, rng: Rng, id: nat, lineage: nat, cladeId: nat, cell: nat, genome: Genome): Organism
    requires rules.senescenceStart > 0
  {
    Sprout(rules, id, lineage, cladeId, cell, genome).(age := Below(rng, 0, GenesisAge, id % WORDS, rules.senescenceStart))
  }

  /** Founders are of all ages before old age, without parents and with the energy of a beginning. */
  lemma SettlerExactly(rules: Ruleset, rng: Rng, id: nat, lineage: nat, cladeId: nat, cell: nat, genome: Genome)
    requires rules.senescenceStart > 0
    ensures var o := Settler(rules, rng, id, lineage, cladeId, cell, genome);
      && o.age == Below(rng, 0, GenesisAge, id % WORDS, rules.senescenceStart) < rules.senescenceStart
      && o.parentId == 0 && o.energy == rules.genesisEnergy && o.id == id && o.lineageId == lineage
      && o.cladeId == cladeId && o.cell == cell && o.genome == genome
  {
  }

  /** A row of founders with consecutive ids, on land. */
  predicate Settlers(rules: Ruleset, rng: Rng, cells: seq<Cell>, placed: seq<Organism>, next: nat, lineage: nat,
      cladeId: nat, genome: Genome)
    requires rules.senescenceStart > 0
  {
    forall k :: 0 <= k < |placed| ==>
      (placed[k] == Settler(rules, rng, next + k, lineage, cladeId, placed[k].cell, genome)
       && placed[k].cell < |cells| && IsLand(cells[placed[k].cell].biome))
  }

  /** Founders placed so far, and the counts that they make. */
  ghost predicate Settling(rules: Ruleset, rng: Rng, cells: seq<Cell>, occ: seq<nat>, limit: nat, before: seq<Organism>,
      next: nat, placed: seq<Organism>, lineage: nat, cladeId: nat, genome: Genome)
    requires rules.senescenceStart > 0
  {
    && Settlers(rules, rng, cells, placed, next, lineage, cladeId, genome)
    && Counted(occ, before + placed, |cells|) && (forall c :: 0 <= c < |occ| ==> occ[c] <= limit)
  }

  lemma SettlingNext(rules: Ruleset, rng: Rng, cells: seq<Cell>, occ: seq<nat>, limit: nat, before: seq<Organism>,
      next: nat, placed: seq<Organism>, lineage: nat, cladeId: nat, genome: Genome, c: nat)
    requires rules.senescenceStart > 0 && c < |cells| && IsLand(cells[c].biome)
    requires Settling(rules, rng, cells, occ, limit, before, next, placed, lineage, cladeId, genome)
    requires c < |occ| && occ[c] < limit
    ensures var o := Settler(rules, rng, next + |placed|, lineage, cladeId, c, genome);
      before + (placed + [o]) == before + placed + [o]
      && Settling(rules, rng, cells, occ[c := occ[c] + 1], limit, before, next, placed + [o], lineage, cladeId, genome)
  {
    hide Tally, Below;
    var o := Settler(rules, rng, next + |placed|, lineage, cladeId, c, genome);
    assert before + (placed + [o]) == before + placed + [o];
    CountedLength(occ, before + placed, |cells|);
    CountedNext(occ, before + placed, o);
  }

  /** A cell takes founders until it is full or enough are placed. */
  method Fill(w: World, rules: Ruleset, rng: Rng, occ: seq<nat>, limit: nat, c: nat, count: nat, placed: seq<Organism>,
      lineage: nat, cladeId: nat, genome: Genome, ghost before: seq<Organism>, ghost next: nat, ghost births: map<nat, Birth>)
    returns (occ': seq<nat>, placed': seq<Organism>)
    requires rules.senescenceStart > 0 && c < |w.cells| == |occ| && IsLand(w.cells[c].biome) && |placed| <= count
    requires Settling(rules, rng, w.cells, occ, limit, before, next, placed, lineage, cladeId, genome)
    requires w.organisms == before + placed && w.nextOrganismId == next + |placed| && w.births == Added(births, placed)
    modifies w`organisms, w`nextOrganismId, w`births
    ensures Settling(rules, rng, w.cells, occ', limit, before, next, placed', lineage, cladeId, genome)
    ensures w.organisms == before + placed' && w.nextOrganismId == next + |placed'| && |placed'| <= count
    ensures w.births == Added(births, placed')
    ensures |occ'| == |occ| && (forall d :: 0 <= d < |occ| ==> occ'[d] >= occ[d])
    ensures |placed'| == count || occ'[c] >= limit
  {
    hide Settling, Settler, Sprout, Added, BirthOf;
    occ', placed' := occ, placed;
    while occ'[c] < limit && |placed'| < count
      invariant |occ'| == |occ| && (forall d :: 0 <= d < |occ| ==> occ'[d] >= occ[d])
      invariant Settling(rules, rng, w.cells, occ', limit, before, next, placed', lineage, cladeId, genome)
      invariant w.organisms == before + placed' && w.nextOrganismId == next + |placed'| && |placed'| <= count
      invariant w.births == Added(births, placed')
      decreases count - |placed'|
    {
      SettlingNext(rules, rng, w.cells, occ', limit, before, next, placed', lineage, cladeId, genome, c);
      var o := Settler(rules, rng, w.nextOrganismId, lineage, cladeId, c, genome);
      SettlerStands(rules, rng, w.nextOrganismId, lineage, cladeId, c, genome);
      AddedOne(births, placed', o);
      Enlist(w, o);
      occ' := occ'[c := occ'[c] + 1];
      placed' := placed' + [o];
    }
  }

  lemma SettlerStands(rules: Ruleset, rng: Rng, id: nat, lineage: nat, cladeId: nat, cell: nat, genome: Genome)
    requires rules.senescenceStart > 0
    ensures Settler(rules, rng, id, lineage, cladeId, cell, genome).id == id
    ensures Settler(rules, rng, id, lineage, cladeId, cell, genome).cell == cell
  {
    hide Below;
  }

  const FOUNDER_RINGS: nat := 16

  /** A cell in an earlier ring, or in this one before row dy and column dx. */
  predicate Passed(size: Size, site: nat, radius: nat, dy: int, dx: int, c: nat) {
    var far := Chebyshev(size, site, c);
    far < radius || (far == radius && (Y(size, c) - Y(size, site) < dy
      || (Y(size, c) - Y(size, site) == dy && X(size, c) - X(size, site) < dx)))
  }

  /** The land passed so far is full. */
  ghost predicate FullSoFar(size: Size, cells: seq<Cell>, occ: seq<nat>, limit: nat, site: nat, radius: nat, dy: int, dx: int) {
    |occ| == |cells| && forall c: nat :: c < |cells| && IsLand(cells[c].biome) && Passed(size, site, radius, dy, dx, c) ==>
      occ[c] >= limit
  }

  lemma PassedOne(size: Size, cells: seq<Cell>, occ: seq<nat>, limit: nat, site: nat, radius: nat, dy: int, dx: int)
    requires |cells| == Cells(size) && site < |cells|
    requires FullSoFar(size, cells, occ, limit, site, radius, dy, dx)
    requires Max(Abs(dx), Abs(dy)) == radius ==> var c := At(size, X(size, site) + dx, Y(size, site) + dy);
      c.Some? && c.value < |cells| && IsLand(cells[c.value].biome) ==> occ[c.value] >= limit
    ensures FullSoFar(size, cells, occ, limit, site, radius, dy, dx + 1)
  {
    forall c: nat | c < |cells| && IsLand(cells[c].biome) && Passed(size, site, radius, dy, dx + 1, c)
      ensures occ[c] >= limit
    {
      if !Passed(size, site, radius, dy, dx, c) {
        CellInside(size, c);
      }
    }
  }

  lemma PassedRow(size: Size, cells: seq<Cell>, occ: seq<nat>, limit: nat, site: nat, radius: nat, dy: int, r: int)
    requires FullSoFar(size, cells, occ, limit, site, radius, dy, r + 1) && r == radius
    ensures FullSoFar(size, cells, occ, limit, site, radius, dy + 1, -r)
  {
  }

  lemma PassedRing(size: Size, cells: seq<Cell>, occ: seq<nat>, limit: nat, site: nat, radius: nat, r: int)
    requires FullSoFar(size, cells, occ, limit, site, radius, r + 1, -r) && r == radius
    ensures FullSoFar(size, cells, occ, limit, site, radius + 1, -r - 1, -r - 1)
  {
  }

  lemma StillFull(size: Size, cells: seq<Cell>, occ: seq<nat>, occ': seq<nat>, limit: nat, site: nat, radius: nat, dy: int,
      dx: int)
    requires FullSoFar(size, cells, occ, limit, site, radius, dy, dx)
    requires |occ'| == |occ| && forall d :: 0 <= d < |occ| ==> occ'[d] >= occ[d]
    ensures FullSoFar(size, cells, occ', limit, site, radius, dy, dx)
  {
    hide Passed;
  }

  /** Every land cell within the rings holds as many as a cell may at the beginning. */
  ghost predicate RingsFull(size: Size, cells: seq<Cell>, occ: seq<nat>, limit: nat, site: nat) {
    |occ| == |cells| && forall c: nat :: c < |cells| && IsLand(cells[c].biome) && Chebyshev(size, site, c) <= FOUNDER_RINGS ==>
      occ[c] >= limit
  }

  lemma NothingPassed(size: Size, cells: seq<Cell>, occ: seq<nat>, limit: nat, site: nat)
    requires |occ| == |cells|
    ensures FullSoFar(size, cells, occ, limit, site, 0, 0, 0)
  {
    forall c: nat | c < |cells| && Passed(size, site, 0, 0, 0, c)
      ensures false
    {
    }
  }

  /** A lineage's founders, ring by ring around its site. There are fewer than asked for only when the land of
      all rings is full. */
  method Rings(w: World, rules: Ruleset, rng: Rng, occ: seq<nat>, limit: nat, site: nat, count: nat, lineage: nat,
      cladeId: nat, genome: Genome) returns (occ': seq<nat>, placed: seq<Organism>)
    requires rules.senescenceStart > 0 && site < |w.cells| == Cells(rules.size)
    requires Counted(occ, w.organisms, |w.cells|) && forall c :: 0 <= c < |occ| ==> occ[c] <= limit
    modifies w`organisms, w`nextOrganismId, w`births
    ensures Settling(rules, rng, w.cells, occ', limit, old(w.organisms), old(w.nextOrganismId), placed, lineage, cladeId, genome)
    ensures w.organisms == old(w.organisms) + placed && w.nextOrganismId == old(w.nextOrganismId) + |placed|
    ensures w.births == Added(old(w.births), placed)
    ensures |placed| <= count && (|placed| == count || RingsFull(rules.size, w.cells, occ', limit, site))
  {
    hide Settling, Counted, FullSoFar, Passed, Added;
    AddedNone(w.births);
    ghost var before, next := w.organisms, w.nextOrganismId;
    occ', placed := occ, [];
    assert before + placed == before;
    SettlingFirst(rules, rng, w.cells, occ, limit, before, next, lineage, cladeId, genome);
    NothingPassed(rules.size, w.cells, occ, limit, site);
    for radius := 0 to FOUNDER_RINGS + 1
      invariant |occ'| == |w.cells| && w.organisms == before + placed && w.nextOrganismId == next + |placed| && |placed| <= count
      invariant w.births == Added(old(w.births), placed)
      invariant Settling(rules, rng, w.cells, occ', limit, before, next, placed, lineage, cladeId, genome)
      invariant FullSoFar(rules.size, w.cells, occ', limit, site, radius, -radius, -radius)
    {
      var r: int := radius;
      for dy := -r to r + 1
        invariant |occ'| == |w.cells| && w.organisms == before + placed && w.nextOrganismId == next + |placed| && |placed| <= count
        invariant w.births == Added(old(w.births), placed)
        invariant Settling(rules, rng, w.cells, occ', limit, before, next, placed, lineage, cladeId, genome)
        invariant FullSoFar(rules.size, w.cells, occ', limit, site, radius, dy, -r)
      {
        for dx := -r to r + 1
          invariant |occ'| == |w.cells| && w.organisms == before + placed && w.nextOrganismId == next + |placed| && |placed| <= count
          invariant w.births == Added(old(w.births), placed)
          invariant Settling(rules, rng, w.cells, occ', limit, before, next, placed, lineage, cladeId, genome)
          invariant FullSoFar(rules.size, w.cells, occ', limit, site, radius, dy, dx)
        {
          if Max(Abs(dx), Abs(dy)) == radius {
            var c := At(rules.size, X(rules.size, site) + dx, Y(rules.size, site) + dy);
            if c.Some? && IsLand(w.cells[c.value].biome) {
              ghost var filling := occ';
              occ', placed := Fill(w, rules, rng, occ', limit, c.value, count, placed, lineage, cladeId, genome, before, next,
                old(w.births));
              if |placed| == count {
                return;
              }
              StillFull(rules.size, w.cells, filling, occ', limit, site, radius, dy, dx);
            }
          }
          PassedOne(rules.size, w.cells, occ', limit, site, radius, dy, dx);
        }
        PassedRow(rules.size, w.cells, occ', limit, site, radius, dy, r);
      }
      PassedRing(rules.size, w.cells, occ', limit, site, radius, r);
    }
    AllPassed(rules.size, w.cells, occ', limit, site);
  }

  lemma SettlingFirst(rules: Ruleset, rng: Rng, cells: seq<Cell>, occ: seq<nat>, limit: nat, before: seq<Organism>,
      next: nat, lineage: nat, cladeId: nat, genome: Genome)
    requires rules.senescenceStart > 0 && Counted(occ, before, |cells|) && forall c :: 0 <= c < |occ| ==> occ[c] <= limit
    ensures Settling(rules, rng, cells, occ, limit, before, next, [], lineage, cladeId, genome) && |occ| == |cells|
  {
    assert before + [] == before;
  }

  lemma AllPassed(size: Size, cells: seq<Cell>, occ: seq<nat>, limit: nat, site: nat)
    requires FullSoFar(size, cells, occ, limit, site, FOUNDER_RINGS + 1, -1 - FOUNDER_RINGS, -1 - FOUNDER_RINGS)
    ensures RingsFull(size, cells, occ, limit, site)
  {
  }

  // ---- A lineage joins the people ----

  /** The same organisms before they had an age. */
  function Young(placed: seq<Organism>): (young: seq<Organism>)
    ensures |young| == |placed| && forall k :: 0 <= k < |placed| ==> young[k] == placed[k].(age := 0)
  {
    seq(|placed|, k requires 0 <= k < |placed| => placed[k].(age := 0))
  }

  lemma YoungSprout(rules: Ruleset, rng: Rng, cells: seq<Cell>, placed: seq<Organism>, next: nat, lineage: nat,
      cladeId: nat, genome: Genome)
    requires rules.senescenceStart > 0 && Settlers(rules, rng, cells, placed, next, lineage, cladeId, genome)
    ensures Sprouted(rules, cells, Young(placed), next, lineage, cladeId, genome) && Foundlings(cells, next, placed)
  {
    hide Below;
  }

  lemma NextCladeGrows(rules: Ruleset, os: seq<Organism>, next: nat, clades: map<nat, Clade>, nextClade: nat)
    requires People(rules, os, next, clades, nextClade)
    ensures People(rules, os, next, clades, nextClade + 1)
  {
    hide Tally, Sound, IsValid, Ascending;
    forall id | id in clades
      ensures CladeFine(id, clades[id], nextClade + 1, os)
    {
      assert CladeFine(id, clades[id], nextClade, os);
    }
  }

  /** Founders join a people, however old they are. */
  lemma SettlersJoin(rules: Ruleset, rng: Rng, cells: seq<Cell>, os: seq<Organism>, placed: seq<Organism>, next: nat,
      lineage: nat, clades: map<nat, Clade>, id: nat, genome: Genome, occ: seq<nat>, limit: nat)
    requires rules.senescenceStart > 0 && limit <= rules.maxPerCell && |cells| == Cells(rules.size)
    requires People(rules, os, next, clades, id) && next > 0 && IsValid(genome, rules.traitBudget)
    requires Settling(rules, rng, cells, occ, limit, os, next, placed, lineage, id, genome)
    requires |os| + |placed| <= rules.maxOrganisms
    ensures People(rules, os + placed, next + |placed|, WithNewClade(clades, id, 0, genome, 0, |placed|), id + 1)
  {
    hide People, Settlers, Sprouted, IsValid, Tally, Foundlings;
    if placed == [] {
      assert os + placed == os;
      NextCladeGrows(rules, os, next, clades, id);
    } else {
      var young := Young(placed);
      YoungSprout(rules, rng, cells, placed, next, lineage, id, genome);
      forall c: nat | c < Cells(rules.size)
        ensures Tally(os + young, InCell(c)) == Tally(os + placed, InCell(c)) == occ[c]
      {
        TallySame(os + placed, os + young, InCell(c));
      }
      FoundingKeepsPeople(rules, cells, os, young, next, lineage, clades, NewClade(id, 0, genome, 0, |placed|));
      YoungBodies(rules, os, placed, next + |placed|, WithNewClade(clades, id, 0, genome, 0, |placed|), id + 1);
    }
  }

  lemma YoungBodies(rules: Ruleset, os: seq<Organism>, placed: seq<Organism>, next: nat, clades: map<nat, Clade>, nextClade: nat)
    requires People(rules, os + Young(placed), next, clades, nextClade)
    requires forall c :: 0 <= c < Cells(rules.size) ==> Tally(os + placed, InCell(c)) <= rules.maxPerCell
    ensures People(rules, os + placed, next, clades, nextClade)
  {
    hide People, Tally;
    PeopleEnergies(rules, os + Young(placed), next, clades, nextClade);
    var a, b := os + Young(placed), os + placed;
    forall i | 0 <= i < |a|
      ensures b[i] == a[i].(age := b[i].age)
    {
    }
    ChangedBodiesKeep(rules, a, b, next, clades, nextClade);
  }

  lemma PeopleEnergies(rules: Ruleset, os: seq<Organism>, next: nat, clades: map<nat, Clade>, nextClade: nat)
    requires People(rules, os, next, clades, nextClade)
    ensures forall i :: 0 <= i < |os| ==> 0 < os[i].energy <= rules.energyMax
  {
  }

  lemma SettlersCohere(rules: Ruleset, rng: Rng, cells: seq<Cell>, os: seq<Organism>, placed: seq<Organism>, next: nat,
      lineage: nat, clades: map<nat, Clade>, id: nat, genome: Genome)
    requires rules.senescenceStart > 0 && Settlers(rules, rng, cells, placed, next, lineage, id, genome)
    requires Numbered(clades, id) && Cohesive(rules, os, clades) && ReferencesValid(rules, clades)
    requires IsValid(genome, rules.traitBudget)
    ensures Cohesive(rules, os + placed, WithNewClade(clades, id, 0, genome, 0, |placed|))
    ensures ReferencesValid(rules, WithNewClade(clades, id, 0, genome, 0, |placed|))
    ensures Numbered(WithNewClade(clades, id, 0, genome, 0, |placed|), id + 1)
  {
    hide IsValid, Distance, Below;
    FounderIsClose(rules, genome);
  }

  // ---- The beginning ----

  /** What holds of the founders placed so far: they are a people as long as they are not too many. */
  ghost predicate Peopling(rules: Ruleset, cells: seq<Cell>, occ: seq<nat>, limit: nat, f: Folk) {
    && Counted(occ, f.os, |cells|) && (forall c :: 0 <= c < |occ| ==> occ[c] <= limit)
    && AllStand(cells, f.os) && f.next > 0 && Numbered(f.clades, f.nextClade)
    && Cohesive(rules, f.os, f.clades) && ReferencesValid(rules, f.clades)
    && (|f.os| <= rules.maxOrganisms ==> People(rules, f.os, f.next, f.clades, f.nextClade))
  }

  lemma PeoplingNext(rules: Ruleset, rng: Rng, cells: seq<Cell>, occ: seq<nat>, limit: nat, f: Folk, f': Folk,
      placed: seq<Organism>, lineage: nat, genome: Genome, occ': seq<nat>)
    requires rules.senescenceStart > 0 && limit <= rules.maxPerCell && |cells| == Cells(rules.size)
    requires Peopling(rules, cells, occ, limit, f) && IsValid(genome, rules.traitBudget)
    requires Settling(rules, rng, cells, occ', limit, f.os, f.next, placed, lineage, f.nextClade, genome)
    requires f' == Folk(f.os + placed, f.next + |placed|, WithNewClade(f.clades, f.nextClade, 0, genome, 0, |placed|),
      f.nextClade + 1)
    ensures Peopling(rules, cells, occ', limit, f')
  {
    hide People, Settlers, IsValid, Cohesive, ReferencesValid, Numbered, Counted, AllStand, WithNewClade, Foundlings;
    SettlersCohere(rules, rng, cells, f.os, placed, f.next, lineage, f.clades, f.nextClade, genome);
    YoungSprout(rules, rng, cells, placed, f.next, lineage, f.nextClade, genome);
    FoundlingsStand(cells, f.os, f.next, placed);
    if |f'.os| <= rules.maxOrganisms {
      SettlersJoin(rules, rng, cells, f.os, placed, f.next, lineage, f.clades, f.nextClade, genome, occ', limit);
    }
  }

  /** How many founders the first k lineages can have. */
  function Most(rules: Ruleset, k: nat): nat {
    k * rules.organismsPerLineage
  }

  lemma MostGrows(rules: Ruleset, k: nat)
    ensures Most(rules, k + 1) == Most(rules, k) + rules.organismsPerLineage && Most(rules, 0) == 0
  {
  }

  lemma MostInAll(rules: Ruleset, k: nat)
    requires k <= |rules.founders|
    ensures Most(rules, k) <= Most(rules, |rules.founders|)
  {
    MulMonotone(k, |rules.founders|, rules.organismsPerLineage);
  }

  /** Founders in the world's order, the lineages on the plates in turn. */
  method Populate(w: World, rules: Ruleset, rng: Rng, plates: seq<nat>, plateCount: nat)
    requires Sound(rules) && rules.senescenceStart > 0 && plateCount > 0 && w.epoch == 0
    requires |w.cells| == |plates| == Cells(rules.size)
    requires w.organisms == [] && w.nextOrganismId == 1 && w.clades == map[]
    modifies w`organisms, w`nextOrganismId, w`clades, w`nextCladeId, w`births
    ensures |w.organisms| <= rules.maxOrganisms ==> People(rules, w.organisms, w.nextOrganismId, w.clades, w.nextCladeId)
    ensures AllStand(w.cells, w.organisms) && w.nextOrganismId > 0
    ensures Cohesive(rules, w.organisms, w.clades) && ReferencesValid(rules, w.clades)
    ensures |w.organisms| <= Most(rules, |rules.founders|)
  {
    hide Sound, People, IsValid, Cohesive, ReferencesValid, Counted, BestStart, Peopling, Most;
    MostGrows(rules, 0);
    var limit: nat := if rules.maxPerCell < 2 then rules.maxPerCell else 2;
    var occ := seq(|w.cells|, _ => 0);
    NobodyYet(rules, w.cells, occ, limit, w.nextCladeId);
    for k := 0 to |rules.founders|
      invariant Peopling(rules, w.cells, occ, limit, FolkOf(w))
      invariant |w.organisms| <= Most(rules, k)
    {
      FounderFine(rules, k);
      var site := ChooseStart(rules.size, w.cells, plates, rules.founders[k].biome, k % plateCount, rng, k);
      if site == None {
        MostInAll(rules, k);
        break;
      }
      MostGrows(rules, k);
      occ := SettleLineage(w, rules, rng, occ, limit, site.value, k);
    }
    PeoplingCounts(rules, w.cells, occ, limit, FolkOf(w));
  }

  /** A lineage settles around its site and founds a clade, if anyone found room. */
  method SettleLineage(w: World, rules: Ruleset, rng: Rng, occ: seq<nat>, limit: nat, site: nat, k: nat)
    returns (occ': seq<nat>)
    requires rules.senescenceStart > 0 && w.epoch == 0 && limit <= rules.maxPerCell && k < |rules.founders|
    requires site < |w.cells| == Cells(rules.size) && IsValid(rules.founders[k].genome, rules.traitBudget)
    requires Peopling(rules, w.cells, occ, limit, FolkOf(w))
    modifies w`organisms, w`nextOrganismId, w`clades, w`nextCladeId, w`births
    ensures Peopling(rules, w.cells, occ', limit, FolkOf(w))
    ensures |w.organisms| <= |old(w.organisms)| + rules.organismsPerLineage
  {
    hide People, IsValid, Counted, Settling, WithNewClade, RingsFull, Peopling;
    ghost var f := FolkOf(w);
    PeoplingCounts(rules, w.cells, occ, limit, f);
    var cladeId, genome := w.nextCladeId, rules.founders[k].genome;
    w.nextCladeId := w.nextCladeId + 1;
    var placed;
    occ', placed := Rings(w, rules, rng, occ, limit, site, rules.organismsPerLineage, k + 1, cladeId, genome);
    if placed != [] {
      w.clades := w.clades[cladeId := NewClade(cladeId, 0, genome, 0, |placed|)];
    }
    WithSome(f.clades, cladeId, genome, |placed|);
    PeoplingNext(rules, rng, w.cells, occ, limit, f, FolkOf(w), placed, k + 1, genome, occ');
  }

  lemma WithSome(clades: map<nat, Clade>, id: nat, genome: Genome, living: nat)
    ensures WithNewClade(clades, id, 0, genome, 0, living)
      == if living > 0 then clades[id := NewClade(id, 0, genome, 0, living)] else clades
  {
  }

  lemma PeoplingCounts(rules: Ruleset, cells: seq<Cell>, occ: seq<nat>, limit: nat, f: Folk)
    requires Peopling(rules, cells, occ, limit, f)
    ensures Counted(occ, f.os, |cells|) && (forall c :: 0 <= c < |occ| ==> occ[c] <= limit)
    ensures AllStand(cells, f.os) && f.next > 0
    ensures Cohesive(rules, f.os, f.clades) && ReferencesValid(rules, f.clades)
    ensures |f.os| <= rules.maxOrganisms ==> People(rules, f.os, f.next, f.clades, f.nextClade)
  {
    hide Counted, AllStand, Cohesive, ReferencesValid, People;
  }

  lemma FounderFine(rules: Ruleset, k: nat)
    requires Sound(rules) && k < |rules.founders|
    ensures IsValid(rules.founders[k].genome, rules.traitBudget) && IsLand(rules.founders[k].biome)
  {
  }

  lemma NobodyYet(rules: Ruleset, cells: seq<Cell>, occ: seq<nat>, limit: nat, nextClade: nat)
    requires Sound(rules) && |occ| == |cells| && forall c :: 0 <= c < |occ| ==> occ[c] == 0
    ensures Peopling(rules, cells, occ, limit, Folk([], 1, map[], nextClade))
  {
    hide Sound;
  }

  /** The schedule runs along every boundary between plates, phases in order, and ends on the last bridge day. */
  ghost predicate Planned(rules: Ruleset, biomes: seq<Biome>, plates: seq<nat>, rifts: seq<Rift>) {
    && |biomes| == |plates| == Cells(rules.size)
    && (forall i: nat :: i < |biomes| ==> (OnRift(rifts, i) <==> LiesOnRift(rules.size, biomes, plates, i)))
    && (forall k :: 0 <= k < |rifts| ==> rifts[k].cell < |biomes|)
    && (forall k :: 0 <= k < |rifts| ==> rifts[k].faultEpoch <= rifts[k].shallowsEpoch <= rifts[k].deepEpoch)
    && (forall k :: 0 <= k < |rifts| ==> rifts[k].deepEpoch <= Day(rules, rules.rifts.bridgesToDay))
    && (forall j, k :: 0 <= j < k < |rifts| ==> rifts[j].cell < rifts[k].cell)
  }

  method PlanRifts(rules: Ruleset, rng: Rng, biomes: seq<Biome>, plates: seq<nat>, sites: seq<nat>) returns (rifts: seq<Rift>)
    requires Validated(rules) && |biomes| == |plates| == Cells(rules.size)
    ensures Planned(rules, biomes, plates, rifts)
  {
    hide Validated, LiesOnRift, ByTheOcean, Searched, IsDeepest, OnRift, Scheduled, Charted, CloseAt, Day;
    ghost var sea, dist, deepest, order, close;
    rifts, sea, dist, deepest, order, close := Plan(rules, rng, biomes, plates, sites);
    forall k | 0 <= k < |rifts|
      ensures rifts[k].cell < |biomes| && rifts[k].faultEpoch <= rifts[k].shallowsEpoch <= rifts[k].deepEpoch
      ensures rifts[k].deepEpoch <= Day(rules, rules.rifts.bridgesToDay)
    {
      ScheduleInOrder(rules, sea, sites, dist, deepest, order, close, rifts[k], rifts[k]);
      DeepByLastDay(rules, sea, sites, dist, deepest, order, close, rifts[k]);
      ScheduledOnMap(rules, sea, sites, dist, deepest, close, rifts[k]);
    }
  }

  lemma ScheduledOnMap(rules: Ruleset, sea: Sea, sites: seq<nat>, dist: seq<Option<nat>>, deepest: nat, close: seq<nat>, r: Rift)
    requires Validated(rules) && Scheduled(rules, sea, sites, dist, deepest, close, r)
    ensures r.cell < |sea.open|
  {
  }

  /** A world at its beginning: check_invariants accepts it exactly when the founders are not too many, and then
      every run of epochs will be accepted. */
  method Begin(rules: Ruleset, rng: Rng, biomes: seq<Biome>, plates: seq<nat>, plateCount: nat, sites: seq<nat>)
    returns (w: World)
    requires Sound(rules) && rules.senescenceStart > 0 && plateCount > 0
    requires |biomes| == |plates| == Cells(rules.size)
    ensures fresh(w) && w.epoch == 0 && Ground(w.cells) == biomes && Planned(rules, biomes, plates, w.rifts)
    ensures Steady(w, rules) <==> |w.organisms| <= rules.maxOrganisms
    ensures |w.organisms| <= Most(rules, |rules.founders|)
    ensures Viable(rules, OutlookOf(w)) && DeepIsWater(w.cells) && Cohesive(rules, w.organisms, w.clades)
  {
    hide Sound, Validated, People, CellsFine, RiftsFine, AllStand, Cohesive, ReferencesValid, Planned, Cracked, DeepIsWater,
      Steady;
    SoundIsValidated(rules);
    w := new World(rules.size);
    w.rifts := PlanRifts(rules, rng, biomes, plates, sites);
    PlannedShape(rules, biomes, plates, w.rifts);
    CrackCells(w, rules, biomes, w.rifts);
    CrackedFine(rules, biomes, w.rifts, w.cells);
    w.sporeBank := rules.founders;
    Populate(w, rules, rng, plates, plateCount);
    FoundersValid(rules);
    PeopleFew(rules, w.organisms, w.nextOrganismId, w.clades, w.nextCladeId);
    SteadyIsPeopleOnGround(w, rules);
  }

  lemma PlannedShape(rules: Ruleset, biomes: seq<Biome>, plates: seq<nat>, rifts: seq<Rift>)
    requires Planned(rules, biomes, plates, rifts)
    ensures forall k :: 0 <= k < |rifts| ==> rifts[k].cell < |biomes|
    ensures forall k :: 0 <= k < |rifts| ==> rifts[k].faultEpoch <= rifts[k].shallowsEpoch <= rifts[k].deepEpoch
    ensures forall j, k :: 0 <= j < k < |rifts| ==> rifts[j].cell < rifts[k].cell
  {
    hide LiesOnRift, OnRift;
  }

  lemma FoundersValid(rules: Ruleset)
    requires Sound(rules)
    ensures SporesValid(rules, rules.founders)
  {
  }

  lemma PeopleFew(rules: Ruleset, os: seq<Organism>, next: nat, clades: map<nat, Clade>, nextClade: nat)
    ensures People(rules, os, next, clades, nextClade) ==> |os| <= rules.maxOrganisms
  {
  }
}
