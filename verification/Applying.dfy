/** Applying miracles, core/src/miracle.rs:602-736: rain and drought, relocations, revivals. */
module Applying {
  import opened Acts
  import opened Cohesion
  import opened Environment
  import opened Events
  import opened Genomes
  import opened Grid
  import opened Hashing
  import opened Kinship
  import opened Herd
  import opened Miracles
  import opened Options
  import opened Revivals
  import opened Rifting
  import opened Steadiness
  import opened TickState
  import opened WorldState

  // ---- Weather ----

  function Watered(rules: Ruleset, rain: bool, c: Cell): Cell {
    c.(moisture :=
      if rain then (if c.moisture + rules.miracles.weatherMoisture < 100 then c.moisture + rules.miracles.weatherMoisture else 100)
      else if c.moisture > rules.miracles.weatherMoisture then c.moisture - rules.miracles.weatherMoisture else 0)
  }

  function WeatherOf(rules: Ruleset, center: nat, rain: bool): Effect {
    Effect(if rain then Rain else Dry, center, rules.miracles.weatherRadius, rules.miracles.weatherTicks)
  }

  function CeilDiv(a: nat, b: nat): nat
    requires b > 0
  {
    (a + b - 1) / b
  }

  function WeatherRest(rules: Ruleset, center: nat, epoch: nat): Cooldown
    requires rules.ticksPerEpoch > 0
  {
    Cooldown(WeatherCooldown, center,
      epoch + CeilDiv(rules.miracles.weatherTicks, rules.ticksPerEpoch) + rules.miracles.cooldownEpochs)
  }

  /** Rain adds moisture up to the most a cell holds, dry weather takes it down to none. */
  lemma WateredExactly(rules: Ruleset, c: Cell)
    requires c.moisture <= 100
    ensures var wet, dry := Watered(rules, true, c), Watered(rules, false, c);
      && wet == c.(moisture := wet.moisture) && dry == c.(moisture := dry.moisture)
      && c.moisture <= wet.moisture <= 100 && wet.moisture <= c.moisture + rules.miracles.weatherMoisture
      && (wet.moisture == 100 || wet.moisture == c.moisture + rules.miracles.weatherMoisture)
      && dry.moisture <= c.moisture <= dry.moisture + rules.miracles.weatherMoisture
      && (dry.moisture == 0 || dry.moisture + rules.miracles.weatherMoisture == c.moisture)
  {
  }

  /** Weather makes one effect and rests until the epochs it reaches into, and those of the cooldown, are over. */
  lemma WeatherExactly(rules: Ruleset, center: nat, rain: bool, epoch: nat)
    requires rules.ticksPerEpoch > 0
    ensures var e, c := WeatherOf(rules, center, rain), WeatherRest(rules, center, epoch);
      var lasts := c.until - epoch - rules.miracles.cooldownEpochs;
      && (e.kind == Rain <==> rain) && (e.kind == Dry <==> !rain) && e.center == center
      && e.radius == rules.miracles.weatherRadius && e.remainingTicks == rules.miracles.weatherTicks
      && c.kind == 0 && c.key == center
      && rules.ticksPerEpoch * lasts >= rules.miracles.weatherTicks > rules.ticksPerEpoch * (lasts - 1)
  {
    CeilExactly(rules.miracles.weatherTicks, rules.ticksPerEpoch);
  }

  lemma CeilExactly(a: nat, b: nat)
    requires b > 0
    ensures b * CeilDiv(a, b) >= a > b * (CeilDiv(a, b) - 1)
  {
    var q := CeilDiv(a, b);
    assert a + b - 1 == q * b + (a + b - 1) % b;
    assert b * (q - 1) == b * q - b;
  }

  /** A relocated clade rests for the epochs of the cooldown, a revived genome for a day. */
  lemma RestsExactly(rules: Ruleset, id: nat, epoch: nat)
    ensures var c := MigrateRest(rules, id, epoch);
      c.kind == 1 && c.key == id && c.until - rules.miracles.cooldownEpochs == epoch
    ensures var c := ReviveRest(rules, true, id, epoch); c.kind == 2 && c.key == id && c.until - rules.epochsPerDay == epoch
    ensures var c := ReviveRest(rules, false, id, epoch); c.kind == 3 && c.key == id && c.until - rules.epochsPerDay == epoch
  {
  }

  /** Exactly the cells of the square are watered or dried. */
  ghost predicate WateredBy(rules: Ruleset, center: nat, rain: bool, cells: seq<Cell>, cells': seq<Cell>) {
    |cells'| == |cells| && forall c: nat :: c < |cells| ==>
      cells'[c] == if Chebyshev(rules.size, center, c) <= rules.miracles.weatherRadius
                   then Watered(rules, rain, cells[c]) else cells[c]
  }

  method WaterCells(w: World, rules: Ruleset, center: nat, rain: bool)
    requires CellsFine(rules, w.cells)
    modifies w`cells
    ensures CellsFine(rules, w.cells) && WateredBy(rules, center, rain, old(w.cells), w.cells)
  {
    hide CellFine, Watered, Chebyshev;
    var before := w.cells;
    var square := SquareOf(rules.size, center, rules.miracles.weatherRadius);
    for k := 0 to |square|
      invariant |w.cells| == |before| && CellsFine(rules, w.cells)
      invariant forall c: nat :: c < |before| ==>
        w.cells[c] == if c in square[..k] then Watered(rules, rain, before[c]) else before[c]
    {
      assert square[k] in square;
      assert square[..k + 1] == square[..k] + [square[k]];
      FreshInOrder(square, k);
      WateredFine(rules, rain, w.cells[square[k]]);
      w.cells := w.cells[square[k] := Watered(rules, rain, w.cells[square[k]])];
    }
    assert square[..|square|] == square;
  }

  method ApplyWeather(w: World, rules: Ruleset, center: nat, rain: bool)
    requires Steady(w, rules) && rules.ticksPerEpoch > 0
    modifies w`cells, w`effects, w`cooldowns
    ensures Steady(w, rules) && SameGround(old(w.cells), w.cells)
    ensures WateredBy(rules, center, rain, old(w.cells), w.cells)
    ensures w.effects == old(w.effects) + [WeatherOf(rules, center, rain)]
    ensures w.cooldowns == old(w.cooldowns) + [WeatherRest(rules, center, w.epoch)]
  {
    hide Steady, Peopled, CellsFine, RiftsFine, AllStand, SameGround, WateredBy, WeatherRest, WeatherOf;
    SteadyIsPeopleOnGround(w, rules);
    var before := w.cells;
    WaterCells(w, rules, center, rain);
    WateredGround(rules, center, rain, before, w.cells);
    w.effects := w.effects + [WeatherOf(rules, center, rain)];
    w.cooldowns := w.cooldowns + [WeatherRest(rules, center, w.epoch)];
    SteadyOnSameGround(w, rules, before);
  }

  lemma InPrefix(s: seq<nat>, n: nat)
    requires n <= |s|
    ensures forall j: nat :: j < n ==> s[j] in s[..n]
  {
    forall j: nat | j < n
      ensures s[j] in s[..n]
    {
      assert s[..n][j] == s[j];
    }
  }

  lemma EarlierInOrder(s: seq<nat>, k: nat)
    requires Increasing(s) && k < |s|
    ensures forall x: nat :: x in s[..k] ==> x < s[k]
  {
  }

  lemma FreshInOrder(s: seq<nat>, k: nat)
    requires Increasing(s) && k < |s|
    ensures s[k] !in s[..k]
  {
  }

  lemma WateredFine(rules: Ruleset, rain: bool, c: Cell)
    requires |rules.biomes| == BIOMES && CellFine(rules, c)
    ensures CellFine(rules, Watered(rules, rain, c))
  {
  }

  lemma WateredGround(rules: Ruleset, center: nat, rain: bool, cells: seq<Cell>, cells': seq<Cell>)
    requires WateredBy(rules, center, rain, cells, cells')
    ensures SameGround(cells, cells')
  {
  }

  lemma WeatherLasts(rules: Ruleset, effects: seq<Effect>, center: nat, rain: bool)
    requires Sound(rules) && Lasting(effects)
    ensures Lasting(effects + [WeatherOf(rules, center, rain)])
  {
  }

  // ---- Relocations ----

  /** The lowest-numbered members near a place, at most `limit` of them. */
  ghost predicate Chosen(size: Size, os: seq<Organism>, id: nat, from: nat, radius: nat, limit: nat, movers: seq<nat>) {
    && Increasing(movers) && |movers| <= limit
    && (forall i: nat :: i in movers ==> i < |os| && IsNear(size, os[i], Some(id), from, radius))
    && (forall i: nat :: i < |os| && IsNear(size, os[i], Some(id), from, radius) && i !in movers ==>
          |movers| == limit && forall k :: 0 <= k < |movers| ==> movers[k] < i)
  }

  method Choose(size: Size, os: seq<Organism>, id: nat, from: nat, radius: nat, limit: nat) returns (movers: seq<nat>)
    ensures Chosen(size, os, id, from, radius, limit, movers)
  {
    hide IsNear;
    var near := CellsWhere(|os|, (i: nat) => i < |os| && IsNear(size, os[i], Some(id), from, radius));
    movers := if |near| <= limit then near else near[..limit];
    InPrefix(near, |movers|);
    forall i: nat | i < |os| && IsNear(size, os[i], Some(id), from, radius) && i !in movers
      ensures |movers| == limit && forall k :: 0 <= k < |movers| ==> movers[k] < i
    {
      assert i in near;
      var j :| 0 <= j < |near| && near[j] == i;
    }
    forall i: nat | i in movers
      ensures i < |os| && IsNear(size, os[i], Some(id), from, radius)
    {
      assert i in near;
    }
  }

  /** The first `moved` movers have each gone to the first land around the target that had room when its turn
      came; nobody else has moved. */
  ghost predicate Relocated(rules: Ruleset, cells: seq<Cell>, before: seq<Organism>, after: seq<Organism>, movers: seq<nat>,
      moved: nat, to: nat)
  {
    && |after| == |before| && moved <= |movers|
    && (forall i: nat :: i < |before| && i !in movers[..moved] ==> after[i] == before[i])
    && (forall k :: 0 <= k < moved ==> movers[k] < |before| && Landed(rules, cells, before, after, movers[k], to))
  }

  ghost predicate Landed(rules: Ruleset, cells: seq<Cell>, before: seq<Organism>, after: seq<Organism>, i: nat, to: nat)
    requires i < |before| == |after|
  {
    && after[i] == before[i].(cell := after[i].cell)
    && FirstLandFor(rules, cells, Meanwhile(before, after, i), to, Some(after[i].cell))
  }

  /** The first land around the target with room, as these organisms stand. */
  ghost predicate FirstLandFor(rules: Ruleset, cells: seq<Cell>, os: seq<Organism>, to: nat, site: Option<nat>) {
    exists occ :: Counted(occ, os, |cells|) && FirstLand(rules, cells, occ, to, site)
  }

  lemma RelocatedNext(rules: Ruleset, cells: seq<Cell>, before: seq<Organism>, after: seq<Organism>, movers: seq<nat>,
      moved: nat, to: nat, cell: nat)
    requires Relocated(rules, cells, before, after, movers, moved, to) && Increasing(movers) && moved < |movers|
    requires movers[moved] < |before| && FirstLandFor(rules, cells, after, to, Some(cell))
    ensures after[movers[moved]] == before[movers[moved]]
    ensures Relocated(rules, cells, before, after[movers[moved] := after[movers[moved]].(cell := cell)], movers, moved + 1, to)
  {
    hide FirstLandFor;
    var i := movers[moved];
    FreshInOrder(movers, moved);
    var after' := after[i := after[i].(cell := cell)];
    assert movers[..moved + 1] == movers[..moved] + [i];
    assert Meanwhile(before, after', i) == after by {
      EarlierInOrder(movers, moved);
    }
    forall k | 0 <= k < moved
      ensures Landed(rules, cells, before, after', movers[k], to)
    {
      assert Landed(rules, cells, before, after, movers[k], to);
      assert Meanwhile(before, after', movers[k]) == Meanwhile(before, after, movers[k]);
    }
  }

  /** Counting again after organism i has moved. */
  lemma RecountMove(occ: seq<nat>, os: seq<Organism>, i: nat, to: nat)
    requires Counted(occ, os, |occ|) && i < |os| && os[i].cell < |occ| && to < |occ|
    ensures occ[os[i].cell] >= 1
    ensures var left := occ[os[i].cell := occ[os[i].cell] - 1];
      Counted(left[to := left[to] + 1], os[i := os[i].(cell := to)], |occ|)
  {
    hide Tally, Count;
    var alive := AllAlive(|os|);
    var os' := os[i := os[i].(cell := to)];
    forall c | 0 <= c < |occ|
      ensures occ[c] == Count(os, alive, InCell(c))
    {
      CountAllAlive(os, alive, InCell(c));
    }
    VacateKeeps(occ, os, alive, i);
    var left := occ[os[i].cell := occ[os[i].cell] - 1];
    SettleKeeps(left, os, alive[i := false], i, to);
    assert alive[i := false][i := true] == alive;
    forall c | 0 <= c < |occ|
      ensures left[to := left[to] + 1][c] == Tally(os', InCell(c))
    {
      CountAllAlive(os', alive, InCell(c));
    }
  }

  lemma FirstLandHasRoom(rules: Ruleset, cells: seq<Cell>, occ: seq<nat>, os: seq<Organism>, to: nat, site: Option<nat>)
    requires Counted(occ, os, |cells|) && FirstLand(rules, cells, occ, to, site)
    ensures FirstLandFor(rules, cells, os, to, site)
    ensures site.Some? ==> site.value < |occ| && occ[site.value] < rules.maxPerCell
    ensures site.Some? ==> cells[site.value].biome != DeepWater
  {
    hide Counted;
    assert Counted(occ, os, |cells|) && FirstLand(rules, cells, occ, to, site);
  }

  /** Who has moved is still a people on the same ground. */
  lemma RelocatedKeepPeople(rules: Ruleset, cells: seq<Cell>, before: seq<Organism>, after: seq<Organism>,
      movers: seq<nat>, moved: nat, to: nat, occ: seq<nat>, next: nat, clades: map<nat, Clade>, nextClade: nat)
    requires People(rules, before, next, clades, nextClade) && AllStand(cells, before) && |cells| == Cells(rules.size)
    requires Relocated(rules, cells, before, after, movers, moved, to)
    requires Counted(occ, after, |cells|) && Roomy(rules, occ)
    ensures People(rules, after, next, clades, nextClade) && AllStand(cells, after)
  {
    hide People, Tally, FirstLand, Chebyshev, Meanwhile, IsValid;
    forall i | 0 <= i < |before|
      ensures after[i] == before[i].(cell := after[i].cell) && Stands(cells, after[i])
    {
      RelocatedStands(rules, cells, before, after, movers, moved, to, i);
    }
    PeopleBodies(rules, before, next, clades, nextClade);
    ChangedBodiesKeep(rules, before, after, next, clades, nextClade);
  }

  lemma PeopleBodies(rules: Ruleset, os: seq<Organism>, next: nat, clades: map<nat, Clade>, nextClade: nat)
    requires People(rules, os, next, clades, nextClade)
    ensures forall i :: 0 <= i < |os| ==> 0 < os[i].energy <= rules.energyMax
  {
  }

  lemma RelocatedSameKin(rules: Ruleset, cells: seq<Cell>, before: seq<Organism>, after: seq<Organism>,
      movers: seq<nat>, moved: nat, to: nat)
    requires Relocated(rules, cells, before, after, movers, moved, to)
    ensures SameKin(before, after)
  {
    hide FirstLandFor;
    forall i: nat | i < |before|
      ensures after[i].cladeId == before[i].cladeId && after[i].genome == before[i].genome
    {
      if i in movers[..moved] {
        var k :| 0 <= k < moved && movers[k] == i;
        assert Landed(rules, cells, before, after, movers[k], to);
      }
    }
  }

  lemma RelocatedStands(rules: Ruleset, cells: seq<Cell>, before: seq<Organism>, after: seq<Organism>,
      movers: seq<nat>, moved: nat, to: nat, i: nat)
    requires Relocated(rules, cells, before, after, movers, moved, to) && AllStand(cells, before) && i < |before|
    ensures after[i] == before[i].(cell := after[i].cell) && Stands(cells, after[i])
  {
    hide Counted, Chebyshev, Meanwhile;
    if i in movers[..moved] {
      var k :| 0 <= k < moved && movers[k] == i;
      assert Landed(rules, cells, before, after, movers[k], to);
      var occ :| Counted(occ, Meanwhile(before, after, i), |cells|)
        && FirstLand(rules, cells, occ, to, Some(after[i].cell));
    } else {
      assert Stands(cells, before[i]);
    }
  }

  /** Movers go one by one, until there is no more room. */
  method MoveThem(w: World, rules: Ruleset, movers: seq<nat>, to: nat) returns (moved: nat)
    requires Steady(w, rules) && Increasing(movers) && forall k :: 0 <= k < |movers| ==> movers[k] < |w.organisms|
    modifies w`organisms
    ensures Steady(w, rules) && Relocated(rules, w.cells, old(w.organisms), w.organisms, movers, moved, to)
    ensures moved < |movers| ==> FirstLandFor(rules, w.cells, w.organisms, to, None)
  {
    hide Steady, People, CellsFine, RiftsFine, AllStand, Counted, Roomy, LandAround, FirstLand, FirstLandFor,
      Relocated, Increasing, Stands;
    SteadyIsPeopleOnGround(w, rules);
    var before := w.organisms;
    StandingInRange(w.cells, before);
    var occ := Occupancy(before, |w.cells|);
    RoomyAtFirst(w, rules, occ);
    var targets := Targets(w, rules, to);
    moved := 0;
    NobodyRelocated(rules, w.cells, before, movers, to);
    while moved < |movers|
      invariant moved <= |movers| && |w.organisms| == |before|
      invariant Relocated(rules, w.cells, before, w.organisms, movers, moved, to)
      invariant Counted(occ, w.organisms, |w.cells|) && Roomy(rules, occ)
    {
      var i := movers[moved];
      CountedLength(occ, w.organisms, |w.cells|);
      var site := FirstRoom(w, rules, occ, to, targets);
      FirstLandHasRoom(rules, w.cells, occ, w.organisms, to, site);
      if site == None {
        break;
      }
      RelocatedNext(rules, w.cells, before, w.organisms, movers, moved, to, site.value);
      RecountMove(occ, w.organisms, i, site.value);
      RoomyMove(rules, occ, w.organisms[i].cell, site.value);
      occ := occ[w.organisms[i].cell := occ[w.organisms[i].cell] - 1];
      occ := occ[site.value := occ[site.value] + 1];
      w.organisms := w.organisms[i := w.organisms[i].(cell := site.value)];
      moved := moved + 1;
    }
    RelocatedKeepPeople(rules, w.cells, before, w.organisms, movers, moved, to, occ, w.nextOrganismId, w.clades, w.nextCladeId);
    SteadyIsPeopleOnGround(w, rules);
  }

  lemma NobodyRelocated(rules: Ruleset, cells: seq<Cell>, before: seq<Organism>, movers: seq<nat>, to: nat)
    ensures Relocated(rules, cells, before, before, movers, 0, to)
  {
  }

  lemma RoomyMove(rules: Ruleset, occ: seq<nat>, from: nat, to: nat)
    requires Roomy(rules, occ) && from < |occ| && to < |occ| && occ[from] >= 1 && occ[to] < rules.maxPerCell
    ensures var left := occ[from := occ[from] - 1]; Roomy(rules, left[to := left[to] + 1])
  {
  }

  function MigrateRest(rules: Ruleset, id: nat, epoch: nat): Cooldown {
    Cooldown(MigrateCooldown, id, epoch + rules.miracles.cooldownEpochs)
  }

  /** The lowest ids near the source move to the land around the target, as far as there is room. */
  method ApplyMigrate(w: World, rules: Ruleset, id: nat, from: nat, to: nat)
    returns (ghost movers: seq<nat>, ghost moved: nat)
    requires Steady(w, rules)
    modifies w`organisms, w`cooldowns
    ensures Steady(w, rules)
    ensures Chosen(rules.size, old(w.organisms), id, from, rules.miracles.migrateRadius, rules.miracles.migrateMoved, movers)
    ensures Relocated(rules, w.cells, old(w.organisms), w.organisms, movers, moved, to)
    ensures moved < |movers| ==> FirstLandFor(rules, w.cells, w.organisms, to, None)
    ensures w.cooldowns == old(w.cooldowns) + [MigrateRest(rules, id, w.epoch)]
  {
    hide Steady, Increasing, IsNear, FirstLandFor, Relocated, Chosen, People, CellsFine, RiftsFine, AllStand;
    var chosen := Choose(rules.size, w.organisms, id, from, rules.miracles.migrateRadius, rules.miracles.migrateMoved);
    ChosenInOrder(rules.size, w.organisms, id, from, rules.miracles.migrateRadius, rules.miracles.migrateMoved, chosen);
    movers := chosen;
    moved := MoveThem(w, rules, chosen, to);
    SteadyIsPeopleOnGround(w, rules);
    w.cooldowns := w.cooldowns + [MigrateRest(rules, id, w.epoch)];
    SteadyIsPeopleOnGround(w, rules);
  }

  lemma ChosenInOrder(size: Size, os: seq<Organism>, id: nat, from: nat, radius: nat, limit: nat, movers: seq<nat>)
    requires Chosen(size, os, id, from, radius, limit, movers)
    ensures Increasing(movers) && forall k :: 0 <= k < |movers| ==> movers[k] < |os|
  {
    hide IsNear;
    forall k | 0 <= k < |movers|
      ensures movers[k] < |os|
    {
      assert movers[k] in movers;
    }
  }

  // ---- Revivals ----

  /** Each sprout took the first land with room around the start; there are fewer than asked for only when the
      world or the land was full. */
  ghost predicate Planted(rules: Ruleset, cells: seq<Cell>, before: seq<Organism>, placed: seq<Organism>, count: nat, at: nat) {
    && |placed| <= count && PlantedInTurn(rules, cells, before, placed, at)
    && (|placed| < count ==>
          |before| + |placed| >= rules.maxOrganisms || FirstLandFor(rules, cells, before + placed, at, None))
  }

  ghost predicate PlantedInTurn(rules: Ruleset, cells: seq<Cell>, before: seq<Organism>, placed: seq<Organism>, at: nat) {
    forall k :: 0 <= k < |placed| ==> FirstLandFor(rules, cells, before + placed[..k], at, Some(placed[k].cell))
  }

  lemma PlantedNext(rules: Ruleset, cells: seq<Cell>, before: seq<Organism>, placed: seq<Organism>, at: nat, o: Organism)
    requires PlantedInTurn(rules, cells, before, placed, at)
    requires FirstLandFor(rules, cells, before + placed, at, Some(o.cell))
    ensures PlantedInTurn(rules, cells, before, placed + [o], at)
  {
    hide FirstLandFor;
    var all := placed + [o];
    forall k | 0 <= k < |all|
      ensures FirstLandFor(rules, cells, before + all[..k], at, Some(all[k].cell))
    {
      if k < |placed| {
        assert all[..k] == placed[..k];
      } else {
        assert all[..k] == placed;
      }
    }
  }

  /** One more sprout on the first land with room. */
  lemma PlantedCounts(rules: Ruleset, cells: seq<Cell>, occ: seq<nat>, os: seq<Organism>, at: nat, o: Organism)
    requires Counted(occ, os, |cells|) && Roomy(rules, occ) && FirstLand(rules, cells, occ, at, Some(o.cell))
    ensures o.cell < |cells| == |occ| && IsLand(cells[o.cell].biome)
    ensures Counted(occ[o.cell := occ[o.cell] + 1], os + [o], |cells|) && Roomy(rules, occ[o.cell := occ[o.cell] + 1])
  {
    hide Tally;
    CountedNext(occ, os, o);
  }

  method Plant(w: World, rules: Ruleset, at: nat, cladeId: nat, genome: Genome) returns (occ: seq<nat>, placed: seq<Organism>)
    requires Peopled(w, rules) && CellsFine(rules, w.cells) && AllStand(w.cells, w.organisms)
    modifies w`organisms, w`nextOrganismId, w`births
    ensures w.births == Added(old(w.births), placed)
    ensures w.organisms == old(w.organisms) + placed && w.nextOrganismId == old(w.nextOrganismId) + |placed|
    ensures Sprouted(rules, w.cells, placed, old(w.nextOrganismId), 0, cladeId, genome)
    ensures Planted(rules, w.cells, old(w.organisms), placed, rules.miracles.reviveCount, at)
    ensures Counted(occ, w.organisms, Cells(rules.size)) && Roomy(rules, occ) && |w.organisms| <= rules.maxOrganisms
  {
    hide People, CellsFine, AllStand, Counted, Roomy, LandAround, FirstLand, FirstLandFor, Sprouted, Sprout,
      PlantedInTurn, Added, BirthOf;
    AddedNone(w.births);
    var before, next, cells := w.organisms, w.nextOrganismId, w.cells;
    StandingInRange(cells, before);
    occ := Occupancy(before, |cells|);
    RoomyAtFirst(w, rules, occ);
    var sites := Targets(w, rules, at);
    placed := [];
    SproutedNone(rules, cells, next, 0, cladeId, genome);
    NothingPlanted(rules, cells, before, at);
    assert before + [] == before;
    for n := 0 to rules.miracles.reviveCount
      invariant w.organisms == before + placed && w.nextOrganismId == next + |placed| && |placed| == n
      invariant w.births == Added(old(w.births), placed)
      invariant |w.organisms| <= rules.maxOrganisms && Counted(occ, w.organisms, |cells|) && Roomy(rules, occ)
      invariant Sprouted(rules, cells, placed, next, 0, cladeId, genome) && PlantedInTurn(rules, cells, before, placed, at)
    {
      if |w.organisms| >= rules.maxOrganisms {
        return;
      }
      CountedLength(occ, w.organisms, |cells|);
      var site := FirstRoom(w, rules, occ, at, sites);
      FirstLandHasRoom(rules, cells, occ, w.organisms, at, site);
      if site == None {
        return;
      }
      var id := w.nextOrganismId;
      var o := Sprout(rules, id, 0, cladeId, site.value, genome);
      SproutStands(rules, id, 0, cladeId, site.value, genome);
      PlantedCounts(rules, cells, occ, w.organisms, at, o);
      PlantedNext(rules, cells, before, placed, at, o);
      SproutedNext(rules, cells, placed, next, 0, cladeId, genome, site.value);
      occ := occ[site.value := occ[site.value] + 1];
      AddedOne(old(w.births), placed, o);
      Enlist(w, o);
      assert before + placed + [o] == before + (placed + [o]);
      placed := placed + [o];
    }
  }

  lemma NothingPlanted(rules: Ruleset, cells: seq<Cell>, before: seq<Organism>, at: nat)
    ensures PlantedInTurn(rules, cells, before, [], at)
  {
  }

  lemma {:induction false} EntryIsThere(rules: Ruleset, museum: seq<MuseumEntry>, id: nat)
    requires MuseumValid(rules, museum) && EntryOf(museum, id).Some?
    ensures IsValid(EntryOf(museum, id).value.reference, rules.traitBudget) && EntryOf(museum, id).value.cladeId == id
  {
    if museum[0].cladeId != id {
      EntryIsThere(rules, museum[1..], id);
    }
  }

  /** A revived genome spends the budget and is at most two steps from the one that was kept. */
  lemma RevivedIsValid(rules: Ruleset, epoch: nat, museum: seq<MuseumEntry>, spores: seq<Founder>, m: Miracle)
    requires MuseumValid(rules, museum) && SporesValid(rules, spores) && m.Revive?
    requires OriginOf(rules, epoch, museum, spores, m.fromMuseum, m.entryId).Found?
    requires EditedGenome(OriginOf(rules, epoch, museum, spores, m.fromMuseum, m.entryId).origin.genome, m.steps).Edited?
    ensures var base := OriginOf(rules, epoch, museum, spores, m.fromMuseum, m.entryId).origin.genome;
      var genome := EditedGenome(base, m.steps).genome;
      IsValid(base, rules.traitBudget) && IsValid(genome, rules.traitBudget) && Distance(base, genome) <= 2
  {
    hide IsValid, EditSteps;
    if m.fromMuseum {
      EntryIsThere(rules, museum, m.entryId);
    }
    var base := OriginOf(rules, epoch, museum, spores, m.fromMuseum, m.entryId).origin.genome;
    EditsStayClose(base, m.steps, rules.traitBudget);
  }

  function ReviveRest(rules: Ruleset, fromMuseum: bool, id: nat, epoch: nat): Cooldown {
    Cooldown(KindOf(fromMuseum), id, epoch + rules.epochsPerDay)
  }

  /** A revival puts nobody down: none is asked for, the world has its number, or the land around is full. */
  ghost predicate NobodyPlanted(rules: Ruleset, cells: seq<Cell>, os: seq<Organism>, at: nat) {
    rules.miracles.reviveCount == 0 || |os| >= rules.maxOrganisms || !RoomAround(rules, cells, os, at)
  }

  lemma PlantedNobody(rules: Ruleset, cells: seq<Cell>, before: seq<Organism>, placed: seq<Organism>, at: nat)
    requires Planted(rules, cells, before, placed, rules.miracles.reviveCount, at)
    requires |before| + |placed| <= rules.maxOrganisms
    ensures placed == [] <==> NobodyPlanted(rules, cells, before, at)
  {
    hide Tally, Chebyshev;
    if placed == [] {
      assert before + placed == before;
      if FirstLandFor(rules, cells, before, at, None) {
        var occ :| Counted(occ, before, |cells|) && FirstLand(rules, cells, occ, at, None);
        forall c: nat | c < |cells| && Chebyshev(rules.size, at, c) <= 1 && IsLand(cells[c].biome)
          ensures Tally(before, InCell(c)) >= rules.maxPerCell
        {
          assert !FreeLand(rules, cells, occ, c);
        }
      }
    } else {
      assert before + placed[..0] == before;
      assert FirstLandFor(rules, cells, before, at, Some(placed[0].cell));
      var occ :| Counted(occ, before, |cells|) && FirstLand(rules, cells, occ, at, Some(placed[0].cell));
      assert Tally(before, InCell(placed[0].cell)) < rules.maxPerCell;
    }
  }

  /** When a possible revival keeps the invariants: it puts nobody down, or its genome is valid and ids do not
      start from zero. */
  ghost predicate ReviveHolds(rules: Ruleset, s: Situation, m: Miracle)
    requires m.Revive?
  {
    Check(rules, s, m) == None && !NobodyPlanted(rules, s.cells, s.organisms, m.at) ==>
      s.nextOrganismId > 0
      && var origin := OriginOf(rules, s.epoch, s.museum, s.sporeBank, m.fromMuseum, m.entryId).origin;
        IsValid(EditedGenome(origin.genome, m.steps).genome, rules.traitBudget)
  }

  /** A stored genome, edited, founds a clade around the start. From any state that check_invariants accepts,
      the world is accepted again exactly when the revival holds. */
  method ApplyRevive(w: World, rules: Ruleset, m: Miracle) returns (ghost placed: seq<Organism>)
    requires Steady(w, rules) && m.Revive? && Check(rules, SituationOf(w), m) == None
    modifies w`organisms, w`nextOrganismId, w`clades, w`nextCladeId, w`cooldowns, w`births
    ensures w.births == Added(old(w.births), placed)
    ensures Steady(w, rules) <==> old(ReviveHolds(rules, SituationOf(w), m))
    ensures w.organisms == old(w.organisms) + placed && w.nextOrganismId == old(w.nextOrganismId) + |placed|
    ensures Planted(rules, w.cells, old(w.organisms), placed, rules.miracles.reviveCount, m.at)
    ensures placed == [] <==> NobodyPlanted(rules, w.cells, old(w.organisms), m.at)
    ensures var origin := OriginOf(rules, w.epoch, w.museum, w.sporeBank, m.fromMuseum, m.entryId);
      && origin.Found? && EditedGenome(origin.origin.genome, m.steps).Edited?
      && var genome := EditedGenome(origin.origin.genome, m.steps).genome;
      && Sprouted(rules, w.cells, placed, old(w.nextOrganismId), 0, old(w.nextCladeId), genome)
      && w.clades == WithNewClade(old(w.clades), old(w.nextCladeId), origin.origin.parent, genome, w.epoch, |placed|)
    ensures w.nextCladeId == if placed == [] then old(w.nextCladeId) else old(w.nextCladeId) + 1
    ensures w.cooldowns == old(w.cooldowns) + [ReviveRest(rules, m.fromMuseum, m.entryId, w.epoch)]
  {
    hide Steady, People, CellsFine, RiftsFine, AllStand, Planted, Sprouted, WithNewClade, NobodyPlanted,
      IsValid, Nearby, KeyCools, EditSteps, Distance, Counted, Roomy, CheckMigrate, CheckWeather, Foundlings, Added;
    SteadyIsPeopleOnGround(w, rules);
    var origin := OriginOf(rules, w.epoch, w.museum, w.sporeBank, m.fromMuseum, m.entryId).origin;
    var genome := EditedGenome(origin.genome, m.steps).genome;
    ghost var os, next, clades, cladeId := w.organisms, w.nextOrganismId, w.clades, w.nextCladeId;
    var occ, planted := Plant(w, rules, m.at, w.nextCladeId, genome);
    FoundClade(w, origin.parent, genome, planted);
    w.cooldowns := w.cooldowns + [ReviveRest(rules, m.fromMuseum, m.entryId, w.epoch)];
    PlantedNobody(rules, w.cells, os, planted, m.at);
    FoundingExact(rules, w.cells, os, planted, next, 0, clades, cladeId, origin.parent, genome, w.epoch, occ);
    SproutsAreFoundlings(rules, w.cells, planted, next, 0, cladeId, genome);
    FoundlingsStand(w.cells, os, next, planted);
    SteadyIsPeopleOnGround(w, rules);
    placed := planted;
  }

  /** An entry that can be revived, as it was stored, whatever is done to it afterwards. */
  ghost predicate Openable(rules: Ruleset, s: Situation, m: Miracle) {
    m.Revive? && m.steps == [] && Check(rules, s, m) == None && !NobodyPlanted(rules, s.cells, s.organisms, m.at)
  }

  function Stored(rules: Ruleset, s: Situation, m: Miracle): OriginResult
    requires m.Revive?
  {
    OriginOf(rules, s.epoch, s.museum, s.sporeBank, m.fromMuseum, m.entryId)
  }

  /** Every possible revival keeps the invariants exactly when every genome that can be revived somewhere is
      valid as it is stored, and ids do not start from zero if there is one. */
  lemma RevivalsHoldExactly(rules: Ruleset, s: Situation)
    ensures (forall m: Miracle :: m.Revive? ==> ReviveHolds(rules, s, m))
      <==> forall m: Miracle :: Openable(rules, s, m) ==> (s.nextOrganismId > 0 && Stored(rules, s, m).Found?
             && IsValid(Stored(rules, s, m).origin.genome, rules.traitBudget))
  {
    hide IsValid, Nearby, KeyCools, NobodyPlanted, Distance;
    if forall m: Miracle :: m.Revive? ==> ReviveHolds(rules, s, m) {
      forall m: Miracle | Openable(rules, s, m)
        ensures s.nextOrganismId > 0 && Stored(rules, s, m).Found?
          && IsValid(Stored(rules, s, m).origin.genome, rules.traitBudget)
      {
        assert ReviveHolds(rules, s, m);
      }
    }
    if forall m: Miracle :: Openable(rules, s, m) ==> (s.nextOrganismId > 0 && Stored(rules, s, m).Found?
         && IsValid(Stored(rules, s, m).origin.genome, rules.traitBudget)) {
      forall m: Miracle | m.Revive?
        ensures ReviveHolds(rules, s, m)
      {
        if Check(rules, s, m) == None && !NobodyPlanted(rules, s.cells, s.organisms, m.at) {
          var plain := m.(steps := []);
          assert Openable(rules, s, plain);
          EditsStayClose(Stored(rules, s, plain).origin.genome, m.steps, rules.traitBudget);
        }
      }
    }
  }

  // ---- Miracles that leave each other alone ----

  /** Two miracles far enough apart: rains over squares that do not overlap, relocations of two clades to areas
      that do not overlap, a rain and a relocation anywhere. */
  predicate Apart(rules: Ruleset, a: Miracle, b: Miracle) {
    match (a, b)
    case (Weather(c, _), Weather(d, _)) => Chebyshev(rules.size, c, d) > 2 * rules.miracles.weatherRadius
    case (Migrate(i, _, c), Migrate(j, _, d)) => i != j && Chebyshev(rules.size, c, d) > 2
    case (Weather(_, _), Migrate(_, _, _)) => true
    case (Migrate(_, _, _), Weather(_, _)) => true
    case _ => false
  }

  lemma WeatherAfterWeather(rules: Ruleset, cells: nat, epoch: nat, effects: seq<Effect>, cooldowns: seq<Cooldown>,
      center: nat, rain: bool, other: nat)
    requires rules.ticksPerEpoch > 0 && Chebyshev(rules.size, center, other) > 2 * rules.miracles.weatherRadius
    requires CheckWeather(rules, cells, epoch, effects, cooldowns, other) == None
    ensures CheckWeather(rules, cells, epoch, effects + [WeatherOf(rules, center, rain)],
      cooldowns + [WeatherRest(rules, center, epoch)], other) == None
  {
    hide Chebyshev, CeilDiv;
  }

  /** A relocation does not keep rain away. */
  lemma WeatherAfterMigrate(rules: Ruleset, cells: nat, epoch: nat, effects: seq<Effect>, cooldowns: seq<Cooldown>, id: nat,
      other: nat)
    requires CheckWeather(rules, cells, epoch, effects, cooldowns, other) == None
    ensures CheckWeather(rules, cells, epoch, effects, cooldowns + [MigrateRest(rules, id, epoch)], other) == None
  {
    hide Chebyshev, EffectNear;
  }

  lemma KeyCoolsBefore(epoch: nat, cooldowns: seq<Cooldown>, more: Cooldown, kind: u8, key: nat)
    requires !KeyCools(epoch, cooldowns, kind, key) && (more.kind != kind || more.key != key)
    ensures !KeyCools(epoch, cooldowns + [more], kind, key)
  {
  }

  /** Rain does not keep a clade from being relocated. */
  lemma MigrateAfterWeather(rules: Ruleset, cells: seq<Cell>, cells': seq<Cell>, epoch: nat, os: seq<Organism>,
      clades: map<nat, Clade>, cooldowns: seq<Cooldown>, center: nat, m: Miracle)
    requires rules.ticksPerEpoch > 0 && m.Migrate? && SameGround(cells, cells')
    requires CheckMigrate(rules, cells, epoch, os, clades, cooldowns, m.cladeId, m.from, m.to) == None
    ensures CheckMigrate(rules, cells', epoch, os, clades, cooldowns + [WeatherRest(rules, center, epoch)], m.cladeId,
      m.from, m.to) == None
  {
    hide Chebyshev, Nearby, Tally, CeilDiv;
    KeyCoolsBefore(epoch, cooldowns, WeatherRest(rules, center, epoch), MigrateCooldown, m.cladeId);
  }

  lemma {:induction false} NearbySame(size: Size, os: seq<Organism>, os': seq<Organism>, id: nat, center: nat, radius: nat)
    requires |os| == |os'| && forall i :: 0 <= i < |os| ==> os'[i] == os[i] || (os[i].cladeId != id && os'[i].cladeId != id)
    ensures Nearby(size, os, Some(id), center, radius) == Nearby(size, os', Some(id), center, radius)
  {
    if os != [] {
      NearbySame(size, os[..|os| - 1], os'[..|os| - 1], id, center, radius);
    }
  }

  lemma {:induction false} TallyAtMost(os: seq<Organism>, os': seq<Organism>, key: Key)
    requires |os| == |os'| && forall i :: 0 <= i < |os| && Matches(os'[i], key) ==> Matches(os[i], key)
    ensures Tally(os', key) <= Tally(os, key)
  {
    if os != [] {
      TallyAtMost(os[..|os| - 1], os'[..|os| - 1], key);
    }
  }

  /** Whoever was relocated was of the clade and is now next to the target. */
  lemma RelocatedOnlyThem(rules: Ruleset, cells: seq<Cell>, before: seq<Organism>, after: seq<Organism>, id: nat, from: nat,
      to: nat, movers: seq<nat>, moved: nat)
    requires Chosen(rules.size, before, id, from, rules.miracles.migrateRadius, rules.miracles.migrateMoved, movers)
    requires Relocated(rules, cells, before, after, movers, moved, to)
    ensures forall i :: 0 <= i < |before| ==> after[i] == before[i].(cell := after[i].cell)
    ensures forall i :: 0 <= i < |before| ==>
      after[i] == before[i] || (before[i].cladeId == id && Chebyshev(rules.size, to, after[i].cell) <= 1)
  {
    hide Chebyshev, Meanwhile, Counted, FreeLand;
    forall i: nat | i < |before|
      ensures after[i] == before[i].(cell := after[i].cell)
      ensures after[i] == before[i] || (before[i].cladeId == id && Chebyshev(rules.size, to, after[i].cell) <= 1)
    {
      if i in movers[..moved] {
        var k :| 0 <= k < moved && movers[k] == i;
        assert movers[k] in movers;
        assert Landed(rules, cells, before, after, movers[k], to);
        var occ :| Counted(occ, Meanwhile(before, after, i), |cells|)
          && FirstLand(rules, cells, occ, to, Some(after[i].cell));
      }
    }
  }

  lemma ChebyshevApart(size: Size, a: nat, b: nat, c: nat)
    requires Chebyshev(size, a, b) > 2 && Chebyshev(size, a, c) <= 1
    ensures Chebyshev(size, b, c) > 1
  {
  }

  /** A relocation does not keep another clade from being relocated to an area apart from it. */
  lemma MigrateAfterMigrate(rules: Ruleset, cells: seq<Cell>, epoch: nat, before: seq<Organism>, after: seq<Organism>,
      clades: map<nat, Clade>, cooldowns: seq<Cooldown>, id: nat, to: nat, m: Miracle)
    requires m.Migrate? && id != m.cladeId && Chebyshev(rules.size, to, m.to) > 2 && |after| == |before|
    requires forall i :: 0 <= i < |before| ==> after[i] == before[i].(cell := after[i].cell)
    requires forall i :: 0 <= i < |before| ==>
      after[i] == before[i] || (before[i].cladeId == id && Chebyshev(rules.size, to, after[i].cell) <= 1)
    requires CheckMigrate(rules, cells, epoch, before, clades, cooldowns, m.cladeId, m.from, m.to) == None
    ensures CheckMigrate(rules, cells, epoch, after, clades, cooldowns + [MigrateRest(rules, id, epoch)], m.cladeId,
      m.from, m.to) == None
  {
    hide Chebyshev, Nearby, Tally, KeyCools;
    KeyCoolsBefore(epoch, cooldowns, MigrateRest(rules, id, epoch), MigrateCooldown, m.cladeId);
    NearbySame(rules.size, before, after, m.cladeId, m.from, rules.miracles.migrateRadius);
    var c: nat :| c < |cells| && Chebyshev(rules.size, m.to, c) <= 1 && IsLand(cells[c].biome)
      && Tally(before, InCell(c)) < rules.maxPerCell;
    forall i | 0 <= i < |before| && Matches(after[i], InCell(c))
      ensures Matches(before[i], InCell(c))
    {
      if after[i] != before[i] {
        ChebyshevApart(rules.size, to, m.to, after[i].cell);
      }
    }
    TallyAtMost(before, after, InCell(c));
  }

  // ---- One miracle ----

  /** Members near the source, lowest ids first, went to the land around the target, until it was full. */
  ghost predicate Resettled(rules: Ruleset, cells: seq<Cell>, before: seq<Organism>, after: seq<Organism>, id: nat, from: nat,
      to: nat)
  {
    exists movers, moved :: ResettledBy(rules, cells, before, after, id, from, to, movers, moved)
  }

  ghost predicate ResettledBy(rules: Ruleset, cells: seq<Cell>, before: seq<Organism>, after: seq<Organism>, id: nat,
      from: nat, to: nat, movers: seq<nat>, moved: nat)
  {
    && Chosen(rules.size, before, id, from, rules.miracles.migrateRadius, rules.miracles.migrateMoved, movers)
    && Relocated(rules, cells, before, after, movers, moved, to)
    && (moved < |movers| ==> FirstLandFor(rules, cells, after, to, None))
  }

  /** What one revival leaves. */
  ghost predicate RevivedBy(rules: Ruleset, a: Situation, b: Situation, m: Miracle, origin: Origin, genome: Genome,
      placed: seq<Organism>)
    requires m.Revive?
  {
    && OriginOf(rules, a.epoch, a.museum, a.sporeBank, m.fromMuseum, m.entryId) == Found(origin)
    && EditedGenome(origin.genome, m.steps) == Edited(genome)
    && Planted(rules, a.cells, a.organisms, placed, rules.miracles.reviveCount, m.at)
    && Sprouted(rules, a.cells, placed, a.nextOrganismId, 0, a.nextCladeId, genome)
    && b == a.(organisms := a.organisms + placed, nextOrganismId := a.nextOrganismId + |placed|,
         clades := WithNewClade(a.clades, a.nextCladeId, origin.parent, genome, a.epoch, |placed|),
         nextCladeId := a.nextCladeId + (if placed == [] then 0 else 1),
         cooldowns := a.cooldowns + [ReviveRest(rules, m.fromMuseum, m.entryId, a.epoch)])
  }

  ghost predicate Revived(rules: Ruleset, a: Situation, b: Situation, m: Miracle)
    requires m.Revive?
  {
    exists origin, genome, placed :: RevivedBy(rules, a, b, m, origin, genome, placed)
  }

  /** b is what a miracle makes of a. */
  ghost predicate Done(rules: Ruleset, m: Miracle, a: Situation, b: Situation)
    requires rules.ticksPerEpoch > 0
  {
    match m
    case Weather(center, rain) =>
      && WateredBy(rules, center, rain, a.cells, b.cells)
      && b == a.(cells := b.cells, effects := a.effects + [WeatherOf(rules, center, rain)],
           cooldowns := a.cooldowns + [WeatherRest(rules, center, a.epoch)])
    case Migrate(id, from, to) =>
      && Resettled(rules, a.cells, a.organisms, b.organisms, id, from, to)
      && b == a.(organisms := b.organisms, cooldowns := a.cooldowns + [MigrateRest(rules, id, a.epoch)])
    case Revive(_, _, _, _) => Revived(rules, a, b, m)
  }

  method ApplyOne(w: World, rules: Ruleset, m: Miracle)
    requires Steady(w, rules) && rules.ticksPerEpoch > 0 && Check(rules, SituationOf(w), m) == None
    modifies w`cells, w`effects, w`organisms, w`clades, w`nextOrganismId, w`nextCladeId, w`cooldowns, w`births
    ensures m.Revive? ==> |w.organisms| >= |old(w.organisms)|
    ensures w.births == if m.Revive? then Added(old(w.births), w.organisms[|old(w.organisms)|..]) else old(w.births)
    ensures Steady(w, rules) <==> (m.Revive? ==> old(ReviveHolds(rules, SituationOf(w), m)))
    ensures Done(rules, m, old(SituationOf(w)), SituationOf(w))
  {
    hide Steady, Check, WateredBy, WeatherOf, WeatherRest, MigrateRest, ReviveRest, Chosen, Relocated, FirstLandFor, Planted,
      Sprouted, WithNewClade, OriginOf, EditedGenome, SameGround, ReviveHolds, Added;
    match m {
      case Weather(center, rain) =>
        ApplyWeather(w, rules, center, rain);
      case Migrate(id, from, to) =>
        ghost var movers, moved := ApplyMigrate(w, rules, id, from, to);
        assert ResettledBy(rules, w.cells, old(w.organisms), w.organisms, id, from, to, movers, moved);
      case Revive(_, _, _, _) =>
        ghost var placed := ApplyRevive(w, rules, m);
        assert w.organisms[|old(w.organisms)|..] == placed;
        ghost var origin := OriginOf(rules, w.epoch, w.museum, w.sporeBank, m.fromMuseum, m.entryId).origin;
        ghost var genome := EditedGenome(origin.genome, m.steps).genome;
        assert RevivedBy(rules, old(SituationOf(w)), SituationOf(w), m, origin, genome, placed);
    }
  }

  /** A miracle leaves every miracle apart from it possible. */
  lemma DoneLeavesApart(rules: Ruleset, m: Miracle, a: Situation, b: Situation, other: Miracle)
    requires rules.ticksPerEpoch > 0 && Done(rules, m, a, b) && Apart(rules, m, other) && Check(rules, a, other) == None
    ensures Check(rules, b, other) == None
  {
    hide WateredBy, WeatherOf, WeatherRest, MigrateRest, ReviveRest, Chosen, Relocated, FirstLandFor, Planted, CheckWeather,
      CheckMigrate, Chebyshev, SameGround;
    match m {
      case Weather(center, rain) =>
        WateredGround(rules, center, rain, a.cells, b.cells);
        WateredLength(rules, center, rain, a.cells, b.cells);
        if other.Weather? {
          WeatherAfterWeather(rules, |a.cells|, a.epoch, a.effects, a.cooldowns, center, rain, other.center);
        } else {
          MigrateAfterWeather(rules, a.cells, b.cells, a.epoch, a.organisms, a.clades, a.cooldowns, center, other);
        }
      case Migrate(id, from, to) =>
        if other.Weather? {
          WeatherAfterMigrate(rules, |a.cells|, a.epoch, a.effects, a.cooldowns, id, other.center);
        } else {
          var movers, moved :| ResettledBy(rules, a.cells, a.organisms, b.organisms, id, from, to, movers, moved);
          RelocatedOnlyThem(rules, a.cells, a.organisms, b.organisms, id, from, to, movers, moved);
          RelocatedLength(rules, a.cells, a.organisms, b.organisms, movers, moved, to);
          MigrateAfterMigrate(rules, a.cells, a.epoch, a.organisms, b.organisms, a.clades, a.cooldowns, id, to, other);
        }
    }
  }

  lemma WateredLength(rules: Ruleset, center: nat, rain: bool, cells: seq<Cell>, cells': seq<Cell>)
    requires WateredBy(rules, center, rain, cells, cells')
    ensures |cells'| == |cells|
  {
  }

  lemma RelocatedLength(rules: Ruleset, cells: seq<Cell>, before: seq<Organism>, after: seq<Organism>, movers: seq<nat>,
      moved: nat, to: nat)
    requires Relocated(rules, cells, before, after, movers, moved, to)
    ensures |after| == |before|
  {
  }
}
