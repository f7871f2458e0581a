/** Natural events of the epoch boundary, core/src/sim.rs:242-378: floods, wildfires and droughts. */
module Events {
  import opened Acts
  import opened Arithmetic
  import opened Births
  import opened Choices
  import opened Cohesion
  import opened Environment
  import opened Genomes
  import opened Grid
  import opened Options
  import opened Randomness
  import opened Steadiness
  import opened TickState
  import opened WorldState

  function Active(effects: seq<Effect>, kind: EffectKind): nat {
    if effects == [] then 0
    else Active(effects[..|effects| - 1], kind) + if effects[|effects| - 1].kind == kind then 1 else 0
  }

  /** The cells that satisfy a condition, in order. */
  method CellsWhere(n: nat, p: nat -> bool) returns (found: seq<nat>)
    ensures forall c: nat :: c in found <==> c < n && p(c)
    ensures Increasing(found)
  {
    found := [];
    for c := 0 to n
      invariant forall b: nat :: b in found <==> b < c && p(b)
      invariant Increasing(found)
    {
      if p(c) {
        assert forall k :: 0 <= k < |found| ==> found[k] in found;
        found := found + [c];
      }
    }
  }

  function Cast(rng: Rng, purpose: Purpose, epoch: nat, sites: seq<nat>): (site: nat)
    requires sites != []
    ensures site in sites
  {
    sites[Below(rng, 0, purpose, epoch % WORDS, |sites|)]
  }

  /** Whether an event of a kind happens in an epoch, if it has somewhere to. */
  predicate Happens(effects: seq<Effect>, epoch: nat, rng: Rng, kind: EffectKind, limit: nat, purpose: Purpose, ppm: nat) {
    Active(effects, kind) < limit && ChancePpm(rng, 0, purpose, epoch % WORDS, ppm)
  }

  /** An event happens while fewer effects of its kind run than the limit, when the epoch's draw falls below its chance. */
  lemma HappensExactly(effects: seq<Effect>, epoch: nat, rng: Rng, kind: EffectKind, limit: nat, purpose: Purpose, ppm: nat)
    ensures Happens(effects, epoch, rng, kind, limit, purpose, ppm) <==>
      |OfKind(effects, kind)| < limit && Below(rng, 0, purpose, epoch % WORDS, 1_000_000) < ppm
  {
    ActiveCounts(effects, kind);
    ChanceIsADraw(rng, 0, purpose, epoch % WORDS, ppm);
    hide Active, ChancePpm;
  }

  ghost function OfKind(effects: seq<Effect>, kind: EffectKind): set<nat> {
    set k: nat | k < |effects| && effects[k].kind == kind
  }

  lemma {:induction false} ActiveCounts(effects: seq<Effect>, kind: EffectKind)
    ensures Active(effects, kind) == |OfKind(effects, kind)|
  {
    if effects != [] {
      var n := |effects| - 1;
      ActiveCounts(effects[..n], kind);
      var before := OfKind(effects[..n], kind);
      assert OfKind(effects, kind) == before + if effects[n].kind == kind then {n} else {};
      assert n !in before;
    }
  }

  /** A cell was drawn evenly among these. */
  ghost predicate DrawnFrom(cells: iset<nat>, rng: Rng, purpose: Purpose, epoch: nat, site: nat) {
    exists sites :: IsCast(cells, rng, purpose, epoch, sites, site)
  }

  ghost predicate IsCast(cells: iset<nat>, rng: Rng, purpose: Purpose, epoch: nat, sites: seq<nat>, site: nat) {
    && Increasing(sites) && sites != [] && (forall c: nat :: c in sites <==> c in cells)
    && site == sites[Below(rng, 0, purpose, epoch % WORDS, |sites|)]
  }

  /** A cell drawn among those that satisfy a condition, if the event happens and there is one. */
  method Draw(cells: nat, p: nat -> bool, ghost candidates: iset<nat>, happens: bool, rng: Rng, purpose: Purpose, epoch: nat)
    returns (site: Option<nat>)
    requires forall c: nat :: c in candidates <==> c < cells && p(c)
    ensures site.Some? <==> happens && candidates != iset{}
    ensures site.Some? ==> site.value in candidates && DrawnFrom(candidates, rng, purpose, epoch, site.value)
  {
    site := None;
    if happens {
      var sites := CellsWhere(cells, p);
      if sites != [] {
        assert sites[0] in sites;
        site := Some(Cast(rng, purpose, epoch, sites));
        assert IsCast(candidates, rng, purpose, epoch, sites, site.value);
      } else {
        assert forall c: nat :: c in candidates ==> c in sites;
      }
    }
  }

  function Started(effects: seq<Effect>, e: Effect): seq<Effect> {
    if e.remainingTicks > 0 then effects + [e] else effects
  }

  lemma StartedExactly(effects: seq<Effect>, e: Effect)
    ensures var after := Started(effects, e);
      && |after| == |effects| + (if e.remainingTicks == 0 then 0 else 1) && after[..|effects|] == effects
      && (e.remainingTicks >= 1 ==> after[|effects|] == e)
  {
  }

  lemma StartedLasts(effects: seq<Effect>, e: Effect)
    requires Lasting(effects)
    ensures Lasting(Started(effects, e))
  {
  }

  /** An event does not give an effect that has run out. */
  lemma StruckLasts(rules: Ruleset, e: Effect, touch: Touch, cells: seq<Cell>, effects: seq<Effect>, cells': seq<Cell>,
      effects': seq<Effect>)
    requires Struck(rules, e, touch, cells, effects, cells', effects')
    ensures Lasting(effects) ==> Lasting(effects')
  {
    hide TouchedBy;
    if Lasting(effects) {
      StartedLasts(effects, e);
    }
  }

  // ---- Cells under an event ----

  datatype Touch = Soak | Burn | Parch(drop: nat)

  function Touched(touch: Touch, c: Cell): (c': Cell)
    ensures c'.biome == c.biome && c'.rift == c.rift
  {
    match touch
    case Soak => c.(food := 0, moisture := 100)
    case Burn => c.(food := 0, detritus := 0)
    case Parch(drop) => c.(moisture := if c.moisture > drop then c.moisture - drop else 0)
  }

  /** A flood soaks a cell and takes its food, a fire takes food and detritus, a drought takes moisture as far as there is
      any. */
  lemma TouchedExactly(c: Cell, drop: nat)
    ensures Touched(Soak, c) == Cell(c.biome, 0, c.detritus, 100, c.rift)
    ensures Touched(Burn, c) == Cell(c.biome, 0, 0, c.moisture, c.rift)
    ensures var dry := Touched(Parch(drop), c);
      && dry == c.(moisture := dry.moisture) && dry.moisture <= c.moisture <= dry.moisture + drop
      && (dry.moisture == 0 || dry.moisture + drop == c.moisture)
  {
  }

  /** An event touches exactly the cells that its effect covers. */
  ghost predicate TouchedBy(size: Size, e: Effect, touch: Touch, cells: seq<Cell>, cells': seq<Cell>) {
    |cells'| == |cells| && forall c: nat :: c < |cells| ==>
      cells'[c] == if Covers(size, e, c, cells[c].biome) then Touched(touch, cells[c]) else cells[c]
  }

  method TouchCells(w: World, rules: Ruleset, e: Effect, touch: Touch)
    requires CellsFine(rules, w.cells)
    modifies w`cells
    ensures TouchedBy(rules.size, e, touch, old(w.cells), w.cells)
    ensures CellsFine(rules, w.cells) && SameGround(old(w.cells), w.cells)
  {
    hide Covers;
    var before := w.cells;
    for c := 0 to |before|
      invariant |w.cells| == |before| && forall b :: c <= b < |before| ==> w.cells[b] == before[b]
      invariant forall b: nat :: b < c ==>
        w.cells[b] == if Covers(rules.size, e, b, before[b].biome) then Touched(touch, before[b]) else before[b]
      invariant CellsFine(rules, w.cells)
    {
      if Covers(rules.size, e, c, before[c].biome) {
        w.cells := w.cells[c := Touched(touch, w.cells[c])];
      }
    }
  }

  /** The ground is what it was: the world is still steady. */
  lemma SteadyOnSameGround(w: World, rules: Ruleset, cells: seq<Cell>)
    requires Peopled(w, rules) && CellsFine(rules, w.cells)
    requires SameGround(cells, w.cells) && AllStand(cells, w.organisms) && RiftsFine(w.rifts, cells)
    ensures Steady(w, rules)
  {
    hide Peopled, CellsFine, SameGround, AllStand, RiftsFine, Steady;
    SameGroundStands(cells, w.cells, w.organisms);
    SameGroundRifts(w.rifts, cells, w.cells);
    SteadyIsPeopleOnGround(w, rules);
  }

  // ---- Floods and droughts ----

  predicate NextToWater(size: Size, cells: seq<Cell>, c: nat) {
    exists k :: 0 <= k < 8 && var n := Neighbor(size, c, k); n.Some? && n.value < |cells| && !IsLand(cells[n.value].biome)
  }

  predicate CanFlood(size: Size, cells: seq<Cell>, c: nat) {
    c < |cells| && Floods(cells[c].biome) && (cells[c].biome == Swamp || NextToWater(size, cells, c))
  }

  /** What a flood can start from: swamps, and other low land with water beside it. */
  ghost function Floodable(size: Size, cells: seq<Cell>): iset<nat> {
    iset c: nat | c < |cells| && (cells[c].biome == Swamp
      || (cells[c].biome != Mountains && !IsWater(cells[c].biome) && WaterBeside(size, cells, c)))
  }

  ghost predicate WaterBeside(size: Size, cells: seq<Cell>, c: nat) {
    exists n: nat :: n < |cells| && Chebyshev(size, c, n) == 1 && IsWater(cells[n].biome)
  }

  lemma CanFloodExactly(size: Size, cells: seq<Cell>)
    requires |cells| == Cells(size)
    ensures forall c: nat :: c in Floodable(size, cells) <==> c < |cells| && CanFlood(size, cells, c)
  {
    hide NextToWater, WaterBeside;
    forall c: nat | c < |cells|
      ensures NextToWater(size, cells, c) <==> WaterBeside(size, cells, c)
    {
      BesideExactly(size, cells, c);
    }
  }

  lemma BesideExactly(size: Size, cells: seq<Cell>, c: nat)
    requires |cells| == Cells(size) && c < |cells|
    ensures NextToWater(size, cells, c) <==> WaterBeside(size, cells, c)
  {
    hide Chebyshev, Neighbor;
    if NextToWater(size, cells, c) {
      var k :| 0 <= k < 8 && var n := Neighbor(size, c, k); n.Some? && n.value < |cells| && !IsLand(cells[n.value].biome);
      NeighborIsOneStep(size, c, Neighbor(size, c, k).value);
      assert IsWater(cells[Neighbor(size, c, k).value].biome);
    }
    if WaterBeside(size, cells, c) {
      var n: nat :| n < |cells| && Chebyshev(size, c, n) == 1 && IsWater(cells[n].biome);
      NeighborIsOneStep(size, c, n);
      var k :| 0 <= k < 8 && Neighbor(size, c, k) == Some(n);
    }
  }

  predicate IsWater(b: Biome) {
    b == DeepWater || b == Shallows
  }

  predicate CanDry(cells: seq<Cell>, c: nat) {
    c < |cells| && (cells[c].biome == Steppe || cells[c].biome == Desert)
  }

  ghost function Dryable(cells: seq<Cell>): iset<nat> {
    iset c: nat | c < |cells| && !IsWater(cells[c].biome) && cells[c].biome !in {Forest, Swamp, Mountains}
  }

  /** An event with an effect and nothing else. */
  ghost predicate Struck(rules: Ruleset, e: Effect, touch: Touch, cells: seq<Cell>, effects: seq<Effect>,
      cells': seq<Cell>, effects': seq<Effect>)
  {
    TouchedBy(rules.size, e, touch, cells, cells') && effects' == Started(effects, e)
  }

  method Strike(w: World, rules: Ruleset, e: Effect, touch: Touch)
    requires Steady(w, rules)
    modifies w`cells, w`effects
    ensures Steady(w, rules) && SameGround(old(w.cells), w.cells)
    ensures Struck(rules, e, touch, old(w.cells), old(w.effects), w.cells, w.effects)
  {
    hide Peopled, CellsFine, SameGround, AllStand, RiftsFine, Steady, TouchedBy, Started;
    SteadyIsPeopleOnGround(w, rules);
    TouchCells(w, rules, e, touch);
    w.effects := Started(w.effects, e);
    SteadyOnSameGround(w, rules, old(w.cells));
  }

  /** A flood has come, exactly when its draw, its limit and a cell by the water allow. */
  ghost predicate FloodCame(rules: Ruleset, rng: Rng, epoch: nat, cells: seq<Cell>, effects: seq<Effect>, cells': seq<Cell>,
      effects': seq<Effect>, flood: Option<Effect>)
  {
    && (flood.Some? <==>
          Happens(effects, epoch, rng, EffectKind.Flood, rules.events.maxActivePerKind, FloodChance, rules.events.floodPpm)
          && Floodable(rules.size, cells) != iset{})
    && (flood == None ==> cells' == cells && effects' == effects)
    && (flood.Some? ==>
          && DrawnFrom(Floodable(rules.size, cells), rng, FloodSite, epoch, flood.value.center)
          && flood.value.center in Floodable(rules.size, cells)
          && flood.value == Effect(EffectKind.Flood, flood.value.center, rules.events.floodRadius, rules.events.floodTicks)
          && Struck(rules, flood.value, Soak, cells, effects, cells', effects'))
  }

  method Flood(w: World, rules: Ruleset, rng: Rng) returns (flood: Option<Effect>)
    requires Steady(w, rules)
    modifies w`cells, w`effects
    ensures Steady(w, rules) && SameGround(old(w.cells), w.cells)
    ensures FloodCame(rules, rng, w.epoch, old(w.cells), old(w.effects), w.cells, w.effects, flood)
  {
    hide Steady, NextToWater, Struck, Happens, DrawnFrom, WaterBeside, SameGround;
    SameGroundItself(w.cells);
    flood := None;
    var cells := w.cells;
    var happens := Happens(w.effects, w.epoch, rng, EffectKind.Flood, rules.events.maxActivePerKind, FloodChance, rules.events.floodPpm);
    SteadyMap(w, rules);
    CanFloodExactly(rules.size, cells);
    var p := (c: nat) => CanFlood(rules.size, cells, c);
    var center := Draw(|cells|, p, Floodable(rules.size, cells), happens, rng, FloodSite, w.epoch);
    if center.Some? {
      var e := Effect(EffectKind.Flood, center.value, rules.events.floodRadius, rules.events.floodTicks);
      Strike(w, rules, e, Soak);
      flood := Some(e);
    }
  }

  lemma SameGroundItself(cells: seq<Cell>)
    ensures SameGround(cells, cells)
  {
  }

  /** A drought has come, exactly when its draw, its limit and dry land allow. */
  ghost predicate DroughtCame(rules: Ruleset, rng: Rng, epoch: nat, cells: seq<Cell>, effects: seq<Effect>,
      cells': seq<Cell>, effects': seq<Effect>, drought: Option<Effect>)
  {
    && (drought.Some? <==>
          Happens(effects, epoch, rng, EffectKind.Drought, rules.events.maxActivePerKind, DroughtChance, rules.events.droughtPpm)
          && Dryable(cells) != iset{})
    && (drought == None ==> cells' == cells && effects' == effects)
    && (drought.Some? ==>
          && DrawnFrom(Dryable(cells), rng, DroughtSite, epoch, drought.value.center)
          && drought.value.center in Dryable(cells)
          && drought.value
               == Effect(EffectKind.Drought, drought.value.center, rules.events.droughtRadius, rules.events.droughtTicks)
          && Struck(rules, drought.value, Parch(rules.events.droughtMoistureDrop), cells, effects, cells', effects'))
  }

  method Drought(w: World, rules: Ruleset, rng: Rng) returns (drought: Option<Effect>)
    requires Steady(w, rules)
    modifies w`cells, w`effects
    ensures Steady(w, rules) && SameGround(old(w.cells), w.cells)
    ensures DroughtCame(rules, rng, w.epoch, old(w.cells), old(w.effects), w.cells, w.effects, drought)
  {
    hide Steady, Struck, Happens, DrawnFrom, SameGround;
    SameGroundItself(w.cells);
    drought := None;
    var cells := w.cells;
    var happens := Happens(w.effects, w.epoch, rng, EffectKind.Drought, rules.events.maxActivePerKind, DroughtChance, rules.events.droughtPpm);
    var p := (c: nat) => CanDry(cells, c);
    var center := Draw(|cells|, p, Dryable(cells), happens, rng, DroughtSite, w.epoch);
    if center.Some? {
      var e := Effect(EffectKind.Drought, center.value, rules.events.droughtRadius, rules.events.droughtTicks);
      Strike(w, rules, e, Parch(rules.events.droughtMoistureDrop));
      drought := Some(e);
    }
  }

  // ---- Wildfires ----

  predicate CanBurn(rules: Ruleset, cells: seq<Cell>, c: nat) {
    c < |cells| && (cells[c].biome == Forest || cells[c].biome == Steppe)
    && cells[c].moisture < rules.events.wildfireMaxMoisture
  }

  ghost function Burnable(rules: Ruleset, cells: seq<Cell>): iset<nat> {
    iset c: nat | c < |cells| && !IsWater(cells[c].biome) && cells[c].biome !in {Desert, Swamp, Mountains}
      && cells[c].moisture + 1 <= rules.events.wildfireMaxMoisture
  }

  /** A fire costs everyone it reaches part of their energy, but never their life. */
  function Singed(rules: Ruleset, o: Organism): Organism {
    o.(energy := Max(Quot(o.energy * (100 - rules.events.wildfireEnergyLossPct), 100), 1))
  }

  /** What a fire leaves of an organism's energy: its share, rounded down, and at least one. */
  lemma SingedExactly(rules: Ruleset, o: Organism)
    requires Validated(rules) && 0 < o.energy
    ensures var left := Singed(rules, o).energy; var share := o.energy * (100 - rules.events.wildfireEnergyLossPct);
      && (share < 100 ==> left == 1) && (share >= 100 ==> RoundsDown(left, share, 100))
  {
    var pct := 100 - rules.events.wildfireEnergyLossPct;
    MulMonotone(0, pct, o.energy);
    QuotRoundsDown(o.energy * pct, 100);
  }

  lemma SingedLives(rules: Ruleset, o: Organism)
    requires Validated(rules) && 0 < o.energy <= rules.energyMax
    ensures 0 < Singed(rules, o).energy <= o.energy
  {
    var pct := 100 - rules.events.wildfireEnergyLossPct;
    MulMonotone(0, pct, o.energy);
    MulMonotone(pct, 100, o.energy);
  }

  /** The organisms after a fire: whoever stands in it is singed. */
  ghost predicate SingedBy(rules: Ruleset, e: Effect, cells: seq<Cell>, os: seq<Organism>, os': seq<Organism>) {
    |os'| == |os| && forall i :: 0 <= i < |os| ==> (os[i].cell < |cells|
      && os'[i] == if Covers(rules.size, e, os[i].cell, cells[os[i].cell].biome) then Singed(rules, os[i]) else os[i])
  }

  lemma {:induction false} TallySame(os: seq<Organism>, os': seq<Organism>, key: Key)
    requires |os| == |os'| && forall i :: 0 <= i < |os| ==> (Matches(os[i], key) <==> Matches(os'[i], key))
    ensures Tally(os, key) == Tally(os', key)
  {
    if os != [] {
      TallySame(os[..|os| - 1], os'[..|os| - 1], key);
    }
  }

  /** Other energies and other cells leave a people a people, when the cells are not overfull. */
  lemma ChangedBodiesKeep(rules: Ruleset, os: seq<Organism>, os': seq<Organism>, next: nat, clades: map<nat, Clade>,
      nextClade: nat)
    requires People(rules, os, next, clades, nextClade) && |os'| == |os|
    requires forall i :: 0 <= i < |os| ==> os'[i].id == os[i].id && os'[i].cladeId == os[i].cladeId
    requires forall i :: 0 <= i < |os| ==> os'[i].genome == os[i].genome && 0 < os'[i].energy <= rules.energyMax
    requires forall c :: 0 <= c < Cells(rules.size) ==> Tally(os', InCell(c)) <= rules.maxPerCell
    ensures People(rules, os', next, clades, nextClade)
  {
    hide Tally, Sound, IsValid;
    forall id | id in clades
      ensures CladeFine(id, clades[id], nextClade, os')
    {
      assert CladeFine(id, clades[id], nextClade, os);
      TallySame(os, os', OfClade(id));
    }
  }

  lemma SingedKeep(rules: Ruleset, e: Effect, cells: seq<Cell>, os: seq<Organism>, os': seq<Organism>, next: nat,
      clades: map<nat, Clade>, nextClade: nat)
    requires People(rules, os, next, clades, nextClade) && AllStand(cells, os) && SingedBy(rules, e, cells, os, os')
    ensures People(rules, os', next, clades, nextClade) && AllStand(cells, os')
  {
    hide Covers, Tally, Sound, IsValid, Ascending, CladeFine, Singed;
    SoundIsValidated(rules);
    forall i | 0 <= i < |os|
      ensures SameButEnergy(os[i], os'[i]) && 0 < os'[i].energy <= rules.energyMax
    {
      SingedLives(rules, os[i]);
      SingedSame(rules, os[i]);
    }
    forall c | 0 <= c < Cells(rules.size)
      ensures Tally(os', InCell(c)) <= rules.maxPerCell
    {
      TallySame(os, os', InCell(c));
    }
    ChangedBodiesKeep(rules, os, os', next, clades, nextClade);
  }

  lemma SingedSameKin(rules: Ruleset, e: Effect, cells: seq<Cell>, os: seq<Organism>, os': seq<Organism>)
    requires SingedBy(rules, e, cells, os, os')
    ensures SameKin(os, os')
  {
    hide Covers;
  }

  predicate SameButEnergy(o: Organism, o': Organism) {
    o' == o.(energy := o'.energy)
  }

  lemma SingedSame(rules: Ruleset, o: Organism)
    ensures SameButEnergy(o, Singed(rules, o)) && SameButEnergy(o, o)
  {
  }

  lemma SoundIsValidated(rules: Ruleset)
    requires Sound(rules)
    ensures Validated(rules)
  {
  }

  method Singe(w: World, rules: Ruleset, e: Effect, cells: seq<Cell>)
    requires Peopled(w, rules) && AllStand(cells, w.organisms)
    modifies w`organisms
    ensures Peopled(w, rules) && AllStand(cells, w.organisms)
    ensures SingedBy(rules, e, cells, old(w.organisms), w.organisms)
  {
    hide People, Covers, Singed, Stands;
    var before := w.organisms;
    StandingInRange(cells, before);
    for i := 0 to |before|
      invariant |w.organisms| == |before| && forall j :: i <= j < |before| ==> w.organisms[j] == before[j]
      invariant forall j :: 0 <= j < i ==>
        w.organisms[j] == if Covers(rules.size, e, before[j].cell, cells[before[j].cell].biome)
                          then Singed(rules, before[j]) else before[j]
    {
      var c := before[i].cell;
      if Covers(rules.size, e, c, cells[c].biome) {
        w.organisms := w.organisms[i := Singed(rules, w.organisms[i])];
      }
    }
    SingedKeep(rules, e, cells, before, w.organisms, w.nextOrganismId, w.clades, w.nextCladeId);
  }

  lemma StandingInRange(cells: seq<Cell>, os: seq<Organism>)
    requires AllStand(cells, os)
    ensures forall i :: 0 <= i < |os| ==> os[i].cell < |cells|
  {
  }

  /** A fire has come, exactly when its draw, its limit and dry growth allow. */
  ghost predicate FireCame(rules: Ruleset, rng: Rng, epoch: nat, cells: seq<Cell>, effects: seq<Effect>, os: seq<Organism>,
      cells': seq<Cell>, effects': seq<Effect>, os': seq<Organism>, fire: Option<Effect>)
  {
    && (fire.Some? <==>
          Happens(effects, epoch, rng, Ash, rules.events.maxActivePerKind, WildfireChance, rules.events.wildfirePpm)
          && Burnable(rules, cells) != iset{})
    && (fire == None ==> cells' == cells && effects' == effects && os' == os)
    && (fire.Some? ==>
          && DrawnFrom(Burnable(rules, cells), rng, WildfireSite, epoch, fire.value.center)
          && fire.value.center in Burnable(rules, cells) && fire.value.kind == Ash
          && rules.events.wildfireRadiusMin <= rules.events.wildfireRadiusMax
          && fire.value.radius - rules.events.wildfireRadiusMin == Below(rng, 0, WildfireRadius, epoch % WORDS,
               rules.events.wildfireRadiusMax - rules.events.wildfireRadiusMin + 1)
          && fire.value.remainingTicks == rules.events.ashTicks
          && Struck(rules, fire.value, Burn, cells, effects, cells', effects')
          && SingedBy(rules, fire.value, cells, os, os'))
  }

  /** A fire burns food and detritus and singes organisms, whose cells are covered or not as the map was. */
  method Wildfire(w: World, rules: Ruleset, rng: Rng) returns (fire: Option<Effect>)
    requires Steady(w, rules)
    modifies w`cells, w`effects, w`organisms
    ensures Steady(w, rules) && SameGround(old(w.cells), w.cells)
    ensures FireCame(rules, rng, w.epoch, old(w.cells), old(w.effects), old(w.organisms), w.cells, w.effects, w.organisms,
      fire)
  {
    hide Steady, Struck, Happens, DrawnFrom, Peopled, CellsFine, RiftsFine, AllStand, SingedBy, SameGround, Validated, FireCame;
    SameGroundItself(w.cells);
    fire := None;
    var cells := w.cells;
    var happens := Happens(w.effects, w.epoch, rng, Ash, rules.events.maxActivePerKind, WildfireChance, rules.events.wildfirePpm);
    var p := (c: nat) => CanBurn(rules, cells, c);
    var center := Draw(|cells|, p, Burnable(rules, cells), happens, rng, WildfireSite, w.epoch);
    if center.Some? {
      RadiiOrdered(w, rules);
      var span := rules.events.wildfireRadiusMax - rules.events.wildfireRadiusMin + 1;
      var radius := rules.events.wildfireRadiusMin + Below(rng, 0, WildfireRadius, w.epoch % WORDS, span);
      var e := Effect(Ash, center.value, radius, rules.events.ashTicks);
      SteadyIsPeopleOnGround(w, rules);
      Singe(w, rules, e, cells);
      SteadyIsPeopleOnGround(w, rules);
      Strike(w, rules, e, Burn);
      fire := Some(e);
      FireComes(rules, rng, w.epoch, cells, old(w.effects), old(w.organisms), w.cells, w.effects, w.organisms, e);
    } else {
      NoFireComes(rules, rng, w.epoch, cells, w.effects, w.organisms);
    }
  }

  lemma FireComes(rules: Ruleset, rng: Rng, epoch: nat, cells: seq<Cell>, effects: seq<Effect>, os: seq<Organism>,
      cells': seq<Cell>, effects': seq<Effect>, os': seq<Organism>, e: Effect)
    requires Happens(effects, epoch, rng, Ash, rules.events.maxActivePerKind, WildfireChance, rules.events.wildfirePpm)
    requires e.center in Burnable(rules, cells) && DrawnFrom(Burnable(rules, cells), rng, WildfireSite, epoch, e.center)
    requires e.kind == Ash && e.remainingTicks == rules.events.ashTicks
    requires var span := rules.events.wildfireRadiusMax - rules.events.wildfireRadiusMin + 1;
      span > 0 && e.radius == rules.events.wildfireRadiusMin + Below(rng, 0, WildfireRadius, epoch % WORDS, span)
    requires Struck(rules, e, Burn, cells, effects, cells', effects') && SingedBy(rules, e, cells, os, os')
    ensures FireCame(rules, rng, epoch, cells, effects, os, cells', effects', os', Some(e))
  {
    hide Happens, DrawnFrom, Struck, SingedBy, Burnable;
  }

  lemma NoFireComes(rules: Ruleset, rng: Rng, epoch: nat, cells: seq<Cell>, effects: seq<Effect>, os: seq<Organism>)
    requires !(Happens(effects, epoch, rng, Ash, rules.events.maxActivePerKind, WildfireChance, rules.events.wildfirePpm)
      && Burnable(rules, cells) != iset{})
    ensures FireCame(rules, rng, epoch, cells, effects, os, cells, effects, os, None)
  {
    hide Happens, DrawnFrom, Struck, SingedBy, Burnable;
  }

  lemma SteadyMap(w: World, rules: Ruleset)
    requires Steady(w, rules)
    ensures |w.cells| == Cells(rules.size)
  {
  }

  lemma RadiiOrdered(w: World, rules: Ruleset)
    requires Steady(w, rules)
    ensures rules.events.wildfireRadiusMin <= rules.events.wildfireRadiusMax
  {
  }
}
