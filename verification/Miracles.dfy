/** Miracles, core/src/miracle.rs: what may be done to the world at an epoch boundary, and what it does. */
module Miracles {
  import opened Genomes
  import opened Grid
  import opened Hashing
  import opened Options
  import opened Rifting
  import opened WorldState

  datatype Miracle =
    | Weather(center: nat, rain: bool)
    | Migrate(cladeId: nat, from: nat, to: nat)
    | Revive(fromMuseum: bool, entryId: nat, steps: seq<(nat, nat)>, at: nat)

  datatype Refusal = OutsideMap | Overlaps | RegionCooling | NoSuchClade | TooFew | CladeCooling | NoFreeLand | NotLand
    | NoSuchEntry | TooRecent | NotEditable | EntryCooling | TooCrowded

  // ---- The checks ----

  predicate Running(c: Cooldown, kind: u8, epoch: nat) {
    c.kind == kind && c.until > epoch
  }

  /** How many organisms, of one clade if one is named, are within a radius. */
  function Nearby(size: Size, os: seq<Organism>, clade: Option<nat>, center: nat, radius: nat): nat {
    if os == [] then 0
    else
      var n := |os| - 1;
      Nearby(size, os[..n], clade, center, radius) + if IsNear(size, os[n], clade, center, radius) then 1 else 0
  }

  predicate IsNear(size: Size, o: Organism, clade: Option<nat>, center: nat, radius: nat) {
    (clade == None || o.cladeId == clade.value) && Chebyshev(size, o.cell, center) <= radius
  }

  predicate EffectNear(rules: Ruleset, effects: seq<Effect>, center: nat) {
    exists k :: 0 <= k < |effects|
      && Chebyshev(rules.size, effects[k].center, center) <= effects[k].radius + rules.miracles.weatherRadius
  }

  predicate RegionCools(rules: Ruleset, epoch: nat, cooldowns: seq<Cooldown>, center: nat) {
    exists k :: 0 <= k < |cooldowns| && Running(cooldowns[k], WeatherCooldown, epoch)
      && Chebyshev(rules.size, cooldowns[k].key, center) <= 2 * rules.miracles.weatherRadius
  }

  predicate KeyCools(epoch: nat, cooldowns: seq<Cooldown>, kind: u8, key: nat) {
    exists k :: 0 <= k < |cooldowns| && Running(cooldowns[k], kind, epoch) && cooldowns[k].key == key
  }

  /** Land within one step of a cell that has room. */
  predicate RoomAround(rules: Ruleset, cells: seq<Cell>, os: seq<Organism>, center: nat) {
    exists c: nat :: c < |cells| && Chebyshev(rules.size, center, c) <= 1 && IsLand(cells[c].biome)
      && Tally(os, InCell(c)) < rules.maxPerCell
  }

  function CheckWeather(rules: Ruleset, cells: nat, epoch: nat, effects: seq<Effect>, cooldowns: seq<Cooldown>, center: nat)
    : Option<Refusal>
  {
    if center >= cells then Some(OutsideMap)
    else if EffectNear(rules, effects, center) then Some(Overlaps)
    else if RegionCools(rules, epoch, cooldowns, center) then Some(RegionCooling)
    else None
  }

  function CheckMigrate(rules: Ruleset, cells: seq<Cell>, epoch: nat, os: seq<Organism>, clades: map<nat, Clade>,
      cooldowns: seq<Cooldown>, id: nat, from: nat, to: nat): Option<Refusal>
  {
    if from >= |cells| || to >= |cells| then Some(OutsideMap)
    else if id !in clades || clades[id].living == 0 then Some(NoSuchClade)
    else if Nearby(rules.size, os, Some(id), from, rules.miracles.migrateRadius) < rules.miracles.migrateMin then Some(TooFew)
    else if KeyCools(epoch, cooldowns, MigrateCooldown, id) then Some(CladeCooling)
    else if !RoomAround(rules, cells, os, to) then Some(NoFreeLand)
    else None
  }

  /** What a revival starts from: the genome, and the clade it descends from. */
  datatype Origin = Origin(genome: Genome, parent: nat)

  datatype OriginResult = Found(origin: Origin) | Missing(why: Refusal)

  /** The oldest museum entry of a clade. */
  function EntryOf(museum: seq<MuseumEntry>, id: nat): Option<MuseumEntry> {
    if museum == [] then None else if museum[0].cladeId == id then Some(museum[0]) else EntryOf(museum[1..], id)
  }

  function OriginOf(rules: Ruleset, epoch: nat, museum: seq<MuseumEntry>, spores: seq<Founder>, fromMuseum: bool, id: nat)
    : OriginResult
  {
    if fromMuseum then
      match EntryOf(museum, id)
      case None => Missing(NoSuchEntry)
      case Some(e) =>
        if epoch < e.extinctEpoch + rules.miracles.reviveExtinctEpochs then Missing(TooRecent)
        else Found(Origin(e.reference, e.cladeId))
    else if id < |spores| then Found(Origin(spores[id].genome, 0))
    else Missing(NoSuchEntry)
  }

  function KindOf(fromMuseum: bool): u8 {
    if fromMuseum then MuseumCooldown else SporeCooldown
  }

  /** At most two edits, each possible in its turn. */
  function EditedGenome(base: Genome, steps: seq<(nat, nat)>): EditResult {
    if |steps| > 2 then NotPossible else EditSteps(base, steps)
  }

  function CheckRevive(rules: Ruleset, cells: seq<Cell>, epoch: nat, os: seq<Organism>, museum: seq<MuseumEntry>,
      spores: seq<Founder>, cooldowns: seq<Cooldown>, m: Miracle): Option<Refusal>
    requires m.Revive?
  {
    if m.at >= |cells| || !IsLand(cells[m.at].biome) then Some(NotLand)
    else
      match OriginOf(rules, epoch, museum, spores, m.fromMuseum, m.entryId)
      case Missing(why) => Some(why)
      case Found(origin) =>
        if EditedGenome(origin.genome, m.steps) == NotPossible then Some(NotEditable)
        else if KeyCools(epoch, cooldowns, KindOf(m.fromMuseum), m.entryId) then Some(EntryCooling)
        else if Nearby(rules.size, os, None, m.at, rules.miracles.reviveRadius) > rules.miracles.reviveMaxNearby
        then Some(TooCrowded)
        else None
  }

  /** What miracles look at and change. */
  datatype Situation = Situation(epoch: nat, cells: seq<Cell>, effects: seq<Effect>, organisms: seq<Organism>,
    clades: map<nat, Clade>, museum: seq<MuseumEntry>, sporeBank: seq<Founder>, cooldowns: seq<Cooldown>,
    nextOrganismId: nat, nextCladeId: nat)

  function SituationOf(w: World): Situation
    reads w
  {
    Situation(w.epoch, w.cells, w.effects, w.organisms, w.clades, w.museum, w.sporeBank, w.cooldowns, w.nextOrganismId,
      w.nextCladeId)
  }

  /** The hard check of a miracle against the state it would apply to. */
  function Check(rules: Ruleset, s: Situation, m: Miracle): Option<Refusal> {
    match m
    case Weather(center, _) => CheckWeather(rules, |s.cells|, s.epoch, s.effects, s.cooldowns, center)
    case Migrate(id, from, to) => CheckMigrate(rules, s.cells, s.epoch, s.organisms, s.clades, s.cooldowns, id, from, to)
    case Revive(_, _, _, _) => CheckRevive(rules, s.cells, s.epoch, s.organisms, s.museum, s.sporeBank, s.cooldowns, m)
  }

  // ---- Squares of cells ----

  /** The cells within a radius, row by row, which is in order of number. */
  method SquareOf(size: Size, center: nat, radius: nat) returns (square: seq<nat>)
    ensures Increasing(square)
    ensures forall c: nat :: c in square <==> c < Cells(size) && Chebyshev(size, center, c) <= radius
  {
    hide Chebyshev;
    var cx: int, cy: int, r: int := X(size, center), Y(size, center), radius;
    square := [];
    for y := cy - r to cy + r + 1
      invariant Increasing(square)
      invariant forall c: nat :: c in square <==> Within(size, cx, cy, r, c) && Y(size, c) < y
    {
      for x := cx - r to cx + r + 1
        invariant Increasing(square)
        invariant forall c: nat :: c in square <==>
          Within(size, cx, cy, r, c) && (Y(size, c) < y || (Y(size, c) == y && X(size, c) < x))
      {
        var cell := At(size, x, y);
        if cell.Some? {
          forall k | 0 <= k < |square|
            ensures square[k] < cell.value
          {
            assert square[k] in square;
            EarlierRow(size, square[k], cell.value);
          }
          square := square + [cell.value];
        }
        forall c: nat | c < Cells(size) && X(size, c) == x && Y(size, c) == y
          ensures cell == Some(c)
        {
          CellInside(size, c);
        }
      }
    }
    forall c: nat
      ensures c in square <==> c < Cells(size) && Chebyshev(size, center, c) <= radius
    {
      WithinIsNear(size, center, radius, c);
    }
  }

  predicate Within(size: Size, cx: int, cy: int, r: int, c: nat) {
    c < Cells(size) && cx - r <= X(size, c) <= cx + r && cy - r <= Y(size, c) <= cy + r
  }

  lemma WithinIsNear(size: Size, center: nat, radius: nat, c: nat)
    ensures Within(size, X(size, center), Y(size, center), radius, c)
      <==> c < Cells(size) && Chebyshev(size, center, c) <= radius
  {
  }

  /** The first cell of land within one step with room; none when there is none. */
  ghost predicate FirstLand(rules: Ruleset, cells: seq<Cell>, occ: seq<nat>, center: nat, site: Option<nat>) {
    match site
    case None => forall c: nat :: c < |cells| && Chebyshev(rules.size, center, c) <= 1 ==> !FreeLand(rules, cells, occ, c)
    case Some(s) =>
      && FreeLand(rules, cells, occ, s) && Chebyshev(rules.size, center, s) <= 1
      && (forall c: nat :: c < |cells| && Chebyshev(rules.size, center, c) <= 1 && FreeLand(rules, cells, occ, c) ==> s <= c)
  }

  /** The land within one step of a cell. */
  ghost predicate LandAround(rules: Ruleset, cells: seq<Cell>, center: nat, targets: seq<nat>) {
    && Increasing(targets)
    && (forall c: nat :: c in targets <==> c < |cells| && Chebyshev(rules.size, center, c) <= 1 && IsLand(cells[c].biome))
  }

  method Targets(w: World, rules: Ruleset, center: nat) returns (targets: seq<nat>)
    requires |w.cells| == Cells(rules.size)
    ensures LandAround(rules, w.cells, center, targets)
  {
    hide Chebyshev;
    var square := SquareOf(rules.size, center, 1);
    targets := [];
    for k := 0 to |square|
      invariant Increasing(targets)
      invariant forall t: nat :: t in targets <==> t in square[..k] && t < |w.cells| && IsLand(w.cells[t].biome)
    {
      assert square[k] in square;
      assert square[..k + 1] == square[..k] + [square[k]];
      if IsLand(w.cells[square[k]].biome) {
        forall j | 0 <= j < |targets|
          ensures targets[j] < square[k]
        {
          assert targets[j] in targets;
        }
        targets := targets + [square[k]];
      }
    }
    assert square[..|square|] == square;
  }

  method FirstRoom(w: World, rules: Ruleset, occ: seq<nat>, center: nat, targets: seq<nat>) returns (site: Option<nat>)
    requires LandAround(rules, w.cells, center, targets) && |occ| == |w.cells|
    ensures FirstLand(rules, w.cells, occ, center, site)
  {
    hide Chebyshev;
    for k := 0 to |targets|
      invariant forall j :: 0 <= j < k ==> !FreeLand(rules, w.cells, occ, targets[j])
    {
      assert targets[k] in targets;
      if occ[targets[k]] < rules.maxPerCell {
        forall c: nat | c < |w.cells| && Chebyshev(rules.size, center, c) <= 1 && FreeLand(rules, w.cells, occ, c)
          ensures targets[k] <= c
        {
          var j :| 0 <= j < |targets| && targets[j] == c;
        }
        return Some(targets[k]);
      }
    }
    forall c: nat | c < |w.cells| && Chebyshev(rules.size, center, c) <= 1
      ensures !FreeLand(rules, w.cells, occ, c)
    {
      if c in targets {
        var j :| 0 <= j < |targets| && targets[j] == c;
      }
    }
    site := None;
  }
}
