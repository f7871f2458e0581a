/** What an organism weighs before it acts, core/src/sim.rs:1090-1179 and 1275-1321: where to go and whom to
    attack. */
module Choices {
  import opened Arithmetic
  import opened Genomes
  import opened Gifts
  import opened Grid
  import opened Hashing
  import opened Herd
  import opened Options
  import opened Randomness
  import opened Threats
  import opened TickState
  import opened Walks
  import opened WorldState

  // ---- The measures of a genome ----

  function Attack(rules: Ruleset, g: Genome): int {
    g.lanes[HUNTING] * rules.attackWeight + g.lanes[PERCEPTION]
  }

  function Defense(rules: Ruleset, g: Genome): int {
    g.lanes[DEFENSE] * rules.defenseWeight + g.lanes[MOVEMENT] + g.lanes[PERCEPTION] / 2
  }

  function Cover(rules: Ruleset, b: Biome): int
    requires |rules.biomes| == BIOMES
  {
    rules.biomes[BiomeCode(b)].cover
  }

  function Sight(g: Genome): nat {
    1 + g.lanes[PERCEPTION] / 3 + if HasGift(g, KEEN) then 1 else 0
  }

  function Steps(g: Genome): nat {
    (g.lanes[MOVEMENT] + 2) / 3
  }

  /** Integer division that rounds toward zero. */
  function Quot(a: int, b: int): int
    requires b > 0
  {
    if a < 0 then -(-a / b) else a / b
  }

  lemma QuotRoundsDown(a: nat, b: nat)
    requires b > 0
    ensures RoundsDown(Quot(a, b), a, b)
  {
  }

  /** It rounds toward zero from both sides. */
  lemma QuotIsOdd(a: nat, b: nat, minus: int)
    requires b > 0 && minus == 0 - a
    ensures Quot(minus, b) == 0 - Quot(a, b)
  {
    assert -minus == a;
  }

  /** Hunters hunt only while hungry. */
  predicate HungryHunter(rules: Ruleset, o: Organism) {
    o.genome.lanes[HUNTING] > 0 && o.energy < Quot(rules.energyMax * rules.huntHungerPct, 100)
  }

  // ---- Where to go ----

  /** What an organism sees when its turn comes. */
  datatype Scene = Scene(rules: Ruleset, cells: seq<Cell>, biome: seq<Biome>, occ: seq<nat>, prey: seq<Prey>,
    hunter: seq<Hunter>, moveCost: seq<int>)

  function SceneOf(w: World, s: Scratch, rules: Ruleset): Scene
    reads w, s
  {
    Scene(rules, w.cells, s.biome, s.occ, s.prey, s.hunter, s.moveCost)
  }

  predicate Clear(v: Scene) {
    && |v.rules.biomes| == BIOMES
    && |v.cells| == |v.biome| == |v.occ| == |v.prey| == |v.hunter| == |v.moveCost| == Cells(v.rules.size)
  }

  function Bite(rules: Ruleset, g: Genome): nat {
    g.lanes[PLANT] * rules.bitePerPoint
  }

  function FoodScore(v: Scene, me: Organism, c: nat): int
    requires Clear(v) && c < |v.cells|
  {
    var bite := Bite(v.rules, me.genome);
    if bite > 0 then
      Quot((if v.cells[c].food < bite then v.cells[c].food else bite) * v.rules.plantEfficiency * v.rules.weights.foodPct, 100)
    else 0
  }

  function HuntScore(v: Scene, me: Organism, c: nat): int
    requires Clear(v) && c < |v.cells|
  {
    if HungryHunter(v.rules, me) && v.prey[c].Prey? && v.prey[c].clade != me.cladeId
      && Attack(v.rules, me.genome) > v.prey[c].defense
    then (Attack(v.rules, me.genome) - v.prey[c].defense) * v.rules.weights.huntPerPoint
    else 0
  }

  /** The margin of the strongest hunter near a cell over an organism that stands there. */
  function ThreatMargin(v: Scene, me: Organism, c: nat, power: int): int
    requires Clear(v) && c < |v.cells|
  {
    if power == NO_POWER then 0
    else Max(power - (Defense(v.rules, me.genome) + Cover(v.rules, v.biome[c])), 0)
  }

  function PlaceScore(v: Scene, me: Organism, c: nat): int
    requires Clear(v) && c < |v.cells|
  {
    var w := v.rules.weights;
    var standing: int := v.occ[c];
    var others := standing - if c == me.cell then 1 else 0;
    var distance := Chebyshev(v.rules.size, me.cell, c);
    (if FromHabitat(me.genome.habitat) == Some(v.biome[c]) then w.habitatBonus else 0)
    - others * w.crowdPerNeighbor
    - distance * v.moveCost[c]
    + distance * me.genome.dispersal * w.dispersalPerStep
  }

  /** The score of a cell when the strongest hunter of another clade near it has this power. */
  function ScoreAgainst(v: Scene, me: Organism, c: nat, power: int): int
    requires Clear(v) && c < |v.cells|
  {
    FoodScore(v, me, c) + HuntScore(v, me, c)
    - Quot(ThreatMargin(v, me, c, power) * v.rules.weights.dangerPerPoint * (4 - me.genome.boldness), 4)
    + PlaceScore(v, me, c)
  }

  /** The score of a cell, by a scan of the hunters around it. */
  function Score(v: Scene, me: Organism, c: nat): int
    requires Clear(v) && c < |v.cells|
  {
    ScoreAgainst(v, me, c, Scan(v.hunter, v.rules.size, c, me.cladeId))
  }

  /** A cell within sight where the organism is or could stand. */
  predicate Candidate(v: Scene, me: Organism, c: nat)
    requires Clear(v)
  {
    c < |v.cells| && Chebyshev(v.rules.size, me.cell, c) <= Sight(me.genome) && Passable(v.biome[c])
    && (c == me.cell || v.occ[c] < v.rules.maxPerCell)
  }

  function TieDraw(rng: Rng, tick: u32, me: Organism, c: nat): nat {
    rng.raw(tick, MoveTie, me.id % WORDS, c)
  }

  /** b is at least as good a target as c: a higher score, or the same and no larger a draw. */
  predicate AsGood(v: Scene, rng: Rng, tick: u32, me: Organism, b: nat, c: nat)
    requires Clear(v) && b < |v.cells| && c < |v.cells|
  {
    Score(v, me, c) < Score(v, me, b)
    || (Score(v, me, c) == Score(v, me, b) && TieDraw(rng, tick, me, b) <= TieDraw(rng, tick, me, c))
  }

  /** The best so far: nothing yet, or a cell with its score and, once a tie has asked for it, its draw. */
  datatype Best = Unset | Best(cell: nat, score: int, tie: Option<nat>)

  ghost predicate BestOf(v: Scene, rng: Rng, tick: u32, me: Organism, best: Best, seen: set<nat>)
    requires Clear(v)
  {
    match best
    case Unset => forall c <- seen :: !Candidate(v, me, c)
    case Best(b, score, tie) =>
      && Candidate(v, me, b) && score == Score(v, me, b)
      && (tie.Some? ==> tie.value == TieDraw(rng, tick, me, b))
      && (forall c <- seen :: Candidate(v, me, c) ==> AsGood(v, rng, tick, me, b, c))
  }

  /** One more candidate; the draws are made only when a tie needs them. */
  function Considered(rng: Rng, tick: u32, me: Organism, best: Best, c: nat, score: int): Best {
    if best == Unset || score > best.score then Best(c, score, None)
    else if score == best.score then
      var current := if best.tie.Some? then best.tie.value else TieDraw(rng, tick, me, best.cell);
      var candidate := TieDraw(rng, tick, me, c);
      if candidate < current then Best(c, score, Some(candidate)) else Best(best.cell, score, Some(current))
    else best
  }

  lemma ConsideredKeeps(v: Scene, rng: Rng, tick: u32, me: Organism, best: Best, seen: set<nat>, c: nat)
    requires Clear(v) && BestOf(v, rng, tick, me, best, seen) && Candidate(v, me, c)
    ensures BestOf(v, rng, tick, me, Considered(rng, tick, me, best, c, Score(v, me, c)), seen + {c})
  {
    hide Score, TieDraw, Candidate;
  }

  lemma SkippedKeeps(v: Scene, rng: Rng, tick: u32, me: Organism, best: Best, seen: set<nat>, c: nat)
    requires Clear(v) && BestOf(v, rng, tick, me, best, seen) && !Candidate(v, me, c)
    ensures BestOf(v, rng, tick, me, best, seen + {c})
  {
    hide Score, TieDraw, Candidate;
  }

  /** Weighs a cell through the table of threats. */
  method Weigh(w: World, s: Scratch, rules: Ruleset, me: Organism, c: nat) returns (score: int)
    requires Ticking(w, s, rules) && c < |w.cells| && Clear(SceneOf(w, s, rules))
    ensures score == Score(SceneOf(w, s, rules), me, c)
  {
    hide Crowd, ClansFine, Count, Sound, HerdFine, CellsFine, ActingFine, Area, FoodScore, HuntScore, PlaceScore;
    var power := Answer(s.threat[c], me.cladeId);
    score := ScoreAgainst(Scene(rules, w.cells, s.biome, s.occ, s.prey, s.hunter, s.moveCost), me, c, power);
  }

  /** The cells of the rows above dy, and of row dy left of dx, as seen from (x, y). */
  predicate Before(size: Size, here: nat, c: nat, dy: int, dx: int) {
    Y(size, c) - Y(size, here) < dy || (Y(size, c) - Y(size, here) == dy && X(size, c) - X(size, here) < dx)
  }

  /** The next cell of a row is the only one that comes in. */
  lemma BeforeNext(size: Size, here: nat, dy: int, dx: int)
    ensures forall c: nat :: c < Cells(size) && Before(size, here, c, dy, dx + 1) && !Before(size, here, c, dy, dx) ==>
      At(size, X(size, here) + dx, Y(size, here) + dy) == Some(c)
  {
    hide At, X, Y;
    forall c: nat | c < Cells(size) && Before(size, here, c, dy, dx + 1) && !Before(size, here, c, dy, dx)
      ensures At(size, X(size, here) + dx, Y(size, here) + dy) == Some(c)
    {
      CellInside(size, c);
    }
  }

  /** The best cell within sight. The table of threats and the draws made only for ties change nothing:
      the result scores highest by a plain scan, and among equals it has the smallest draw. */
  method ChooseTarget(w: World, s: Scratch, rules: Ruleset, rng: Rng, tick: u32, i: nat) returns (target: nat)
    requires Ticking(w, s, rules) && i < |w.organisms| && s.alive[i]
    ensures Clear(SceneOf(w, s, rules))
    ensures Candidate(SceneOf(w, s, rules), w.organisms[i], target)
    ensures forall c: nat :: Candidate(SceneOf(w, s, rules), w.organisms[i], c) ==>
      AsGood(SceneOf(w, s, rules), rng, tick, w.organisms[i], target, c)
    ensures forall c: nat :: Candidate(SceneOf(w, s, rules), w.organisms[i], c) ==>
      (var best, other := Score(SceneOf(w, s, rules), w.organisms[i], target), Score(SceneOf(w, s, rules), w.organisms[i], c);
      other < best || (other == best && rng.raw(tick, MoveTie, w.organisms[i].id % WORDS, target)
        <= rng.raw(tick, MoveTie, w.organisms[i].id % WORDS, c)))
  {
    hide ClansFine, Count, Sound, Lists, Answers, CellFine, Score, TieDraw, IsValid, Ascending, Chebyshev;
    var me := w.organisms[i];
    ghost var v := SceneOf(w, s, rules);
    var here, radius: int := me.cell, Sight(me.genome);
    var x0: int, y0: int := X(rules.size, here), Y(rules.size, here);
    var best := Unset;
    ghost var seen: set<nat> := {};
    forall c: nat | Candidate(v, me, c)
      ensures !Before(rules.size, here, c, -radius, -radius)
    {
      SightBounds(rules.size, here, c, radius);
    }
    for dy := -radius to radius + 1
      invariant BestOf(v, rng, tick, me, best, seen)
      invariant forall c: nat :: Candidate(v, me, c) && Before(rules.size, here, c, dy, -radius) ==> c in seen
    {
      for dx := -radius to radius + 1
        invariant BestOf(v, rng, tick, me, best, seen)
        invariant forall c: nat :: Candidate(v, me, c) && Before(rules.size, here, c, dy, dx) ==> c in seen
      {
        var cell := At(rules.size, x0 + dx, y0 + dy);
        if cell.Some? {
          var c := cell.value;
          WithinSight(rules.size, here, c, radius, dx, dy);
          if Passable(s.biome[c]) && (c == here || s.occ[c] < rules.maxPerCell) {
            var score := Weigh(w, s, rules, me, c);
            ConsideredKeeps(v, rng, tick, me, best, seen, c);
            best := Considered(rng, tick, me, best, c, score);
          } else {
            SkippedKeeps(v, rng, tick, me, best, seen, c);
          }
          seen := seen + {c};
        }
        BeforeNext(rules.size, here, dy, dx);
        assert forall c: nat :: Candidate(v, me, c) && Before(rules.size, here, c, dy, dx + 1) ==> c in seen;
      }
      forall c: nat | Candidate(v, me, c) && Before(rules.size, here, c, dy + 1, -radius)
        ensures c in seen
      {
        SightBounds(rules.size, here, c, radius);
      }
    }
    forall c: nat | Candidate(v, me, c)
      ensures c in seen
    {
      SightBounds(rules.size, here, c, radius);
    }
    StandsInSight(w, s, rules, i);
    target := best.cell;
    forall c: nat | Candidate(v, me, c)
      ensures Score(v, me, c) < Score(v, me, target) || (Score(v, me, c) == Score(v, me, target)
        && rng.raw(tick, MoveTie, me.id % WORDS, target) <= rng.raw(tick, MoveTie, me.id % WORDS, c))
    {
      AsGoodMeans(v, rng, tick, me, target, c);
    }
  }

  lemma AsGoodMeans(v: Scene, rng: Rng, tick: u32, me: Organism, b: nat, c: nat)
    requires Clear(v) && b < |v.cells| && c < |v.cells| && AsGood(v, rng, tick, me, b, c)
    ensures Score(v, me, c) < Score(v, me, b) || (Score(v, me, c) == Score(v, me, b)
      && rng.raw(tick, MoveTie, me.id % WORDS, b) <= rng.raw(tick, MoveTie, me.id % WORDS, c))
  {
    hide Score;
  }

  lemma WithinSight(size: Size, here: nat, c: nat, radius: int, dx: int, dy: int)
    requires c < Cells(size) && At(size, X(size, here) + dx, Y(size, here) + dy) == Some(c)
    requires -radius <= dx <= radius && -radius <= dy <= radius
    ensures Chebyshev(size, here, c) <= radius
  {
  }

  lemma SightBounds(size: Size, here: nat, c: nat, radius: int)
    requires Chebyshev(size, here, c) <= radius
    ensures -radius <= X(size, c) - X(size, here) <= radius
    ensures -radius <= Y(size, c) - Y(size, here) <= radius
  {
  }

  lemma StandsInSight(w: World, s: Scratch, rules: Ruleset, i: nat)
    requires Ticking(w, s, rules) && i < |w.organisms| && Clear(SceneOf(w, s, rules))
    ensures Candidate(SceneOf(w, s, rules), w.organisms[i], w.organisms[i].cell)
  {
    hide ClansFine, Count, Sound, Crowd, TablesFine, CellFine, IsValid, Ascending;
    assert Stands(w.cells, w.organisms[i]);
    assert ActsAs(s.biome[w.organisms[i].cell], w.cells[w.organisms[i].cell].biome);
  }

  // ---- Whom to attack ----

  function Margin(rules: Ruleset, biome: seq<Biome>, me: Organism, o: Organism): int
    requires |rules.biomes| == BIOMES && o.cell < |biome|
  {
    Attack(rules, me.genome) - (Defense(rules, o.genome) + Cover(rules, biome[o.cell]))
  }

  /** The margin in points: a weight for every point of hunting and of defense, one for perception and for movement,
      half of one for the defender's perception, and the cover of its ground. */
  lemma MarginInPoints(rules: Ruleset, biome: seq<Biome>, me: Organism, o: Organism)
    requires |rules.biomes| == BIOMES && o.cell < |biome|
    ensures var h, d := me.genome.lanes, o.genome.lanes;
      var twice := 2 * (rules.attackWeight * h[HUNTING] + h[PERCEPTION]
        - (rules.defenseWeight * d[DEFENSE] + d[MOVEMENT] + rules.biomes[BiomeCode(biome[o.cell])].cover)) - d[PERCEPTION];
      twice <= 2 * Margin(rules, biome, me, o) <= twice + 1
  {
  }

  lemma AttackGrows(rules: Ruleset, g: Genome, g': Genome)
    requires rules.attackWeight >= 0
    requires g'.lanes[HUNTING] >= g.lanes[HUNTING] && g'.lanes[PERCEPTION] >= g.lanes[PERCEPTION]
    ensures Attack(rules, g') >= Attack(rules, g)
  {
    MulMonotone(g.lanes[HUNTING], g'.lanes[HUNTING], rules.attackWeight);
  }

  lemma DefenseGrows(rules: Ruleset, g: Genome, g': Genome)
    requires rules.defenseWeight >= 0 && g'.lanes[DEFENSE] >= g.lanes[DEFENSE]
    requires g'.lanes[MOVEMENT] >= g.lanes[MOVEMENT] && g'.lanes[PERCEPTION] >= g.lanes[PERCEPTION]
    ensures Defense(rules, g') >= Defense(rules, g)
  {
    MulMonotone(g.lanes[DEFENSE], g'.lanes[DEFENSE], rules.defenseWeight);
  }

  /** A living organism within one cell, not kin, that the hunter's attack reaches. */
  predicate Huntable(rules: Ruleset, biome: seq<Biome>, os: seq<Organism>, alive: seq<bool>, i: nat, me: Organism,
      pos: nat, j: nat)
    requires |rules.biomes| == BIOMES && |os| == |alive|
  {
    j < |os| && j != i && alive[j] && os[j].cell < |biome| && Chebyshev(rules.size, pos, os[j].cell) <= 1
    && Margin(rules, biome, me, os[j]) >= 0 && Distance(os[j].genome, me.genome) > rules.kinDistance
  }

  /** j is at least as good a prey as k: a larger margin, or the same and no larger an id. */
  predicate PreyAsGood(rules: Ruleset, biome: seq<Biome>, os: seq<Organism>, me: Organism, j: nat, k: nat)
    requires |rules.biomes| == BIOMES && j < |os| && k < |os| && os[j].cell < |biome| && os[k].cell < |biome|
  {
    Margin(rules, biome, me, os[k]) < Margin(rules, biome, me, os[j])
    || (Margin(rules, biome, me, os[k]) == Margin(rules, biome, me, os[j]) && os[j].id <= os[k].id)
  }

  ghost predicate BestPrey(rules: Ruleset, biome: seq<Biome>, os: seq<Organism>, alive: seq<bool>, i: nat,
      me: Organism, pos: nat, best: Option<nat>, seen: set<nat>)
    requires |rules.biomes| == BIOMES && |os| == |alive|
  {
    match best
    case None => forall k <- seen :: !Huntable(rules, biome, os, alive, i, me, pos, k)
    case Some(j) =>
      && Huntable(rules, biome, os, alive, i, me, pos, j)
      && (forall k <- seen :: Huntable(rules, biome, os, alive, i, me, pos, k) ==>
            PreyAsGood(rules, biome, os, me, j, k))
  }

  /** Scanning the index of the 3 x 3 area finds the best prey among all living organisms: the nearest
      margin first, then the smallest id; none only when nobody can be hunted. */
  method ChoosePrey(w: World, s: Scratch, rules: Ruleset, i: nat, me: Organism, pos: nat) returns (prey: Option<nat>)
    requires Ticking(w, s, rules) && pos < |w.cells|
    ensures match prey
      case None => forall k :: !Huntable(rules, s.biome, w.organisms, s.alive, i, me, pos, k)
      case Some(j) =>
        && Huntable(rules, s.biome, w.organisms, s.alive, i, me, pos, j)
        && (forall k: nat :: Huntable(rules, s.biome, w.organisms, s.alive, i, me, pos, k) ==>
              PreyAsGood(rules, s.biome, w.organisms, me, j, k))
        && (forall k: nat :: Huntable(rules, s.biome, w.organisms, s.alive, i, me, pos, k) ==>
              (var best, other := Margin(rules, s.biome, me, w.organisms[j]), Margin(rules, s.biome, me, w.organisms[k]);
              other < best || (other == best && w.organisms[j].id <= w.organisms[k].id)))
  {
    hide ClansFine, Count, Sound, TablesFine, CellFine, IsValid, Ascending, Chebyshev, Margin, Distance;
    var x: int, y: int := X(rules.size, pos), Y(rules.size, pos);
    prey := None;
    ghost var seen: set<nat> := {};
    forall k: nat | Huntable(rules, s.biome, w.organisms, s.alive, i, me, pos, k)
      ensures !Before(rules.size, pos, w.organisms[k].cell, -1, -1)
    {
      SightBounds(rules.size, pos, w.organisms[k].cell, 1);
    }
    for dy := -1 to 2
      invariant BestPrey(rules, s.biome, w.organisms, s.alive, i, me, pos, prey, seen)
      invariant forall k: nat :: (Huntable(rules, s.biome, w.organisms, s.alive, i, me, pos, k)
        && Before(rules.size, pos, w.organisms[k].cell, dy, -1)) ==> k in seen
    {
      for dx := -1 to 2
        invariant BestPrey(rules, s.biome, w.organisms, s.alive, i, me, pos, prey, seen)
        invariant forall k: nat :: (Huntable(rules, s.biome, w.organisms, s.alive, i, me, pos, k)
          && Before(rules.size, pos, w.organisms[k].cell, dy, dx)) ==> k in seen
      {
        var cell := At(rules.size, x + dx, y + dy);
        if cell.Some? {
          WithinSight(rules.size, pos, cell.value, 1, dx, dy);
          ghost var scanned;
          prey, scanned := ScanCell(w, s, rules, i, me, pos, cell.value, prey, seen);
          seen := seen + scanned;
        }
        forall k: nat | Huntable(rules, s.biome, w.organisms, s.alive, i, me, pos, k)
            && Before(rules.size, pos, w.organisms[k].cell, dy, dx + 1)
          ensures k in seen
        {
          if !Before(rules.size, pos, w.organisms[k].cell, dy, dx) {
            CellInside(rules.size, w.organisms[k].cell);
          }
        }
      }
      forall k: nat | Huntable(rules, s.biome, w.organisms, s.alive, i, me, pos, k)
          && Before(rules.size, pos, w.organisms[k].cell, dy + 1, -1)
        ensures k in seen
      {
        SightBounds(rules.size, pos, w.organisms[k].cell, 1);
      }
    }
    forall k: nat | Huntable(rules, s.biome, w.organisms, s.alive, i, me, pos, k)
      ensures k in seen
    {
      SightBounds(rules.size, pos, w.organisms[k].cell, 1);
    }
  }

  /** Weighs the organisms listed in one cell of the area. */
  method ScanCell(w: World, s: Scratch, rules: Ruleset, i: nat, me: Organism, pos: nat, n: nat, before: Option<nat>,
      ghost seen: set<nat>)
    returns (prey: Option<nat>, ghost scanned: set<nat>)
    requires Ticking(w, s, rules) && pos < |w.cells| && n < |w.cells| && Chebyshev(rules.size, pos, n) <= 1
    requires BestPrey(rules, s.biome, w.organisms, s.alive, i, me, pos, before, seen)
    ensures BestPrey(rules, s.biome, w.organisms, s.alive, i, me, pos, prey, seen + scanned)
    ensures forall k :: 0 <= k < |w.organisms| && s.alive[k] && w.organisms[k].cell == n ==> k in scanned
  {
    hide ClansFine, Count, Sound, TablesFine, CellFine, IsValid, Ascending, Chebyshev, Margin, Distance;
    prey, scanned := before, {};
    assert Lists(Listed(s.Ix(), n), w.organisms, s.alive, n);
    for m := 0 to s.occ[n]
      invariant BestPrey(rules, s.biome, w.organisms, s.alive, i, me, pos, prey, seen + scanned)
      invariant forall k :: 0 <= k < m ==> s.members[n][k] in scanned
    {
      var j := s.members[n][m];
      assert j in Listed(s.Ix(), n);
      assert Here(w.organisms, s.alive, n, j);
      var o := w.organisms[j];
      ghost var others := scanned;
      scanned := scanned + {j};
      assert seen + scanned == seen + others + {j};
      if j == i || !s.alive[j] {
        continue;
      }
      var margin := Margin(rules, s.biome, me, o);
      if margin < 0 {
        continue;
      }
      var distance := ComputeDistance(o.genome, me.genome);
      if distance <= rules.kinDistance {
        continue;
      }
      var better := match prey
        case None => true
        case Some(b) =>
          var best := w.organisms[b];
          margin > Margin(rules, s.biome, me, best) || (margin == Margin(rules, s.biome, me, best) && o.id < best.id);
      if better {
        prey := Some(j);
      }
    }
    forall k | 0 <= k < |w.organisms| && s.alive[k] && w.organisms[k].cell == n
      ensures k in scanned
    {
      assert Here(w.organisms, s.alive, n, k);
      var p :| 0 <= p < |Listed(s.Ix(), n)| && Listed(s.Ix(), n)[p] == k;
    }
  }
}
