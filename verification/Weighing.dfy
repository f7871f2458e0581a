/** What a cell is worth to an organism, core/src/sim.rs:1123-1160: what draws it there and what keeps it away. */
module Weighing {
  import opened Arithmetic
  import opened Choices
  import opened Genomes
  import opened Gifts
  import opened Grid
  import opened Options
  import opened Threats
  import opened Walks
  import opened WorldState

  /** The weights as the rules have them: none turns an attraction into its opposite. */
  predicate Weighted(rules: Ruleset) {
    && rules.plantEfficiency >= 0 && rules.weights.foodPct >= 0 && rules.weights.huntPerPoint >= 0
    && rules.weights.dangerPerPoint >= 0 && rules.weights.habitatBonus >= 0 && rules.weights.crowdPerNeighbor >= 0
    && rules.weights.dispersalPerStep >= 0
  }

  // ---- Senses ----

  /** A hunter is hungry below its share of what it can hold, rounded down. */
  lemma HungryExactly(rules: Ruleset, o: Organism)
    requires rules.energyMax >= 0 && rules.huntHungerPct >= 0
    ensures HungryHunter(rules, o) <==>
      o.genome.lanes[HUNTING] >= 1 && 100 * (o.energy + 1) <= rules.energyMax * rules.huntHungerPct
  {
    MulMonotone(0, rules.huntHungerPct, rules.energyMax);
    QuotRoundsDown(rules.energyMax * rules.huntHungerPct, 100);
  }

  /** Sight is one cell, one more for every three points of perception, and one more for the keen. */
  lemma SightExactly(g: Genome)
    ensures RoundsDown(Sight(g) - 1 - (if HasGift(g, KEEN) then 1 else 0), g.lanes[PERCEPTION], 3)
  {
  }

  /** Three points of movement make a step, and so does a part of them. */
  lemma StepsExactly(g: Genome)
    ensures g.lanes[MOVEMENT] <= 3 * Steps(g) < g.lanes[MOVEMENT] + 3
  {
  }

  // ---- The parts of a score ----

  ghost function Meal(v: Scene, me: Organism, c: nat): nat
    requires Clear(v) && c < |v.cells|
  {
    if v.cells[c].food < v.rules.bitePerPoint * me.genome.lanes[PLANT] then v.cells[c].food
    else v.rules.bitePerPoint * me.genome.lanes[PLANT]
  }

  /** By how much the hunter's attack exceeds the weakest defense of another clade in the cell; nothing to one not hungry. */
  ghost function Chance(v: Scene, me: Organism, c: nat): int
    requires Clear(v) && c < |v.cells|
  {
    if HungryHunter(v.rules, me) && v.prey[c].Prey? && v.prey[c].clade != me.cladeId
    then Max(0, Attack(v.rules, me.genome) - v.prey[c].defense) else 0
  }

  /** By how much the strongest hunter near the cell exceeds the organism's defense there. */
  ghost function Peril(v: Scene, me: Organism, c: nat): int
    requires Clear(v) && c < |v.cells|
  {
    if Scan(v.hunter, v.rules.size, c, me.cladeId) == NO_POWER then 0
    else Max(0, Scan(v.hunter, v.rules.size, c, me.cladeId) - Defense(v.rules, me.genome)
      - v.rules.biomes[BiomeCode(v.biome[c])].cover)
  }

  ghost function Others(v: Scene, me: Organism, c: nat): int
    requires Clear(v) && c < |v.cells|
  {
    var all: int := v.occ[c];
    if c == me.cell then all - 1 else all
  }

  /** The score: a share of the meal and of the peril, each rounded down, the chance of prey, the preferred biome, and for
      every other organism and every step of the way its price. */
  lemma ScoreInParts(v: Scene, me: Organism, c: nat) returns (food: int, danger: int)
    requires Clear(v) && c < |v.cells| && Weighted(v.rules) && me.genome.boldness <= 3
    ensures RoundsDown(food, Meal(v, me, c) * v.rules.plantEfficiency * v.rules.weights.foodPct, 100)
    ensures RoundsDown(danger, Peril(v, me, c) * v.rules.weights.dangerPerPoint * (4 - me.genome.boldness), 4)
    ensures Score(v, me, c) == food - danger + Chance(v, me, c) * v.rules.weights.huntPerPoint
      + (if FromHabitat(me.genome.habitat) == Some(v.biome[c]) then v.rules.weights.habitatBonus else 0)
      - v.rules.weights.crowdPerNeighbor * Others(v, me, c)
      + Chebyshev(v.rules.size, me.cell, c) * (me.genome.dispersal * v.rules.weights.dispersalPerStep - v.moveCost[c])
  {
    food := FoodScore(v, me, c);
    FoodRoundsDown(v, me, c);
    danger := Quot(ThreatMargin(v, me, c, Scan(v.hunter, v.rules.size, c, me.cladeId)) * v.rules.weights.dangerPerPoint
      * (4 - me.genome.boldness), 4);
    DangerRoundsDown(v, me, c);
    HuntIsChance(v, me, c);
    PlaceInParts(v, me, c);
    hide Quot, FoodScore, HuntScore, PlaceScore, ThreatMargin, RoundsDown, Scan, Chebyshev, Meal, Chance, Peril;
  }

  lemma FoodRoundsDown(v: Scene, me: Organism, c: nat)
    requires Clear(v) && c < |v.cells| && Weighted(v.rules)
    ensures RoundsDown(FoodScore(v, me, c), Meal(v, me, c) * v.rules.plantEfficiency * v.rules.weights.foodPct, 100)
  {
    var meal := Meal(v, me, c);
    MulMonotone(0, v.rules.plantEfficiency, meal);
    MulMonotone(0, meal * v.rules.plantEfficiency, v.rules.weights.foodPct);
    QuotRoundsDown(meal * v.rules.plantEfficiency * v.rules.weights.foodPct, 100);
    assert Bite(v.rules, me.genome) == v.rules.bitePerPoint * me.genome.lanes[PLANT];
    if meal == 0 {
      assert meal * v.rules.plantEfficiency * v.rules.weights.foodPct == 0;
    }
    hide Quot;
  }

  lemma DangerRoundsDown(v: Scene, me: Organism, c: nat)
    requires Clear(v) && c < |v.cells| && Weighted(v.rules) && me.genome.boldness <= 3
    ensures var margin := ThreatMargin(v, me, c, Scan(v.hunter, v.rules.size, c, me.cladeId));
      && margin == Peril(v, me, c)
      && RoundsDown(Quot(margin * v.rules.weights.dangerPerPoint * (4 - me.genome.boldness), 4),
           margin * v.rules.weights.dangerPerPoint * (4 - me.genome.boldness), 4)
  {
    hide Scan;
    var margin := Peril(v, me, c);
    MulMonotone(0, v.rules.weights.dangerPerPoint, margin);
    MulMonotone(0, margin * v.rules.weights.dangerPerPoint, 4 - me.genome.boldness);
    QuotRoundsDown(margin * v.rules.weights.dangerPerPoint * (4 - me.genome.boldness), 4);
    hide Quot, RoundsDown;
  }

  lemma HuntIsChance(v: Scene, me: Organism, c: nat)
    requires Clear(v) && c < |v.cells|
    ensures HuntScore(v, me, c) == Chance(v, me, c) * v.rules.weights.huntPerPoint
  {
    hide Attack, HungryHunter;
  }

  lemma PlaceInParts(v: Scene, me: Organism, c: nat)
    requires Clear(v) && c < |v.cells|
    ensures PlaceScore(v, me, c)
      == (if FromHabitat(me.genome.habitat) == Some(v.biome[c]) then v.rules.weights.habitatBonus else 0)
        - v.rules.weights.crowdPerNeighbor * Others(v, me, c)
        + Chebyshev(v.rules.size, me.cell, c) * (me.genome.dispersal * v.rules.weights.dispersalPerStep - v.moveCost[c])
  {
    hide Chebyshev;
    var d, g, w, m := Chebyshev(v.rules.size, me.cell, c), me.genome.dispersal, v.rules.weights.dispersalPerStep, v.moveCost[c];
    assert d * (g * w - m) == d * g * w - d * m;
  }

  // ---- What draws and what drives away ----

  /** More food never makes a cell worse, and each further organism in it makes it worse by its price. */
  lemma FoodDrawsAndCrowdsRepel(v: Scene, v': Scene, me: Organism, c: nat, more: nat)
    requires Clear(v) && Clear(v') && c < |v.cells| && Weighted(v.rules) && me.genome.boldness <= 3
    requires v' == v.(cells := v'.cells, occ := v'.occ) && v'.cells[c].food >= v.cells[c].food && v'.occ[c] == v.occ[c] + more
    ensures Score(v', me, c) + v.rules.weights.crowdPerNeighbor * more >= Score(v, me, c)
  {
    var food, danger := ScoreInParts(v, me, c);
    var food', danger' := ScoreInParts(v', me, c);
    CrowdsCost(v.rules.weights.crowdPerNeighbor, Others(v, me, c), more);
    MoreFood(Meal(v, me, c), Meal(v', me, c), v.rules.plantEfficiency, v.rules.weights.foodPct, food, food');
    assert Peril(v', me, c) == Peril(v, me, c) && Chance(v', me, c) == Chance(v, me, c);
    var peril := Peril(v, me, c) * v.rules.weights.dangerPerPoint * (4 - me.genome.boldness);
    FloorMonotone(danger, peril, danger', peril, 4);
    FloorMonotone(danger', peril, danger, peril, 4);
    hide RoundsDown, Score, Meal, Peril, Scan, Chebyshev, Chance, Weighted, Clear;
  }

  lemma CrowdsCost(price: int, n: int, more: nat)
    ensures price * (n + more) == price * n + price * more
  {
  }

  lemma MoreFood(meal: nat, meal': nat, value: nat, pct: nat, food: int, food': int)
    requires meal <= meal' && RoundsDown(food, meal * value * pct, 100) && RoundsDown(food', meal' * value * pct, 100)
    ensures food <= food'
  {
    MulMonotone(meal, meal', value);
    MulMonotone(meal * value, meal' * value, pct);
    FloorMonotone(food, meal * value * pct, food', meal' * value * pct, 100);
  }

  /** The bolder an organism, the better it likes every cell. */
  lemma TheBoldFearLess(v: Scene, me: Organism, c: nat, bolder: nat)
    requires Clear(v) && c < |v.cells| && Weighted(v.rules) && me.genome.boldness <= bolder <= 3
    ensures Score(v, me.(genome := me.genome.(boldness := bolder)), c) >= Score(v, me, c)
  {
    var me' := me.(genome := me.genome.(boldness := bolder));
    var food, danger := ScoreInParts(v, me, c);
    var food', danger' := ScoreInParts(v, me', c);
    var worth := Meal(v, me, c) * v.rules.plantEfficiency * v.rules.weights.foodPct;
    FloorMonotone(food, worth, food', worth, 100);
    var peril := Peril(v, me, c) * v.rules.weights.dangerPerPoint;
    MulMonotone(0, v.rules.weights.dangerPerPoint, Peril(v, me, c));
    MulMonotone(4 - bolder, 4 - me.genome.boldness, peril);
    FloorMonotone(danger', peril * (4 - bolder), danger, peril * (4 - me.genome.boldness), 4);
    assert Chance(v, me', c) == Chance(v, me, c) && Meal(v, me', c) == Meal(v, me, c) && Peril(v, me', c) == Peril(v, me, c);
    hide RoundsDown, Score, Meal, Peril, Scan, Chebyshev, Chance;
  }
}
