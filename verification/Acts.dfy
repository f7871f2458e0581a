/** An organism's turn, core/src/sim.rs:1010-1088: movement, then an attack or a meal. */
module Acts {
  import opened Arithmetic
  import opened Choices
  import opened Cohesion
  import opened Deaths
  import opened Genomes
  import opened Gifts
  import opened Grid
  import opened Hashing
  import opened Herd
  import opened Randomness
  import opened TickState
  import opened Walks
  import opened WorldState

  /** What an organism did after it moved. */
  datatype Deed = Rested | Attacked(prey: nat, won: bool) | Ate(eaten: nat, scraps: nat)

  /** Energy after a gain, never more than an organism can hold. */
  function Fed(rules: Ruleset, energy: int, gain: int): int {
    Min(energy + gain, rules.energyMax)
  }

  /** What a hunter gains from a kill. */
  function Spoils(rules: Ruleset, prey: Organism): int {
    Quot(Max(prey.energy, 0) * rules.predationEfficiencyPct, 100) + rules.bodyValue
  }

  const SCRAP_PCT: int := 33

  function MealGain(rules: Ruleset, eaten: nat, scraps: nat): int {
    eaten * rules.plantEfficiency + Quot(scraps * rules.plantEfficiency * SCRAP_PCT, 100)
  }

  /** What a meal takes from a cell: food up to the bite, and for a scavenger detritus up to the rest. */
  function Eaten(rules: Ruleset, g: Genome, cell: Cell): nat {
    if cell.food < Bite(rules, g) then cell.food else Bite(rules, g)
  }

  function Scraps(rules: Ruleset, g: Genome, cell: Cell): nat {
    var left := Bite(rules, g) - Eaten(rules, g, cell);
    if !HasGift(g, SCAVENGE) then 0 else if cell.detritus < left then cell.detritus else left
  }

  /** A kill feeds its hunter a share of what the prey had left, rounded down, and the worth of a body, up to what an organism
      can hold. */
  lemma KillFeeds(rules: Ruleset, energy: int, prey: Organism) returns (share: int)
    requires rules.predationEfficiencyPct >= 0
    ensures RoundsDown(share, if prey.energy > 0 then prey.energy * rules.predationEfficiencyPct else 0, 100)
    ensures var now := Fed(rules, energy, Spoils(rules, prey));
      now <= rules.energyMax && now <= energy + share + rules.bodyValue
      && (now == rules.energyMax || now == energy + share + rules.bodyValue)
  {
    share := Quot(Max(prey.energy, 0) * rules.predationEfficiencyPct, 100);
    QuotRoundsDown(Max(prey.energy, 0) * rules.predationEfficiencyPct, 100);
  }

  /** A meal never exceeds the bite or what the cell has; plants are taken first and as far as possible, and then a scavenger
      fills up with detritus as far as possible, which is worth a third as much. */
  lemma MealExactly(rules: Ruleset, g: Genome, cell: Cell)
    requires rules.plantEfficiency >= 0
    ensures var bite, eaten, scraps := g.lanes[PLANT] * rules.bitePerPoint, Eaten(rules, g, cell), Scraps(rules, g, cell);
      && eaten + scraps <= bite && eaten <= cell.food && scraps <= cell.detritus
      && (eaten == bite || eaten == cell.food)
      && (if HasGift(g, SCAVENGE) then eaten + scraps == bite || scraps == cell.detritus else scraps == 0)
      && RoundsDown(MealGain(rules, eaten, scraps), rules.plantEfficiency * (100 * eaten + 33 * scraps), 100)
  {
    var eaten, scraps := Eaten(rules, g, cell), Scraps(rules, g, cell);
    MulMonotone(0, scraps, rules.plantEfficiency);
    QuotRoundsDown(scraps * rules.plantEfficiency * SCRAP_PCT, 100);
    assert rules.plantEfficiency * (100 * eaten + 33 * scraps)
      == 100 * (eaten * rules.plantEfficiency) + scraps * rules.plantEfficiency * SCRAP_PCT;
    hide Quot, Eaten, Scraps;
  }

  /** The attack's roll against the defender's. */
  predicate Wins(rules: Ruleset, rng: Rng, tick: u32, biome: seq<Biome>, me: Organism, prey: Organism)
    requires |rules.biomes| == BIOMES && prey.cell < |biome|
  {
    var span := rules.rollSpan + 1;
    Attack(rules, me.genome) + Below(rng, tick, AttackRoll, me.id % WORDS, span)
    > Defense(rules, prey.genome) + Cover(rules, biome[prey.cell]) + Below(rng, tick, DefenseRoll, me.id % WORDS, span)
  }

  /** An attack is won exactly when the margin and the attacker's roll together exceed the defender's roll. */
  lemma WonByMargin(rules: Ruleset, rng: Rng, tick: u32, biome: seq<Biome>, me: Organism, prey: Organism)
    requires |rules.biomes| == BIOMES && prey.cell < |biome|
    ensures Wins(rules, rng, tick, biome, me, prey) <==>
      (Margin(rules, biome, me, prey) + Below(rng, tick, AttackRoll, me.id % WORDS, rules.rollSpan + 1)
        > Below(rng, tick, DefenseRoll, me.id % WORDS, rules.rollSpan + 1))
  {
    hide Attack, Defense, Cover, Below;
  }

  /** Rolls decide only what is close: a margin above the span always wins, one as far below never does. */
  lemma OutsideTheRoll(rules: Ruleset, rng: Rng, tick: u32, biome: seq<Biome>, me: Organism, prey: Organism)
    requires |rules.biomes| == BIOMES && prey.cell < |biome|
    ensures Margin(rules, biome, me, prey) > rules.rollSpan ==> Wins(rules, rng, tick, biome, me, prey)
    ensures Margin(rules, biome, me, prey) + rules.rollSpan <= 0 ==> !Wins(rules, rng, tick, biome, me, prey)
  {
    WonByMargin(rules, rng, tick, biome, me, prey);
  }

  /** Under the same draws a stronger hunter, or a weaker prey in its place, never loses a victory. */
  lemma StrongerStillWins(rules: Ruleset, rng: Rng, tick: u32, biome: seq<Biome>, me: Organism, prey: Organism,
      me': Organism, prey': Organism)
    requires |rules.biomes| == BIOMES && prey.cell < |biome| && rules.attackWeight >= 0 && rules.defenseWeight >= 0
    requires me'.id == me.id && prey'.cell == prey.cell
    requires me'.genome.lanes[HUNTING] >= me.genome.lanes[HUNTING]
    requires me'.genome.lanes[PERCEPTION] >= me.genome.lanes[PERCEPTION]
    requires prey'.genome.lanes[DEFENSE] <= prey.genome.lanes[DEFENSE]
    requires prey'.genome.lanes[MOVEMENT] <= prey.genome.lanes[MOVEMENT]
    requires prey'.genome.lanes[PERCEPTION] <= prey.genome.lanes[PERCEPTION]
    requires Wins(rules, rng, tick, biome, me, prey)
    ensures Wins(rules, rng, tick, biome, me', prey')
  {
    WonByMargin(rules, rng, tick, biome, me, prey);
    WonByMargin(rules, rng, tick, biome, me', prey');
    AttackGrows(rules, me.genome, me'.genome);
    DefenseGrows(rules, prey'.genome, prey.genome);
    hide Wins, Attack, Defense, Cover;
  }

  /** One organism with another body: its id, clade and genome stay. */
  predicate SamePerson(o: Organism, o': Organism) {
    o'.id == o.id && o'.cladeId == o.cladeId && o'.genome == o.genome
  }

  /** Another body for one organism keeps everything but the index, which its caller has already moved. */
  lemma MovedKeepsTicking(w: World, s: Scratch, rules: Ruleset, os: seq<Organism>, i: nat)
    requires i < |os| == |w.organisms| && w.organisms == os[i := w.organisms[i]] && SamePerson(os[i], w.organisms[i])
    requires Stands(w.cells, w.organisms[i]) && w.organisms[i].energy <= rules.energyMax
    requires Sound(rules) && rules.maxPerCell <= 4 && w.size == rules.size && CellsFine(rules, w.cells)
    requires |os| == |s.alive| && HerdFine(rules, w.cells, os, w.nextOrganismId)
    requires Crowd(s.Ix(), |w.cells|, rules.maxPerCell, w.organisms, s.alive)
    requires ClansFine(os, s.alive, w.clades, w.nextCladeId)
    requires s.aliveCount == Count(os, s.alive, Anyone) <= rules.maxOrganisms
    requires SpentFine(s.spent, |os|) && ActingFine(w.cells, s.biome, s.moveCost)
    requires TablesFine(s.hunter, s.threat, s.prey, rules.size)
    ensures Ticking(w, s, rules)
  {
    hide Crowd, ClansFine, Count, Sound, TablesFine, IsValid, CellFine, ActingFine, SpentFine;
    SameClansKeepClans(os, w.organisms, s.alive, w.clades, w.nextCladeId);
    CountSame(os, w.organisms, s.alive, Anyone);
  }

  /** What a turn can change. */
  datatype Moment = Moment(os: seq<Organism>, alive: seq<bool>, cells: seq<Cell>, clades: map<nat, Clade>, spent: seq<int>,
    occ: seq<nat>)

  function Now(w: World, s: Scratch): Moment
    reads w, s
  {
    Moment(w.organisms, s.alive, w.cells, w.clades, s.spent, s.occ)
  }

  /** Where an organism goes: the cell within sight that scores highest by a plain scan, and among equals the one with the
      smallest draw. */
  ghost predicate BestTarget(v: Scene, rng: Rng, tick: u32, me: Organism, target: nat) {
    && Clear(v) && Candidate(v, me, target)
    && (forall c: nat :: Candidate(v, me, c) ==>
          Score(v, me, c) < Score(v, me, target) || (Score(v, me, c) == Score(v, me, target)
            && rng.raw(tick, MoveTie, me.id % WORDS, target) <= rng.raw(tick, MoveTie, me.id % WORDS, c)))
  }

  /** Organism i has walked towards a target, as far as it could, and has been charged for every step; one that cannot walk
      has not looked for one. */
  ghost predicate Walked(v: Scene, rng: Rng, tick: u32, m: Moment, m': Moment, i: nat, trail: seq<nat>, target: nat) {
    && i < |m.os| == |m.spent| && |trail| > 0 && |v.biome| == |v.moveCost|
    && (forall k :: 0 <= k < |trail| ==> trail[k] < |v.biome|)
    && trail[0] == m.os[i].cell
    && (if Steps(m.os[i].genome) > 0 then BestTarget(v, rng, tick, m.os[i], target) else target == m.os[i].cell)
    && Follows(v.biome, v.occ, v.rules.maxPerCell, v.rules.size, trail, target, Steps(m.os[i].genome))
    && m' == m.(occ := m'.occ, os := m.os[i := m.os[i].(cell := trail[|trail| - 1])],
         spent := m.spent[i := m.spent[i] + TrailCost(v.biome, v.moveCost, m.os[i].genome, trail)])
  }

  lemma IsBest(v: Scene, rng: Rng, tick: u32, me: Organism, target: nat)
    requires Clear(v) && Candidate(v, me, target)
    requires forall c: nat :: Candidate(v, me, c) ==>
      (var best, other := Score(v, me, target), Score(v, me, c);
      other < best || (other == best && rng.raw(tick, MoveTie, me.id % WORDS, target) <= rng.raw(tick, MoveTie, me.id % WORDS, c)))
    ensures BestTarget(v, rng, tick, me, target) && target < |v.cells|
  {
    hide Score;
  }

  /** Organism i walks to the best cell within sight. */
  method Move(w: World, s: Scratch, rules: Ruleset, rng: Rng, tick: u32, i: nat)
    returns (ghost trail: seq<nat>, ghost goal: nat)
    requires Ticking(w, s, rules) && i < |w.organisms| && s.alive[i]
    modifies w`organisms, s`occ, s`members, s`spent
    ensures Ticking(w, s, rules)
    ensures Trail(rules.size, s.biome, trail) && |trail| > 0 && trail[0] == old(w.organisms[i].cell)
    ensures |trail| <= Steps(old(w.organisms[i].genome)) + 1
    ensures w.organisms == old(w.organisms)[i := old(w.organisms)[i].(cell := trail[|trail| - 1])]
    ensures Walked(old(SceneOf(w, s, rules)), rng, tick, old(Now(w, s)), Now(w, s), i, trail, goal)
  {
    hide Crowd, ClansFine, Count, Sound, TablesFine, IsValid, CellFine, SpentFine, Ascending, Score, Chebyshev, Manhattan,
      AsGood, NextStep, Follows, Candidate, BestTarget, Walked, TrailCost;
    var me := w.organisms[i];
    assert Stands(w.cells, me);
    trail := [me.cell];
    ghost var os := w.organisms;
    assert os[i := os[i].(cell := me.cell)] == os;
    goal := me.cell;
    TickingLists(w, s, rules);
    Stay(SceneOf(w, s, rules), rng, tick, Now(w, s), i);
    if Steps(me.genome) > 0 {
      var target := ChooseTarget(w, s, rules, rng, tick, i);
      goal := target;
      IsBest(SceneOf(w, s, rules), rng, tick, me, target);
      if target != me.cell {
        ghost var v, m := SceneOf(w, s, rules), Now(w, s);
        var pos;
        pos, trail := Walk(w, s, rules, i, me.cell, target, Steps(me.genome));
        assert |trail| > 1 ==> Passable(s.biome[pos]) && ActsAs(s.biome[pos], w.cells[pos].biome);
        assert Stands(w.cells, me.(cell := pos));
        w.organisms := w.organisms[i := w.organisms[i].(cell := pos)];
        MovedKeepsTicking(w, s, rules, os, i);
        WalkedThere(v, rng, tick, m, Now(w, s), i, trail, target);
      } else {
        StayAtBest(SceneOf(w, s, rules), rng, tick, Now(w, s), i);
      }
    }
  }

  lemma WalkedThere(v: Scene, rng: Rng, tick: u32, m: Moment, m': Moment, i: nat, trail: seq<nat>, target: nat)
    requires i < |m.os| == |m.spent| && Steps(m.os[i].genome) > 0 && BestTarget(v, rng, tick, m.os[i], target)
    requires Trail(v.rules.size, v.biome, trail) && trail[0] == m.os[i].cell && |v.biome| == |v.moveCost|
    requires Follows(v.biome, v.occ, v.rules.maxPerCell, v.rules.size, trail, target, Steps(m.os[i].genome))
    requires m' == m.(occ := m'.occ, os := m.os[i := m.os[i].(cell := trail[|trail| - 1])],
      spent := m.spent[i := m.spent[i] + TrailCost(v.biome, v.moveCost, m.os[i].genome, trail)])
    ensures Walked(v, rng, tick, m, m', i, trail, target)
  {
    hide Follows, BestTarget, TrailCost, Chebyshev;
  }

  lemma Stay(v: Scene, rng: Rng, tick: u32, m: Moment, i: nat)
    requires i < |m.os| == |m.spent| && |v.biome| == |v.moveCost| && m.os[i].cell < |v.biome|
    ensures Steps(m.os[i].genome) == 0 ==> Walked(v, rng, tick, m, m, i, [m.os[i].cell], m.os[i].cell)
  {
    assert m.os[i := m.os[i].(cell := m.os[i].cell)] == m.os && m.spent[i := m.spent[i] + 0] == m.spent;
  }

  lemma StayAtBest(v: Scene, rng: Rng, tick: u32, m: Moment, i: nat)
    requires i < |m.os| == |m.spent| && |v.biome| == |v.moveCost| && m.os[i].cell < |v.biome|
    requires BestTarget(v, rng, tick, m.os[i], m.os[i].cell) && Steps(m.os[i].genome) > 0
    ensures Walked(v, rng, tick, m, m, i, [m.os[i].cell], m.os[i].cell)
  {
    hide BestTarget;
    assert m.os[i := m.os[i].(cell := m.os[i].cell)] == m.os && m.spent[i := m.spent[i] + 0] == m.spent;
  }

  /** Organism i gets another body in its place. */
  method SetBody(w: World, s: Scratch, rules: Ruleset, i: nat, o: Organism)
    requires Ticking(w, s, rules) && i < |w.organisms| && o.energy <= rules.energyMax
    requires SamePerson(w.organisms[i], o) && o.cell == w.organisms[i].cell
    modifies w`organisms
    ensures Ticking(w, s, rules)
    ensures w.organisms == old(w.organisms)[i := o]
  {
    hide Crowd, ClansFine, Count, Sound, TablesFine, IsValid, CellFine, SpentFine, Ascending, ActingFine;
    ghost var os := w.organisms;
    assert Stands(w.cells, os[i]);
    w.organisms := w.organisms[i := o];
    SameCellsKeep(s.Ix(), |w.cells|, rules.maxPerCell, os, w.organisms, s.alive);
    MovedKeepsTicking(w, s, rules, os, i);
  }

  method Charge(w: World, s: Scratch, rules: Ruleset, i: nat, cost: int)
    requires Ticking(w, s, rules) && i < |w.organisms| && cost >= 0
    modifies s`spent
    ensures Ticking(w, s, rules) && s.spent == old(s.spent)[i := old(s.spent)[i] + cost]
  {
    hide Crowd, ClansFine, Count, Sound, TablesFine, HerdFine, CellsFine, ActingFine;
    s.spent := s.spent[i := s.spent[i] + cost];
  }

  /** Organism i has paid for an attack on j; if it won, j is dead, its remains lie in its cell, its clade
      has one member less, and the hunter has fed. */
  predicate Struck(rules: Ruleset, m: Moment, m': Moment, i: nat, j: nat, won: bool) {
    && i < |m.os| == |m.alive| == |m.spent| && j < |m.os| && m.alive[j] && j != i && m.os[j].cell < |m.cells|
    && m'.spent == m.spent[i := m.spent[i] + rules.attackCost]
    && m.os[j].cladeId in m.clades
    && if won then
         && m'.os == m.os[i := m.os[i].(energy := Fed(rules, m.os[i].energy, Spoils(rules, m.os[j])))]
         && m'.alive == m.alive[j := false]
         && m'.cells == WithRemains(m.cells, m.os[j].cell, rules.remainsDetritus)
         && m'.clades == Fewer(m.clades, m.os[j].cladeId)
         && |m'.occ| == |m.occ| && (forall c :: 0 <= c < |m.occ| ==>
              m'.occ[c] + (if c == m.os[j].cell then 1 else 0) == m.occ[c])
       else m' == m.(spent := m'.spent)
  }

  lemma StruckSameRefs(rules: Ruleset, m: Moment, m': Moment, i: nat, j: nat, won: bool)
    requires Struck(rules, m, m', i, j, won)
    ensures SameRefs(m.clades, m'.clades)
  {
  }

  method Strike(w: World, s: Scratch, rules: Ruleset, rng: Rng, tick: u32, i: nat, j: nat, me: Organism)
    returns (won: bool)
    requires Ticking(w, s, rules) && i < |w.organisms| && j < |w.organisms| && i != j && s.alive[j]
    requires |rules.biomes| == BIOMES && rules.attackCost >= 0 && w.organisms[j].cell < |s.biome|
    modifies w`organisms, w`clades, w`cells, s`alive, s`aliveCount, s`occ, s`members, s`spent
    ensures Ticking(w, s, rules)
    ensures won <==> (Margin(rules, s.biome, me, old(w.organisms[j])) + Below(rng, tick, AttackRoll, me.id % WORDS, rules.rollSpan + 1)
      > Below(rng, tick, DefenseRoll, me.id % WORDS, rules.rollSpan + 1))
    ensures Struck(rules, old(Now(w, s)), Now(w, s), i, j, won)
  {
    hide Crowd, ClansFine, Count, TablesFine, HerdFine, ActingFine, Sound, CellsFine, Fed, Spoils, Wins, Margin, Below, Struck;
    ClansCover(w, s, rules, j);
    TickingLists(w, s, rules);
    ghost var m := Now(w, s);
    Charge(w, s, rules, i, rules.attackCost);
    var o := w.organisms[j];
    won := Wins(rules, rng, tick, s.biome, me, o);
    WonByMargin(rules, rng, tick, s.biome, me, o);
    if won {
      Kill(w, s, rules, j, Predation);
      FedIsBounded(rules, w.organisms[i].energy, Spoils(rules, o));
      SetBody(w, s, rules, i, w.organisms[i].(energy := Fed(rules, w.organisms[i].energy, Spoils(rules, o))));
      StruckDown(rules, m, Now(w, s), i, j);
    } else {
      StruckInVain(rules, m, Now(w, s), i, j);
    }
  }

  lemma StruckDown(rules: Ruleset, m: Moment, m': Moment, i: nat, j: nat)
    requires i < |m.os| == |m.alive| == |m.spent| && j < |m.os| && m.alive[j] && j != i && m.os[j].cell < |m.cells|
    requires m.os[j].cladeId in m.clades && m.os[j].cell < |m.occ| && m.occ[m.os[j].cell] > 0
    requires m' == Moment(m.os[i := m.os[i].(energy := Fed(rules, m.os[i].energy, Spoils(rules, m.os[j])))],
      m.alive[j := false], WithRemains(m.cells, m.os[j].cell, rules.remainsDetritus), Fewer(m.clades, m.os[j].cladeId),
      m.spent[i := m.spent[i] + rules.attackCost], m.occ[m.os[j].cell := m.occ[m.os[j].cell] - 1])
    ensures Struck(rules, m, m', i, j, true)
  {
    hide Fed, Spoils;
  }

  lemma StruckInVain(rules: Ruleset, m: Moment, m': Moment, i: nat, j: nat)
    requires i < |m.os| == |m.alive| == |m.spent| && j < |m.os| && m.alive[j] && j != i && m.os[j].cell < |m.cells|
    requires m.os[j].cladeId in m.clades && m' == m.(spent := m.spent[i := m.spent[i] + rules.attackCost])
    ensures Struck(rules, m, m', i, j, false)
  {
  }

  lemma FedIsBounded(rules: Ruleset, energy: int, gain: int)
    ensures Fed(rules, energy, gain) <= rules.energyMax
  {
  }

  lemma ClansCover(w: World, s: Scratch, rules: Ruleset, j: nat)
    requires Ticking(w, s, rules) && j < |w.organisms| && s.alive[j]
    ensures w.organisms[j].cladeId in w.clades && w.organisms[j].cell < |w.cells|
  {
    hide Crowd, Count, TablesFine, Sound, CellFine, IsValid, Ascending;
    assert Stands(w.cells, w.organisms[j]);
  }

  /** What a hunt comes to: an organism that is hungry attacks the prey with the largest margin, and among equals the one with
      the smallest id, and wins when the margin and its roll exceed the roll of the prey; it rests when there is none. */
  ghost predicate Hunted(rules: Ruleset, rng: Rng, tick: u32, biome: seq<Biome>, m: Moment, m': Moment, i: nat, me: Organism,
      deed: Deed)
    requires |rules.biomes| == BIOMES && |m.os| == |m.alive| && i < |m.os|
  {
    match deed
    case Rested =>
      && m' == m
      && (HungryHunter(rules, me) ==>
            forall j: nat :: !Huntable(rules, biome, m.os, m.alive, i, me, m.os[i].cell, j))
    case Attacked(j, won) =>
      && HungryHunter(rules, me) && Huntable(rules, biome, m.os, m.alive, i, me, m.os[i].cell, j)
      && (forall k: nat :: Huntable(rules, biome, m.os, m.alive, i, me, m.os[i].cell, k) ==>
            (var best, other := Margin(rules, biome, me, m.os[j]), Margin(rules, biome, me, m.os[k]);
            other < best || (other == best && m.os[j].id <= m.os[k].id)))
      && Struck(rules, m, m', i, j, won)
      && (won <==> (Margin(rules, biome, me, m.os[j]) + Below(rng, tick, AttackRoll, me.id % WORDS, rules.rollSpan + 1)
            > Below(rng, tick, DefenseRoll, me.id % WORDS, rules.rollSpan + 1)))
    case Ate(_, _) => false
  }

  /** A hungry hunter attacks the best prey within reach, and rests only when there is none. */
  method Hunt(w: World, s: Scratch, rules: Ruleset, rng: Rng, tick: u32, i: nat, me: Organism) returns (deed: Deed)
    requires Ticking(w, s, rules) && i < |w.organisms| && s.alive[i]
    requires me == w.organisms[i].(cell := me.cell)
    modifies w`organisms, w`clades, w`cells, s`alive, s`aliveCount, s`occ, s`members, s`spent
    ensures Ticking(w, s, rules) && |rules.biomes| == BIOMES && !deed.Ate?
    ensures Hunted(rules, rng, tick, s.biome, old(Now(w, s)), Now(w, s), i, me, deed)
  {
    hide Crowd, ClansFine, Count, TablesFine, IsValid, SpentFine, Ascending, ActingFine, Sound, CellFine,
      PreyAsGood, Margin, Distance, Chebyshev, Struck, Wins, Hunted, Huntable;
    assert Stands(w.cells, w.organisms[i]);
    AttackCostSound(rules);
    TickingLists(w, s, rules);
    ghost var m := Now(w, s);
    deed := Rested;
    if HungryHunter(rules, me) {
      var prey := ChoosePrey(w, s, rules, i, me, w.organisms[i].cell);
      if prey.Some? {
        PreyIsThere(rules, s.biome, m, i, me, prey.value);
        var won := Strike(w, s, rules, rng, tick, i, prey.value, me);
        deed := Attacked(prey.value, won);
        HuntedPrey(rules, rng, tick, s.biome, m, Now(w, s), i, me, prey.value, won);
        return;
      }
    }
    HuntedNothing(rules, rng, tick, s.biome, m, i, me);
  }

  lemma PreyIsThere(rules: Ruleset, biome: seq<Biome>, m: Moment, i: nat, me: Organism, j: nat)
    requires |rules.biomes| == BIOMES && |m.os| == |m.alive| && i < |m.os|
    requires Huntable(rules, biome, m.os, m.alive, i, me, m.os[i].cell, j)
    ensures j < |m.os| && j != i && m.alive[j] && m.os[j].cell < |biome|
  {
    hide Margin, Distance, Chebyshev;
  }

  lemma HuntedPrey(rules: Ruleset, rng: Rng, tick: u32, biome: seq<Biome>, m: Moment, m': Moment, i: nat, me: Organism,
      j: nat, won: bool)
    requires |rules.biomes| == BIOMES && |m.os| == |m.alive| && i < |m.os| && j < |m.os| && m.os[j].cell < |biome|
    requires HungryHunter(rules, me) && Huntable(rules, biome, m.os, m.alive, i, me, m.os[i].cell, j)
    requires forall k: nat :: Huntable(rules, biome, m.os, m.alive, i, me, m.os[i].cell, k) ==>
      PreyAsGood(rules, biome, m.os, me, j, k)
    requires Struck(rules, m, m', i, j, won)
    requires won <==> (Margin(rules, biome, me, m.os[j]) + Below(rng, tick, AttackRoll, me.id % WORDS, rules.rollSpan + 1)
      > Below(rng, tick, DefenseRoll, me.id % WORDS, rules.rollSpan + 1))
    ensures Hunted(rules, rng, tick, biome, m, m', i, me, Attacked(j, won))
  {
    hide Margin, Distance, Chebyshev, Struck, HungryHunter;
  }

  lemma HuntedNothing(rules: Ruleset, rng: Rng, tick: u32, biome: seq<Biome>, m: Moment, i: nat, me: Organism)
    requires |rules.biomes| == BIOMES && |m.os| == |m.alive| && i < |m.os|
    requires HungryHunter(rules, me) ==>
      forall j: nat :: !Huntable(rules, biome, m.os, m.alive, i, me, m.os[i].cell, j)
    ensures Hunted(rules, rng, tick, biome, m, m, i, me, Rested)
  {
    hide Huntable, HungryHunter;
  }

  lemma HuntedMeans(rules: Ruleset, rng: Rng, tick: u32, biome: seq<Biome>, m: Moment, m': Moment, i: nat, me: Organism,
      deed: Deed)
    requires |rules.biomes| == BIOMES && |m.os| == |m.alive| && i < |m.os|
    requires Hunted(rules, rng, tick, biome, m, m', i, me, deed)
    ensures !deed.Ate? && (deed == Rested ==> m' == m)
    ensures deed.Attacked? ==> Struck(rules, m, m', i, deed.prey, deed.won)
  {
    hide Struck, Huntable, HungryHunter, Margin;
  }

  lemma AttackCostSound(rules: Ruleset)
    requires Sound(rules)
    ensures rules.attackCost >= 0 && |rules.biomes| == BIOMES
  {
  }

  /** An organism has grazed its cell, which keeps what was not eaten. */
  ghost predicate Grazed(rules: Ruleset, m: Moment, m': Moment, i: nat, eaten: nat, scraps: nat) {
    && i < |m.os| && m.os[i].cell < |m.cells|
    && var me, c := m.os[i], m.os[i].cell;
    && eaten == Eaten(rules, me.genome, m.cells[c]) <= m.cells[c].food
    && scraps == Scraps(rules, me.genome, m.cells[c]) <= m.cells[c].detritus
    && m' == m.(os := m.os[i := me.(energy := Fed(rules, me.energy, MealGain(rules, eaten, scraps)))],
         cells := m.cells[c := m.cells[c].(food := m.cells[c].food - eaten, detritus := m.cells[c].detritus - scraps)])
  }

  /** What an organism does after its walk: it attacks if it is hungry and there is prey; otherwise it grazes, if it eats
      plants at all. */
  ghost predicate Acted(rules: Ruleset, rng: Rng, tick: u32, biome: seq<Biome>, m: Moment, m': Moment, i: nat, me: Organism,
      deed: Deed)
    requires |rules.biomes| == BIOMES && |m.os| == |m.alive| && i < |m.os|
  {
    match deed
    case Rested => me.genome.lanes[PLANT] == 0 && Hunted(rules, rng, tick, biome, m, m', i, me, Rested)
    case Attacked(_, _) => Hunted(rules, rng, tick, biome, m, m', i, me, deed)
    case Ate(eaten, scraps) =>
      && me.genome.lanes[PLANT] > 0 && Hunted(rules, rng, tick, biome, m, m, i, me, Rested)
      && Grazed(rules, m, m', i, eaten, scraps)
  }

  /** An organism grazes the cell it stands in. */
  method Graze(w: World, s: Scratch, rules: Ruleset, i: nat) returns (deed: Deed)
    requires Ticking(w, s, rules) && i < |w.organisms|
    modifies w`organisms, w`cells
    ensures Ticking(w, s, rules)
    ensures var me, c := old(w.organisms)[i], old(w.organisms)[i].cell;
      && c < |old(w.cells)| && deed == Ate(Eaten(rules, me.genome, old(w.cells)[c]), Scraps(rules, me.genome, old(w.cells)[c]))
      && deed.eaten <= old(w.cells)[c].food && deed.scraps <= old(w.cells)[c].detritus
      && w.organisms == old(w.organisms)[i := me.(energy := Fed(rules, me.energy, MealGain(rules, deed.eaten, deed.scraps)))]
      && w.cells == old(w.cells)[c := old(w.cells)[c].(food := old(w.cells)[c].food - deed.eaten,
           detritus := old(w.cells)[c].detritus - deed.scraps)]
    ensures deed.Ate? && Grazed(rules, old(Now(w, s)), Now(w, s), i, deed.eaten, deed.scraps)
  {
    hide Crowd, ClansFine, Count, TablesFine, IsValid, SpentFine, Ascending, Sound;
    var me := w.organisms[i];
    assert Stands(w.cells, me);
    var cell := w.cells[me.cell];
    var eaten, scraps := Eaten(rules, me.genome, cell), Scraps(rules, me.genome, cell);
    w.cells := w.cells[me.cell := cell.(food := cell.food - eaten, detritus := cell.detritus - scraps)];
    SetBody(w, s, rules, i, me.(energy := Fed(rules, me.energy, MealGain(rules, eaten, scraps))));
    deed := Ate(eaten, scraps);
  }

  /** A whole turn: organism i has moved along a trail, and of the others at most one has changed, by
      dying. */
  method Act(w: World, s: Scratch, rules: Ruleset, rng: Rng, tick: u32, i: nat)
    returns (ghost trail: seq<nat>, ghost goal: nat, ghost walked: Moment, deed: Deed)
    requires Ticking(w, s, rules) && i < |w.organisms| && s.alive[i]
    modifies w`organisms, w`clades, w`cells, s`alive, s`aliveCount, s`occ, s`members, s`spent
    ensures Ticking(w, s, rules)
    ensures Trail(rules.size, s.biome, trail) && |trail| > 0 && trail[0] == old(w.organisms[i].cell)
    ensures |trail| <= Steps(old(w.organisms[i].genome)) + 1
    ensures |w.organisms| == |old(w.organisms)| && w.organisms
      == old(w.organisms)[i := old(w.organisms[i]).(cell := trail[|trail| - 1], energy := w.organisms[i].energy)]
    ensures if deed.Attacked? && deed.won
      then deed.prey < |old(s.alive)| && deed.prey != i && s.alive == old(s.alive)[deed.prey := false]
      else s.alive == old(s.alive)
    ensures match deed
      case Rested => w.organisms[i].energy == old(w.organisms[i].energy)
      case Attacked(j, won) => j < |w.organisms| && w.organisms[i].energy == (if won
        then Fed(rules, old(w.organisms[i].energy), Spoils(rules, w.organisms[j])) else old(w.organisms[i].energy))
      case Ate(eaten, scraps) =>
        w.organisms[i].energy == Fed(rules, old(w.organisms[i].energy), MealGain(rules, eaten, scraps))
    ensures SameGround(old(w.cells), w.cells) && SameRefs(old(w.clades), w.clades)
    ensures Walked(old(SceneOf(w, s, rules)), rng, tick, old(Now(w, s)), walked, i, trail, goal)
    ensures |rules.biomes| == BIOMES && |walked.os| == |walked.alive| && i < |walked.os|
    ensures Acted(rules, rng, tick, s.biome, walked, Now(w, s), i, old(w.organisms[i]), deed)
  {
    hide Ticking, HungryHunter, Huntable, Wins, Fed, MealGain, Spoils, Eaten, Scraps, Trail, SameRefs, Hunted, Grazed, Walked;
    TickingLists(w, s, rules);
    SameRefsHere(w.clades);
    var me := w.organisms[i];
    trail, goal := Move(w, s, rules, rng, tick, i);
    ghost var before := Now(w, s);
    walked := before;
    TickingLists(w, s, rules);
    deed := Hunt(w, s, rules, rng, tick, i, me);
    HuntedMeans(rules, rng, tick, s.biome, before, Now(w, s), i, me, deed);
    if deed.Attacked? {
      StruckSameRefs(rules, before, Now(w, s), i, deed.prey, deed.won);
    }
    if deed == Rested && me.genome.lanes[PLANT] > 0 {
      deed := Graze(w, s, rules, i);
    }
  }

  /** Nothing in a tick changes what a cell is. */
  predicate SameGround(cells: seq<Cell>, cells': seq<Cell>) {
    |cells| == |cells'| && forall c :: 0 <= c < |cells| ==>
      cells'[c].biome == cells[c].biome && cells'[c].rift == cells[c].rift
  }

  lemma SameGroundHere(cells: seq<Cell>)
    ensures SameGround(cells, cells)
  {
  }

  lemma SameGroundThrough(a: seq<Cell>, b: seq<Cell>, c: seq<Cell>)
    requires SameGround(a, b) && SameGround(b, c)
    ensures SameGround(a, c)
  {
  }

  lemma TickingLists(w: World, s: Scratch, rules: Ruleset)
    requires Ticking(w, s, rules)
    ensures |w.organisms| == |s.alive| == |s.spent|
  {
  }
}
