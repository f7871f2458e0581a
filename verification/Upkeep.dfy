/** The cost of living, core/src/sim.rs:833-896: every living organism pays, grows older and may die. */
module Upkeep {
  import opened Acts
  import opened Arithmetic
  import opened Choices
  import opened Climates
  import opened Cohesion
  import opened Deaths
  import opened Genomes
  import opened Gifts
  import opened Grid
  import opened Hashing
  import opened Herd
  import opened Options
  import opened Randomness
  import opened TickState
  import opened Walks
  import opened WorldState

  function TraitCost(rules: Ruleset, g: Genome, k: nat): int
    requires |rules.traitUpkeep| == TRAIT_COUNT && k <= TRAIT_COUNT
  {
    if k == 0 then 0 else TraitCost(rules, g, k - 1) + rules.traitUpkeep[k - 1] * g.lanes[k - 1]
  }

  /** An organism in its preferred biome pays less, elsewhere more, and half of that if it is hardy. */
  function HabitatCost(rules: Ruleset, g: Genome, biome: Biome, cost: int): int {
    if FromHabitat(g.habitat) == None then cost
    else
      var delta := Quot(cost * rules.habitatModifierPct, 100);
      if FromHabitat(g.habitat) == Some(biome) then cost - delta
      else if HasGift(g, HARDY) then cost + Quot(delta, 2)
      else cost + delta
  }

  function Cost(rules: Ruleset, o: Organism, biome: Biome, globalTick: nat): int
    requires Validated(rules)
  {
    var traits := rules.baseMetabolism + TraitCost(rules, o.genome, TRAIT_COUNT);
    var habitat := HabitatCost(rules, o.genome, biome, traits);
    var cold := if rules.climate.coldWinterPct == 0 then habitat
      else habitat + Quot(habitat * ColdPct(rules, Y(rules.size, o.cell), globalTick), 100);
    if biome == Shallows && !HasGift(o.genome, SWIM) then cold + rules.shallowDrain else cold
  }

  lemma {:induction false} TraitCostNonNegative(rules: Ruleset, g: Genome, k: nat)
    requires Sound(rules) && k <= TRAIT_COUNT
    ensures TraitCost(rules, g, k) >= 0
  {
    if k > 0 {
      TraitCostNonNegative(rules, g, k - 1);
      MulMonotone(0, rules.traitUpkeep[k - 1], g.lanes[k - 1]);
    }
  }

  lemma QuotBounds(a: int, pct: int)
    requires a >= 0 && 0 <= pct
    ensures 0 <= Quot(a * pct, 100)
    ensures pct <= 100 ==> Quot(a * pct, 100) <= a
  {
    MulMonotone(0, pct, a);
    if pct <= 100 {
      MulMonotone(pct, 100, a);
    }
  }

  /** Living is never free energy. */
  lemma CostNonNegative(rules: Ruleset, o: Organism, biome: Biome, globalTick: nat)
    requires Sound(rules)
    ensures Cost(rules, o, biome, globalTick) >= 0
  {
    hide Seasonal, YearTicks;
    TraitCostNonNegative(rules, o.genome, TRAIT_COUNT);
    var traits := rules.baseMetabolism + TraitCost(rules, o.genome, TRAIT_COUNT);
    QuotBounds(traits, rules.habitatModifierPct);
    var habitat := HabitatCost(rules, o.genome, biome, traits);
    QuotBounds(habitat, ColdPct(rules, Y(rules.size, o.cell), globalTick));
  }

  // ---- What living costs ----

  /** The cost before the place counts: every point of a trait has its price. */
  lemma TraitsInPoints(rules: Ruleset, g: Genome)
    requires |rules.traitUpkeep| == TRAIT_COUNT
    ensures var p, t := rules.traitUpkeep, g.lanes;
      TraitCost(rules, g, TRAIT_COUNT) == p[0] * t[0] + p[1] * t[1] + p[2] * t[2] + p[3] * t[3] + p[4] * t[4] + p[5] * t[5]
  {
    var p, t := rules.traitUpkeep, g.lanes;
    assert TraitCost(rules, g, 0) == 0;
    assert TraitCost(rules, g, 2) == p[0] * t[0] + p[1] * t[1];
    assert TraitCost(rules, g, 4) == TraitCost(rules, g, 2) + p[2] * t[2] + p[3] * t[3];
  }

  /** Home is cheaper by a share of the cost, rounded down, and elsewhere is dearer by the same share, or by half of it for
      the hardy; whoever prefers nothing pays the same everywhere. */
  lemma HomeIsCheaper(rules: Ruleset, g: Genome, biome: Biome, cost: nat)
    requires rules.habitatModifierPct >= 0
    ensures var c := HabitatCost(rules, g, biome, cost); var share := cost * rules.habitatModifierPct;
      && (g.habitat > 4 ==> c == cost)
      && (FromHabitat(g.habitat) == Some(biome) ==> RoundsDown(cost - c, share, 100))
      && (g.habitat <= 4 && FromHabitat(g.habitat) != Some(biome) && !HasGift(g, HARDY) ==> RoundsDown(c - cost, share, 100))
      && (g.habitat <= 4 && FromHabitat(g.habitat) != Some(biome) && HasGift(g, HARDY) ==> RoundsDown(c - cost, share, 200))
  {
  }

  /** The whole cost: what the place makes of it, the cold of the row in winter, rounded down, and the water for those who do
      not swim. */
  lemma CostInParts(rules: Ruleset, o: Organism, biome: Biome, globalTick: nat) returns (place: int, cold: int)
    requires Sound(rules)
    ensures place == HabitatCost(rules, o.genome, biome, rules.baseMetabolism + TraitCost(rules, o.genome, TRAIT_COUNT))
    ensures RoundsDown(cold, place * ColdPct(rules, Y(rules.size, o.cell), globalTick), 100)
    ensures Cost(rules, o, biome, globalTick)
      == place + cold + if biome == Shallows && !HasGift(o.genome, SWIM) then rules.shallowDrain else 0
  {
    TraitCostNonNegative(rules, o.genome, TRAIT_COUNT);
    var traits := rules.baseMetabolism + TraitCost(rules, o.genome, TRAIT_COUNT);
    place := HabitatCost(rules, o.genome, biome, traits);
    PlaceNonNegative(rules, o.genome, biome, traits);
    QuotBounds(place, ColdPct(rules, Y(rules.size, o.cell), globalTick));
    if rules.climate.coldWinterPct == 0 {
      NoColdNoWinter(rules, Y(rules.size, o.cell), globalTick);
      cold := 0;
    } else {
      cold := Quot(place * ColdPct(rules, Y(rules.size, o.cell), globalTick), 100);
      QuotRoundsDown(place * ColdPct(rules, Y(rules.size, o.cell), globalTick), 100);
    }
    hide Quot, RoundsDown, ColdPct, HabitatCost, TraitCost, Validated, Y;
  }

  lemma PlaceNonNegative(rules: Ruleset, g: Genome, biome: Biome, cost: int)
    requires Sound(rules) && cost >= 0
    ensures HabitatCost(rules, g, biome, cost) >= 0
  {
    QuotBounds(cost, rules.habitatModifierPct);
  }

  lemma NoColdNoWinter(rules: Ruleset, row: nat, globalTick: nat)
    requires Validated(rules) && rules.climate.coldWinterPct == 0
    ensures ColdPct(rules, row, globalTick) == 0
  {
    hide Seasonal;
  }

  /** What becomes of an organism when it pays: its new body, and why it died if it did. */
  datatype Fate = Fate(body: Organism, death: Option<DeathCause>)

  function Paid(rules: Ruleset, rng: Rng, tick: u32, o: Organism, cost: int): Fate
    requires Validated(rules)
  {
    var body := o.(energy := o.energy - cost);
    if body.energy <= 0 then Fate(body, Some(Starvation))
    else
      var older := body.(age := o.age + 1);
      if older.age >= rules.maxAge then Fate(older, Some(OldAge))
      else if older.age > rules.senescenceStart
        && ChancePpm(rng, tick, Senescence, o.id % WORDS,
             (older.age - rules.senescenceStart) * 1_000_000 / (rules.maxAge - rules.senescenceStart))
      then Fate(older, Some(OldAge))
      else Fate(older, None)
  }

  /** The survivors have energy left and are younger than the age of certain death. */
  lemma SurvivorsLive(rules: Ruleset, rng: Rng, tick: u32, o: Organism, cost: int)
    requires Validated(rules)
    ensures var f := Paid(rules, rng, tick, o, cost);
      && SamePerson(o, f.body) && f.body.cell == o.cell && f.body.energy == o.energy - cost
      && (f.death == None ==> f.body.energy > 0 && f.body.age == o.age + 1 < rules.maxAge)
      && (f.death == Some(Starvation) <==> f.body.energy <= 0)
  {
  }

  /** Who lives on, exactly: whoever has more than it pays, is not of the greatest age, and, once it is old, draws above its
      share of the way there. */
  lemma LivesOnExactly(rules: Ruleset, rng: Rng, tick: u32, o: Organism, cost: int)
    requires Validated(rules)
    ensures var f, age := Paid(rules, rng, tick, o, cost), o.age + 1;
      && (f.death == None <==> (o.energy > cost && age < rules.maxAge
            && (age <= rules.senescenceStart || (age - rules.senescenceStart) * 1_000_000
                < (Below(rng, tick, Senescence, o.id % WORDS, 1_000_000) + 1) * (rules.maxAge - rules.senescenceStart))))
      && (f.death == Some(Starvation) <==> o.energy <= cost)
      && (f.death == None || f.death == Some(Starvation) || f.death == Some(OldAge))
      && f.body == o.(energy := o.energy - cost, age := if o.energy <= cost then o.age else age)
  {
    var age := o.age + 1;
    if age > rules.senescenceStart {
      var part: nat, span: nat := (age - rules.senescenceStart) * 1_000_000, rules.maxAge - rules.senescenceStart;
      ChanceIsADraw(rng, tick, Senescence, o.id % WORDS, part / span);
      DrawAgainstShare(Below(rng, tick, Senescence, o.id % WORDS, 1_000_000), part, span);
    }
  }

  lemma DrawAgainstShare(draw: nat, part: nat, span: nat)
    requires span > 0
    ensures draw < part / span <==> (draw + 1) * span <= part
  {
    var q := part / span;
    assert part == q * span + part % span;
    if draw < q {
      MulMonotone(draw + 1, q, span);
    } else {
      MulMonotone(q + 1, draw + 1, span);
    }
  }

  /** What organism i pays this tick: for living, and for what it did. */
  function Due(rules: Ruleset, os: seq<Organism>, biome: seq<Biome>, spent: seq<int>, globalTick: nat, i: nat): int
    requires Validated(rules) && i < |os| == |spent| && os[i].cell < |biome|
  {
    Cost(rules, os[i], biome[os[i].cell], globalTick) + spent[i]
  }

  /** The first k organisms have met their fates; the others wait. */
  ghost predicate Settled(rules: Ruleset, rng: Rng, tick: u32, globalTick: nat, biome: seq<Biome>, spent: seq<int>,
      os: seq<Organism>, alive: seq<bool>, os': seq<Organism>, alive': seq<bool>, k: nat)
    requires Validated(rules) && |os| == |alive| == |spent| && |os'| == |alive'|
    requires forall i :: 0 <= i < |os| ==> os[i].cell < |biome|
  {
    && |os'| == |os| && k <= |os|
    && (forall i :: 0 <= i < |os| && (i >= k || !alive[i]) ==> os'[i] == os[i] && alive'[i] == alive[i])
    && (forall i :: 0 <= i < k && alive[i] ==>
          var f := Paid(rules, rng, tick, os[i], Due(rules, os, biome, spent, globalTick, i));
          os'[i] == f.body && (alive'[i] <==> f.death == None))
  }

  /** Organism i has paid, if it was alive. Whoever dies of it leaves its body as detritus, and its clade has one member less. */
  ghost predicate PaidUp(rules: Ruleset, rng: Rng, tick: u32, globalTick: nat, biome: seq<Biome>, m: Moment, m': Moment, i: nat) {
    && i < |m.os| == |m.alive| == |m.spent|
    && if !m.alive[i] then m' == m
       else
         && Validated(rules) && m.os[i].cell < |biome| && m.os[i].cell < |m.cells| && m.os[i].cladeId in m.clades
         && var f := Paid(rules, rng, tick, m.os[i], Cost(rules, m.os[i], biome[m.os[i].cell], globalTick) + m.spent[i]);
         if f.death == None then m' == m.(os := m.os[i := f.body])
         else
           && m' == Moment(m.os[i := f.body], m.alive[i := false],
                WithRemains(m.cells, m.os[i].cell, rules.bodyDetritus), Fewer(m.clades, m.os[i].cladeId), m.spent, m'.occ)
           && |m'.occ| == |m.occ| && (forall c :: 0 <= c < |m.occ| ==>
                m'.occ[c] + (if c == m.os[i].cell then 1 else 0) == m.occ[c])
  }

  lemma IsPaidUp(rules: Ruleset, rng: Rng, tick: u32, globalTick: nat, biome: seq<Biome>, m: Moment, m': Moment, i: nat, f: Fate)
    requires Validated(rules) && i < |m.os| == |m.alive| == |m.spent| && m.os[i].cell < |biome|
    requires m.alive[i] && m.os[i].cell < |m.cells| && m.os[i].cladeId in m.clades
    requires f == Paid(rules, rng, tick, m.os[i], Due(rules, m.os, biome, m.spent, globalTick, i))
    requires f.death == None ==> m' == m.(os := m.os[i := f.body])
    requires f.death.Some? ==> m.os[i].cell < |m.occ| && m.occ[m.os[i].cell] > 0
    requires f.death.Some? ==>
      m' == Moment(m.os[i := f.body], m.alive[i := false],
        WithRemains(m.cells, m.os[i].cell, Remains(rules, f.death.value)), Fewer(m.clades, m.os[i].cladeId), m.spent,
        m.occ[m.os[i].cell := m.occ[m.os[i].cell] - 1])
    ensures PaidUp(rules, rng, tick, globalTick, biome, m, m', i)
  {
    LivesOnExactly(rules, rng, tick, m.os[i], Due(rules, m.os, biome, m.spent, globalTick, i));
    hide Paid, Cost, Validated;
  }

  ghost predicate AllPaidUp(rules: Ruleset, rng: Rng, tick: u32, globalTick: nat, biome: seq<Biome>, moments: seq<Moment>) {
    |moments| > 0
    && forall i :: 0 <= i < |moments| - 1 ==> PaidUp(rules, rng, tick, globalTick, biome, moments[i], moments[i + 1], i)
  }

  lemma AllPaidUpNext(rules: Ruleset, rng: Rng, tick: u32, globalTick: nat, biome: seq<Biome>, moments: seq<Moment>, m': Moment)
    requires AllPaidUp(rules, rng, tick, globalTick, biome, moments)
    requires PaidUp(rules, rng, tick, globalTick, biome, moments[|moments| - 1], m', |moments| - 1)
    ensures AllPaidUp(rules, rng, tick, globalTick, biome, moments + [m'])
  {
    hide PaidUp;
  }

  /** One organism pays. */
  method Pay(w: World, s: Scratch, rules: Ruleset, rng: Rng, tick: u32, i: nat, cost: int)
    requires Ticking(w, s, rules) && i < |w.organisms| && s.alive[i] && cost >= 0 && Validated(rules)
    modifies w`organisms, w`clades, w`cells, s`alive, s`aliveCount, s`occ, s`members
    ensures Ticking(w, s, rules) && SameGround(old(w.cells), w.cells) && SameRefs(old(w.clades), w.clades)
    ensures var f := Paid(rules, rng, tick, old(w.organisms[i]), cost);
      && w.organisms == old(w.organisms)[i := f.body]
      && s.alive == (if f.death == None then old(s.alive) else old(s.alive)[i := false])
      && (f.death == None ==> Now(w, s) == old(Now(w, s)).(os := w.organisms))
      && (f.death.Some? ==>
            && f.body.cladeId in old(w.clades) && f.body.cell < |old(w.cells)| && f.body.cell < |old(s.occ)|
            && old(s.occ)[f.body.cell] > 0 && s.occ == old(s.occ)[f.body.cell := old(s.occ)[f.body.cell] - 1]
            && w.clades == Fewer(old(w.clades), f.body.cladeId)
            && w.cells == WithRemains(old(w.cells), f.body.cell, Remains(rules, f.death.value)))
  {
    hide Crowd, ClansFine, Count, TablesFine, SpentFine, ActingFine, Ascending, Sound, CellFine, IsValid, Paid, Validated;
    var f := Paid(rules, rng, tick, w.organisms[i], cost);
    SurvivorsLive(rules, rng, tick, w.organisms[i], cost);
    SameRefsHere(w.clades);
    SetBody(w, s, rules, i, f.body);
    if f.death.Some? {
      Kill(w, s, rules, i, f.death.value);
      FewerSameRefs(old(w.clades), f.body.cladeId);
    }
  }

  /** Everyone alive pays once, in order of id. */
  method PayAll(w: World, s: Scratch, rules: Ruleset, rng: Rng, tick: u32, globalTick: nat) returns (ghost moments: seq<Moment>)
    requires Ticking(w, s, rules) && Validated(rules)
    requires |w.organisms| == |s.alive| == |s.spent|
    requires forall i :: 0 <= i < |w.organisms| ==> w.organisms[i].cell < |s.biome|
    modifies w`organisms, w`clades, w`cells, s`alive, s`aliveCount, s`occ, s`members
    ensures Ticking(w, s, rules) && SameGround(old(w.cells), w.cells) && SameRefs(old(w.clades), w.clades)
    ensures |w.organisms| == |s.alive|
    ensures Settled(rules, rng, tick, globalTick, s.biome, s.spent, old(w.organisms), old(s.alive),
      w.organisms, s.alive, |old(w.organisms)|)
    ensures |w.organisms| == |old(w.organisms)| && forall i :: 0 <= i < |w.organisms| && old(s.alive)[i] ==>
      w.organisms[i].energy
        == old(w.organisms)[i].energy - s.spent[i] - Cost(rules, old(w.organisms)[i], s.biome[old(w.organisms)[i].cell], globalTick)
    ensures AllPaidUp(rules, rng, tick, globalTick, s.biome, moments) && |moments| == |old(w.organisms)| + 1
    ensures moments[0] == old(Now(w, s)) && moments[|old(w.organisms)|] == Now(w, s)
  {
    hide Ticking, Validated, Paid, Cost, PaidUp, AllPaidUp, Settled, SameGround, SameRefs, WithRemains, Fewer;
    moments := [Now(w, s)];
    NothingPaid(rules, rng, tick, globalTick, s.biome, Now(w, s));
    SameGroundHere(w.cells);
    SameRefsHere(w.clades);
    SettledNone(rules, rng, tick, globalTick, s.biome, s.spent, w.organisms, s.alive);
    for i := 0 to |w.organisms|
      invariant Ticking(w, s, rules) && SameGround(old(w.cells), w.cells) && SameRefs(old(w.clades), w.clades)
      invariant |w.organisms| == |s.alive| == |old(w.organisms)|
      invariant Settled(rules, rng, tick, globalTick, s.biome, s.spent, old(w.organisms), old(s.alive),
        w.organisms, s.alive, i)
      invariant AllPaidUp(rules, rng, tick, globalTick, s.biome, moments) && |moments| == i + 1
      invariant moments[0] == old(Now(w, s)) && moments[i] == Now(w, s)
    {
      ghost var m := Now(w, s);
      SettledWaits(rules, rng, tick, globalTick, s.biome, s.spent, old(w.organisms), old(s.alive), m, i);
      if s.alive[i] {
        var due := Due(rules, w.organisms, s.biome, s.spent, globalTick, i);
        DueNonNegative(w, s, rules, globalTick, i);
        ClansCover(w, s, rules, i);
        Pay(w, s, rules, rng, tick, i, due);
        TickingLists(w, s, rules);
        SameGroundThrough(old(w.cells), m.cells, w.cells);
        SameRefsThrough(old(w.clades), m.clades, w.clades);
        FateKeepsPlace(rules, rng, tick, m.os[i], due);
        IsPaidUp(rules, rng, tick, globalTick, s.biome, m, Now(w, s), i, Paid(rules, rng, tick, m.os[i], due));
      } else {
        DeadPayNothing(rules, rng, tick, globalTick, s.biome, m, i);
      }
      SettledNext(rules, rng, tick, globalTick, s.biome, s.spent, old(w.organisms), old(s.alive), m, Now(w, s), i);
      AllPaidUpNext(rules, rng, tick, globalTick, s.biome, moments, Now(w, s));
      moments := moments + [Now(w, s)];
    }
    SettledSpent(rules, rng, tick, globalTick, s.biome, s.spent, old(w.organisms), old(s.alive), w.organisms, s.alive);
  }

  lemma SettledNone(rules: Ruleset, rng: Rng, tick: u32, globalTick: nat, biome: seq<Biome>, spent: seq<int>,
      os: seq<Organism>, alive: seq<bool>)
    requires Validated(rules) && |os| == |alive| == |spent| && forall i :: 0 <= i < |os| ==> os[i].cell < |biome|
    ensures Settled(rules, rng, tick, globalTick, biome, spent, os, alive, os, alive, 0)
  {
    hide Validated;
  }

  lemma SettledWaits(rules: Ruleset, rng: Rng, tick: u32, globalTick: nat, biome: seq<Biome>, spent: seq<int>,
      os: seq<Organism>, alive: seq<bool>, m: Moment, k: nat)
    requires Validated(rules) && |os| == |alive| == |spent| && forall i :: 0 <= i < |os| ==> os[i].cell < |biome|
    requires |m.os| == |m.alive| && Settled(rules, rng, tick, globalTick, biome, spent, os, alive, m.os, m.alive, k) && k < |os|
    ensures k < |m.os| && m.os[k] == os[k] && m.alive[k] == alive[k]
  {
    hide Cost, Validated, Paid;
  }

  /** One more organism has met its fate. */
  lemma SettledNext(rules: Ruleset, rng: Rng, tick: u32, globalTick: nat, biome: seq<Biome>, spent: seq<int>,
      os: seq<Organism>, alive: seq<bool>, m: Moment, m': Moment, i: nat)
    requires Validated(rules) && |os| == |alive| == |spent| && forall i :: 0 <= i < |os| ==> os[i].cell < |biome|
    requires |m.os| == |m.alive| && Settled(rules, rng, tick, globalTick, biome, spent, os, alive, m.os, m.alive, i)
    requires i < |os| && m.spent == spent && PaidUp(rules, rng, tick, globalTick, biome, m, m', i)
    ensures |m'.os| == |m'.alive| && Settled(rules, rng, tick, globalTick, biome, spent, os, alive, m'.os, m'.alive, i + 1)
  {
    hide Validated, Cost, Paid, WithRemains;
    assert m.os[i] == os[i] && m.alive[i] == alive[i];
    assert Due(rules, os, biome, spent, globalTick, i) == Cost(rules, os[i], biome[os[i].cell], globalTick) + spent[i];
  }

  lemma SettledSpent(rules: Ruleset, rng: Rng, tick: u32, globalTick: nat, biome: seq<Biome>, spent: seq<int>,
      os: seq<Organism>, alive: seq<bool>, os': seq<Organism>, alive': seq<bool>)
    requires Validated(rules) && |os| == |alive| == |spent| && |os'| == |alive'|
    requires forall i :: 0 <= i < |os| ==> os[i].cell < |biome|
    requires Settled(rules, rng, tick, globalTick, biome, spent, os, alive, os', alive', |os|)
    ensures |os'| == |os| && forall i :: 0 <= i < |os| && alive[i] ==>
      os'[i].energy == os[i].energy - spent[i] - Cost(rules, os[i], biome[os[i].cell], globalTick)
  {
    hide Cost, Validated;
    forall i | 0 <= i < |os| && alive[i]
      ensures os'[i].energy == os[i].energy - spent[i] - Cost(rules, os[i], biome[os[i].cell], globalTick)
    {
      SurvivorsLive(rules, rng, tick, os[i], Due(rules, os, biome, spent, globalTick, i));
    }
  }

  lemma NothingPaid(rules: Ruleset, rng: Rng, tick: u32, globalTick: nat, biome: seq<Biome>, m: Moment)
    ensures AllPaidUp(rules, rng, tick, globalTick, biome, [m])
  {
  }

  lemma DeadPayNothing(rules: Ruleset, rng: Rng, tick: u32, globalTick: nat, biome: seq<Biome>, m: Moment, i: nat)
    requires i < |m.os| == |m.alive| == |m.spent| && !m.alive[i]
    ensures PaidUp(rules, rng, tick, globalTick, biome, m, m, i)
  {
  }

  lemma FateKeepsPlace(rules: Ruleset, rng: Rng, tick: u32, o: Organism, cost: int)
    requires Validated(rules)
    ensures var f := Paid(rules, rng, tick, o, cost); f.body.cell == o.cell && f.body.cladeId == o.cladeId
  {
    hide ChancePpm;
  }

  lemma DueNonNegative(w: World, s: Scratch, rules: Ruleset, globalTick: nat, i: nat)
    requires Ticking(w, s, rules) && Validated(rules) && i < |w.organisms| == |s.spent|
    requires w.organisms[i].cell < |s.biome|
    ensures Due(rules, w.organisms, s.biome, s.spent, globalTick, i) >= 0
  {
    hide Crowd, ClansFine, Count, TablesFine, HerdFine, CellsFine, ActingFine, Sound, Validated, Cost;
    CostNonNegative(rules, w.organisms[i], s.biome[w.organisms[i].cell], globalTick);
  }

  lemma SettledAreFed(rules: Ruleset, rng: Rng, tick: u32, globalTick: nat, biome: seq<Biome>, spent: seq<int>,
      os: seq<Organism>, alive: seq<bool>, os': seq<Organism>, alive': seq<bool>)
    requires Validated(rules) && |os| == |alive| == |spent| && |os'| == |alive'|
    requires forall i :: 0 <= i < |os| ==> os[i].cell < |biome|
    requires Settled(rules, rng, tick, globalTick, biome, spent, os, alive, os', alive', |os|)
    ensures AllFed(os', alive') && |os'| == |os|
    ensures forall i :: 0 <= i < |os| ==> SamePerson(os[i], os'[i]) && os'[i].cell == os[i].cell
    ensures forall i :: 0 <= i < |os| ==> os'[i].parentId == os[i].parentId && os'[i].lineageId == os[i].lineageId
    ensures forall i :: 0 <= i < |os| && alive'[i] ==> alive[i]
  {
    hide Cost, Validated;
    forall i | 0 <= i < |os| && alive[i]
      ensures SamePerson(os[i], os'[i]) && os'[i].cell == os[i].cell && (alive'[i] ==> os'[i].energy > 0)
    {
      SurvivorsLive(rules, rng, tick, os[i], Due(rules, os, biome, spent, globalTick, i));
    }
  }
}
