/** Plagues, core/src/sim.rs:429-495: the more the largest clade dominates, the likelier one strikes it. */
module Plagues {
  import opened Acts
  import opened Arithmetic
  import opened Climates
  import opened Cohesion
  import opened Deaths
  import opened Environment
  import opened Events
  import opened Genomes
  import opened Grid
  import opened Herd
  import opened Options
  import opened Randomness
  import opened Rifting
  import opened Steadiness
  import opened TickState
  import opened WorldState

  /** c has the most members; of those with as many, it is the oldest. */
  predicate IsDominant(clades: map<nat, Clade>, c: Clade) {
    && c.id in clades && clades[c.id] == c
    && (forall id :: id in clades ==> clades[id].living < c.living || (clades[id].living == c.living && c.id <= id))
  }

  lemma OneDominant(clades: map<nat, Clade>, c: Clade, d: Clade)
    requires IsDominant(clades, c) && IsDominant(clades, d)
    ensures c == d
  {
  }

  method Dominant(clades: map<nat, Clade>, limit: nat) returns (c: Option<Clade>)
    requires forall id :: id in clades ==> id < limit && clades[id].id == id
    ensures c == None ==> clades == map[]
    ensures c.Some? ==> IsDominant(clades, c.value)
  {
    c := None;
    for id := 0 to limit
      invariant c == None ==> forall k :: k in clades ==> k >= id
      invariant c.Some? ==> c.value.id in clades && clades[c.value.id] == c.value && c.value.id < id
      invariant c.Some? ==> forall k :: k in clades && k < id ==>
        clades[k].living < c.value.living || (clades[k].living == c.value.living && c.value.id <= k)
    {
      if id in clades && (c == None || clades[id].living > c.value.living) {
        c := Some(clades[id]);
      }
    }
  }

  function Share(living: nat, population: nat): nat
    requires population > 0
  {
    living * 1000 / population
  }

  function PlaguePpm(rules: Ruleset, share: nat): nat
    requires rules.events.plagueMinSharePermille < 1000 && share > rules.events.plagueMinSharePermille
  {
    var over: nat, span: nat := share - rules.events.plagueMinSharePermille, 1000 - rules.events.plagueMinSharePermille;
    Portion(rules.events.plagueMaxPpm, over, span)
  }

  /** The share of the largest clade, in thousandths. */
  lemma ShareExactly(living: nat, population: nat)
    requires population > 0
    ensures RoundsDown(Share(living, population), 1000 * living, population)
  {
    DivRoundsDown(living * 1000, population);
  }

  /** The chance of a plague grows from none at the least share to the most when there is one clade only. */
  lemma DominanceIsDangerous(rules: Ruleset, share: nat)
    requires rules.events.plagueMinSharePermille < 1000 && share > rules.events.plagueMinSharePermille
    ensures RoundsDown(PlaguePpm(rules, share), rules.events.plagueMaxPpm * (share - rules.events.plagueMinSharePermille),
      1000 - rules.events.plagueMinSharePermille)
    ensures share == 1000 ==> PlaguePpm(rules, share) == rules.events.plagueMaxPpm
  {
    var over: nat, span: nat := share - rules.events.plagueMinSharePermille, 1000 - rules.events.plagueMinSharePermille;
    DivRoundsDown(rules.events.plagueMaxPpm * over, span);
    if share == 1000 {
      SameFloor(PlaguePpm(rules, share), rules.events.plagueMaxPpm, span);
    }
  }

  predicate InDisc(size: Size, center: nat, radius: nat, c: nat) {
    var dx, dy := X(size, c) - X(size, center), Y(size, c) - Y(size, center);
    dx * dx + dy * dy <= radius * radius
  }

  /** An outbreak: the clade it strikes and the cell it starts from. */
  datatype Outbreak = Outbreak(clade: nat, center: nat)

  predicate Reached(rules: Ruleset, os: seq<Organism>, p: Outbreak, i: nat) {
    i < |os| && os[i].cladeId == p.clade && InDisc(rules.size, p.center, rules.events.plagueRadius, os[i].cell)
  }

  /** A plague reaches the members of its clade that stand in a disc like that of a fire. */
  lemma ReachedExactly(rules: Ruleset, os: seq<Organism>, p: Outbreak, i: nat, biome: Biome)
    requires i < |os|
    ensures Reached(rules, os, p, i) <==>
      os[i].cladeId == p.clade && Covers(rules.size, Effect(Ash, p.center, rules.events.plagueRadius, 1), os[i].cell, biome)
  {
    CoversExactly(rules.size, Effect(Ash, p.center, rules.events.plagueRadius, 1), os[i].cell, biome);
  }

  lemma DiesExactly(rules: Ruleset, rng: Rng, o: Organism)
    ensures Dies(rules, rng, o) <==>
      Below(rng, 0, PlagueDeath, o.id % WORDS, 1_000_000) < rules.events.plagueMortalityPpm
  {
    ChanceIsADraw(rng, 0, PlagueDeath, o.id % WORDS, rules.events.plagueMortalityPpm);
  }

  predicate Dies(rules: Ruleset, rng: Rng, o: Organism) {
    ChancePpm(rng, 0, PlagueDeath, o.id % WORDS, rules.events.plagueMortalityPpm)
  }

  /** The remains of the dead, in order. */
  function Littered(rules: Ruleset, cells: seq<Cell>, os: seq<Organism>, dead: seq<nat>): (cells': seq<Cell>)
    requires forall k :: 0 <= k < |dead| ==> dead[k] < |os| && os[dead[k]].cell < |cells|
    ensures |cells'| == |cells|
  {
    if dead == [] then cells
    else
      var last := dead[|dead| - 1];
      WithRemains(Littered(rules, cells, os, dead[..|dead| - 1]), os[last].cell, rules.bodyDetritus)
  }

  /** A member of a clade that has members. */
  lemma {:induction false} SomeMember(os: seq<Organism>, key: Key) returns (i: nat)
    requires Tally(os, key) > 0
    ensures i < |os| && Matches(os[i], key)
  {
    var n := |os| - 1;
    if Matches(os[n], key) {
      i := n;
    } else {
      i := SomeMember(os[..n], key);
    }
  }

  lemma {:induction false} CountAtMostTally(os: seq<Organism>, alive: seq<bool>, key: Key)
    requires |os| == |alive|
    ensures Count(os, alive, key) <= Tally(os, key)
  {
    if os != [] {
      CountAtMostTally(os[..|os| - 1], alive[..|os| - 1], key);
    }
  }

  /** The places of a clade's members, in order. */
  function Members(os: seq<Organism>, id: nat): seq<nat> {
    if os == [] then []
    else
      var n := |os| - 1;
      Members(os[..n], id) + if os[n].cladeId == id then [n] else []
  }

  lemma {:induction false} MembersListed(os: seq<Organism>, id: nat)
    ensures Increasing(Members(os, id))
    ensures forall i: nat :: i in Members(os, id) <==> i < |os| && os[i].cladeId == id
  {
    if os != [] {
      var n := |os| - 1;
      MembersListed(os[..n], id);
      LastIsLargest(Members(os[..n], id), n);
    }
  }

  /** The places of those an outbreak reaches, in order. */
  function Victims(rules: Ruleset, os: seq<Organism>, p: Outbreak): seq<nat> {
    if os == [] then []
    else
      var n := |os| - 1;
      Victims(rules, os[..n], p) + if Reached(rules, os, p, n) then [n] else []
  }

  lemma {:induction false} VictimsListed(rules: Ruleset, os: seq<Organism>, p: Outbreak)
    ensures Increasing(Victims(rules, os, p))
    ensures forall i: nat :: i in Victims(rules, os, p) <==> Reached(rules, os, p, i)
  {
    hide InDisc;
    if os != [] {
      var n := |os| - 1;
      VictimsListed(rules, os[..n], p);
      LastIsLargest(Victims(rules, os[..n], p), n);
    }
  }

  /** There is one way to list numbers in order. */
  lemma {:induction false} ListedOnce(a: seq<nat>, b: seq<nat>)
    requires Increasing(a) && Increasing(b) && forall i: nat :: i in a <==> i in b
    ensures a == b
  {
    if a != [] {
      SomeIn(a, b);
      var m, n := |a| - 1, |b| - 1;
      assert a[m] in b && b[n] in a;
      assert a[m] == b[n];
      forall i: nat
        ensures i in a[..m] <==> i in b[..n]
      {
        AllButLast(a, i);
        AllButLast(b, i);
      }
      ListedOnce(a[..m], b[..n]);
      assert a == a[..m] + [a[m]] && b == b[..n] + [b[n]];
    } else if b != [] {
      SomeIn(b, a);
    }
  }

  lemma SomeIn(a: seq<nat>, b: seq<nat>)
    requires a != [] && forall i: nat :: i in a ==> i in b
    ensures b != []
  {
    assert a[0] in b;
  }

  lemma AllButLast(a: seq<nat>, i: nat)
    requires Increasing(a) && a != []
    ensures i in a[..|a| - 1] <==> i in a && i != a[|a| - 1]
  {
    if i in a && i != a[|a| - 1] {
      var k :| 0 <= k < |a| && a[k] == i;
      assert a[..|a| - 1][k] == i;
    }
  }

  /** An outbreak begins: the largest clade has more than its share, the chance that grows with the share is
      drawn, and the place is that of a drawn member. */
  ghost predicate BreaksOut(rules: Ruleset, rng: Rng, epoch: nat, os: seq<Organism>, clades: map<nat, Clade>, p: Outbreak) {
    && os != [] && p.clade in clades && clades[p.clade].id == p.clade && IsDominant(clades, clades[p.clade])
    && rules.events.plagueMinSharePermille < 1000
    && var share := Share(clades[p.clade].living, |os|);
      && share > rules.events.plagueMinSharePermille
      && ChancePpm(rng, 0, PlagueChance, epoch % WORDS, PlaguePpm(rules, share))
      && Members(os, p.clade) != []
      && var pick := Members(os, p.clade)[Below(rng, 0, PlagueSite, epoch % WORDS, |Members(os, p.clade)|)];
        pick < |os| && p.center == os[pick].cell
  }

  lemma OneOutbreak(rules: Ruleset, rng: Rng, epoch: nat, os: seq<Organism>, clades: map<nat, Clade>, p: Outbreak, q: Outbreak)
    requires BreaksOut(rules, rng, epoch, os, clades, p) && BreaksOut(rules, rng, epoch, os, clades, q)
    ensures p == q
  {
    hide IsDominant, Members, Share, PlaguePpm;
    OneDominant(clades, clades[p.clade], clades[q.clade]);
  }

  /** The largest clade, and where a plague starts: exactly when one breaks out. */
  method Start(w: World, rules: Ruleset, rng: Rng) returns (p: Option<Outbreak>)
    requires Steady(w, rules)
    ensures p.Some? ==> BreaksOut(rules, rng, w.epoch, w.organisms, w.clades, p.value)
    ensures p == None ==> forall q :: !BreaksOut(rules, rng, w.epoch, w.organisms, w.clades, q)
  {
    hide Steady, Tally, InDisc, Share, PlaguePpm;
    p := None;
    if w.organisms == [] {
      return;
    }
    SteadyClades(w, rules);
    var c := Dominant(w.clades, w.nextCladeId);
    if c == None {
      return;
    }
    forall q | BreaksOut(rules, rng, w.epoch, w.organisms, w.clades, q)
      ensures q.clade == c.value.id
    {
      OneDominant(w.clades, w.clades[q.clade], c.value);
    }
    var share := Share(c.value.living, |w.organisms|);
    if share <= rules.events.plagueMinSharePermille
      || !ChancePpm(rng, 0, PlagueChance, w.epoch % WORDS, PlaguePpm(rules, share)) {
      return;
    }
    var os := w.organisms;
    var members := CellsWhere(|os|, (i: nat) => i < |os| && os[i].cladeId == c.value.id);
    MembersListed(os, c.value.id);
    ListedOnce(members, Members(os, c.value.id));
    var some := SomeMember(os, OfClade(c.value.id));
    assert some in members;
    var pick := Cast(rng, PlagueSite, w.epoch, members);
    p := Some(Outbreak(c.value.id, os[pick].cell));
    assert BreaksOut(rules, rng, w.epoch, os, w.clades, p.value);
  }

  lemma SteadyClades(w: World, rules: Ruleset)
    requires Steady(w, rules)
    ensures rules.events.plagueMinSharePermille < 1000
    ensures forall id :: id in w.clades ==> id < w.nextCladeId && w.clades[id].id == id
    ensures forall id :: id in w.clades ==> w.clades[id].living == Tally(w.organisms, OfClade(id)) > 0
  {
    hide Tally;
    forall id | id in w.clades
      ensures id < w.nextCladeId && w.clades[id].id == id && w.clades[id].living == Tally(w.organisms, OfClade(id)) > 0
    {
      assert CladeFine(id, w.clades[id], w.nextCladeId, w.organisms);
    }
  }

  /** The state of a plague after some deaths. */
  ghost predicate Ravaged(w: World, rules: Ruleset, rng: Rng, before: seq<Cell>, seen: seq<nat>,
      dead: seq<nat>, alive: seq<bool>)
    reads w`cells, w`organisms, w`clades, w`nextCladeId
  {
    && |alive| == |w.organisms| && CellsFine(rules, w.cells) && SameGround(before, w.cells)
    && Increasing(dead)
    && (forall i: nat :: i in dead <==> i in seen && i < |w.organisms| && Dies(rules, rng, w.organisms[i]))
    && (forall i: nat :: i < |alive| ==> (alive[i] <==> i !in dead))
    && (forall k :: 0 <= k < |dead| ==> dead[k] < |w.organisms| && w.organisms[dead[k]].cell < |before|)
    && w.cells == Littered(rules, before, w.organisms, dead)
    && ClansFine(w.organisms, alive, w.clades, w.nextCladeId)
  }

  /** One organism within reach dies or not. */
  method StrikeOne(w: World, rules: Ruleset, rng: Rng, ghost before: seq<Cell>, seen: seq<nat>, i: nat,
      dead: seq<nat>, alive: seq<bool>) returns (dead': seq<nat>, alive': seq<bool>)
    requires Ravaged(w, rules, rng, before, seen, dead, alive)
    requires i < |w.organisms| && w.organisms[i].cell < |before| && forall j: nat :: j in seen ==> j < i
    modifies w`cells, w`clades
    ensures Ravaged(w, rules, rng, before, seen + [i], dead', alive') && SameRefs(old(w.clades), w.clades)
  {
    hide Dies, ClansFine, WithRemains, CellsFine, SameGround, Littered, Increasing, Fewer, SameRefs;
    dead', alive' := dead, alive;
    SameRefsHere(w.clades);
    var o := w.organisms[i];
    if Dies(rules, rng, o) {
      assert i !in dead;
      DeathKeepsClans(w.organisms, alive, w.clades, w.nextCladeId, i);
      LastIsLargest(dead, i);
      CellStillFine(rules, before, w.cells, o.cell, rules.bodyDetritus);
      LitteredNext(rules, before, w.organisms, dead, i);
      alive' := alive[i := false];
      dead' := dead + [i];
      FewerSameRefs(w.clades, o.cladeId);
      w.clades := Fewer(w.clades, o.cladeId);
      w.cells := WithRemains(w.cells, o.cell, rules.bodyDetritus);
    }
  }

  lemma LitteredNext(rules: Ruleset, cells: seq<Cell>, os: seq<Organism>, dead: seq<nat>, i: nat)
    requires forall k :: 0 <= k < |dead| ==> dead[k] < |os| && os[dead[k]].cell < |cells|
    requires i < |os| && os[i].cell < |cells|
    ensures Littered(rules, cells, os, dead + [i])
      == WithRemains(Littered(rules, cells, os, dead), os[i].cell, rules.bodyDetritus)
  {
    hide WithRemains;
    assert (dead + [i])[..|dead|] == dead;
  }

  lemma LastIsLargest(dead: seq<nat>, i: nat)
    requires Increasing(dead) && forall j: nat :: j in dead ==> j < i
    ensures Increasing(dead + [i])
  {
    assert forall k :: 0 <= k < |dead| ==> dead[k] in dead;
  }

  lemma CellStillFine(rules: Ruleset, before: seq<Cell>, cells: seq<Cell>, c: nat, detritus: nat)
    requires CellsFine(rules, cells) && SameGround(before, cells) && c < |before|
    ensures c < |cells|
    ensures CellsFine(rules, WithRemains(cells, c, detritus)) && SameGround(before, WithRemains(cells, c, detritus))
  {
    hide SaturatingAdd;
  }

  function Survivors(n: nat, dead: seq<nat>): (alive: seq<bool>)
    ensures |alive| == n && forall i: nat :: i < n ==> (alive[i] <==> i !in dead)
  {
    seq(n, i => i !in dead)
  }

  /** What a plague leaves: of those it reached, the ones that died are gone, and their remains lie where
      they stood. */
  ghost predicate Aftermath(rules: Ruleset, rng: Rng, p: Outbreak, cells: seq<Cell>, os: seq<Organism>, dead: seq<nat>,
      cells': seq<Cell>, os': seq<Organism>)
  {
    && Increasing(dead)
    && (forall i: nat :: i in dead <==> Reached(rules, os, p, i) && Dies(rules, rng, os[i]))
    && (forall k :: 0 <= k < |dead| ==> dead[k] < |os| && os[dead[k]].cell < |cells|)
    && cells' == Littered(rules, cells, os, dead) && os' == Retained(os, Survivors(|os|, dead))
  }

  lemma NothingRavaged(w: World, rules: Ruleset, rng: Rng)
    requires Peopled(w, rules) && CellsFine(rules, w.cells)
    ensures Ravaged(w, rules, rng, w.cells, [], [], AllAlive(|w.organisms|))
  {
    hide People, CellFine, ClansFine, Dies;
    SameGroundItself(w.cells);
    ClansFromSteady(w, rules, AllAlive(|w.organisms|));
  }

  lemma RavagedGathers(w: World, rules: Ruleset, rng: Rng, before: seq<Cell>, seen: seq<nat>,
      dead: seq<nat>, alive: seq<bool>, clades: map<nat, Clade>, nextClade: nat)
    requires Ravaged(w, rules, rng, before, seen, dead, alive) && AllStand(before, w.organisms)
    requires People(rules, w.organisms, w.nextOrganismId, clades, nextClade)
    ensures Gathered(rules, w.cells, Retained(w.organisms, alive), w.nextOrganismId, w.clades, w.nextCladeId)
  {
    hide CellFine, ClansFine, Dies, Tally, Count, Sound, IsValid, Ascending, CladeFine, Littered, Stands, Retained,
      Gathered;
    SameGroundStands(before, w.cells, w.organisms);
    forall c | 0 <= c < |w.cells|
      ensures Count(w.organisms, alive, InCell(c)) <= rules.maxPerCell
    {
      CountAtMostTally(w.organisms, alive, InCell(c));
    }
    CountAtMostTally(w.organisms, alive, Anyone);
    TallyAnyone(w.organisms);
    RetainedGathers(rules, w.cells, w.organisms, alive, w.nextOrganismId, w.clades, w.nextCladeId);
  }

  lemma RavagedLeaves(w: World, rules: Ruleset, rng: Rng, before: seq<Cell>, p: Outbreak, seen: seq<nat>,
      dead: seq<nat>, alive: seq<bool>)
    requires Ravaged(w, rules, rng, before, seen, dead, alive)
    requires forall i: nat :: i in seen <==> Reached(rules, w.organisms, p, i)
    ensures Aftermath(rules, rng, p, before, w.organisms, dead, w.cells, Retained(w.organisms, alive))
    ensures SameGround(before, w.cells) && |alive| == |w.organisms| && CellsFine(rules, w.cells)
    ensures ClansFine(w.organisms, alive, w.clades, w.nextCladeId) && alive == Survivors(|w.organisms|, dead)
  {
    hide CellFine, ClansFine, Dies, InDisc, Littered, Retained;
    assert alive == Survivors(|w.organisms|, dead);
  }

  /** Some of those the plague reaches die. */
  method Ravage(w: World, rules: Ruleset, rng: Rng, p: Outbreak, reached: seq<nat>)
    returns (dead: seq<nat>, ghost left: map<nat, Clade>)
    requires Steady(w, rules) && Increasing(reached)
    requires forall i: nat :: i in reached <==> Reached(rules, w.organisms, p, i)
    modifies w`cells, w`organisms, w`clades, w`museum
    ensures Steady(w, rules) && SameGround(old(w.cells), w.cells)
    ensures Aftermath(rules, rng, p, old(w.cells), old(w.organisms), dead, w.cells, w.organisms)
    ensures Culled(rules, old(w.clades), old(w.museum), w.epoch, w.nextCladeId, left, old(w.organisms),
      Survivors(|old(w.organisms)|, dead), w.clades, w.museum)
    ensures old(Cohesive(rules, w.organisms, w.clades)) ==> Cohesive(rules, w.organisms, w.clades)
    ensures old(StockValid(rules, w.clades, w.museum)) ==> StockValid(rules, w.clades, w.museum)
  {
    hide Steady, Ravaged, Reached, Aftermath, People, CellsFine, RiftsFine, AllStand, SameGround, Retained, Gathered,
      Cohesive, StockValid, SameRefs, Living, ArchivedUpTo;
    SameRefsHere(w.clades);
    var before, os, clades := w.cells, w.organisms, w.clades;
    dead := [];
    var alive := AllAlive(|os|);
    SteadyIsPeopleOnGround(w, rules);
    NothingRavaged(w, rules, rng);
    assert reached[..0] == [];
    for k := 0 to |reached|
      invariant w.organisms == os && w.museum == old(w.museum) && SameRefs(old(w.clades), w.clades)
      invariant Ravaged(w, rules, rng, before, reached[..k], dead, alive)
    {
      assert reached[k] in reached;
      ReachedStands(rules, before, os, p, reached[k]);
      assert reached[..k + 1] == reached[..k] + [reached[k]];
      ghost var mid := w.clades;
      dead, alive := StrikeOne(w, rules, rng, before, reached[..k], reached[k], dead, alive);
      SameRefsThrough(old(w.clades), mid, w.clades);
    }
    assert reached[..|reached|] == reached;
    RavagedGathers(w, rules, rng, before, reached, dead, alive, clades, w.nextCladeId);
    RavagedLeaves(w, rules, rng, before, p, reached, dead, alive);
    w.organisms := Keep(os, alive);
    clades := w.clades;
    SameGroundRifts(w.rifts, before, w.cells);
    CloseExtinctClades(w, rules);
    ClosedIsSteady(w, rules, clades);
    EveryoneBelongs(w, rules);
    SameKinHere(os);
    left := clades;
    CulledKeep(rules, os, old(w.clades), old(w.museum), w.epoch, w.nextCladeId, clades, os, alive, w.organisms, w.clades,
      w.museum);
  }

  lemma ReachedStands(rules: Ruleset, cells: seq<Cell>, os: seq<Organism>, p: Outbreak, i: nat)
    requires AllStand(cells, os) && Reached(rules, os, p, i)
    ensures i < |os| && os[i].cell < |cells|
  {
  }

  /** A plague has come, exactly when one breaks out and reaches enough. */
  ghost predicate PlagueCame(rules: Ruleset, rng: Rng, epoch: nat, nextClade: nat, cells: seq<Cell>, os: seq<Organism>,
      clades: map<nat, Clade>, museum: seq<MuseumEntry>, cells': seq<Cell>, os': seq<Organism>, clades': map<nat, Clade>,
      museum': seq<MuseumEntry>, struck: Option<Outbreak>, dead: seq<nat>, left: map<nat, Clade>)
  {
    && (struck == None ==> cells' == cells && os' == os && clades' == clades && museum' == museum && dead == [])
    && (forall p :: struck == Some(p) <==>
          BreaksOut(rules, rng, epoch, os, clades, p) && |Victims(rules, os, p)| >= rules.events.plagueMinMembers)
    && (struck.Some? ==> Aftermath(rules, rng, struck.value, cells, os, dead, cells', os'))
    && Culled(rules, clades, museum, epoch, nextClade, left, os, Survivors(|os|, dead), clades', museum')
  }

  /** A plague strikes exactly when one breaks out and reaches enough; it kills some of those it reaches, and
      everyone else stays as they are. */
  method Plague(w: World, rules: Ruleset, rng: Rng) returns (struck: Option<Outbreak>, dead: seq<nat>, ghost left: map<nat, Clade>)
    requires Steady(w, rules)
    modifies w`cells, w`organisms, w`clades, w`museum
    ensures Steady(w, rules) && SameGround(old(w.cells), w.cells)
    ensures PlagueCame(rules, rng, w.epoch, w.nextCladeId, old(w.cells), old(w.organisms), old(w.clades), old(w.museum),
      w.cells, w.organisms, w.clades, w.museum, struck, dead, left)
    ensures old(Cohesive(rules, w.organisms, w.clades)) ==> Cohesive(rules, w.organisms, w.clades)
    ensures old(StockValid(rules, w.clades, w.museum)) ==> StockValid(rules, w.clades, w.museum)
  {
    hide Steady, Reached, BreaksOut, SameGround, Aftermath, Cohesive, StockValid, Victims, Culled;
    SameGroundItself(w.cells);
    dead, left := [], w.clades;
    NobodyIll(w, rules);
    struck := Start(w, rules, rng);
    if struck == None {
      return;
    }
    var os, p := w.organisms, struck.value;
    var reached := CellsWhere(|os|, (i: nat) => Reached(rules, os, p, i));
    ReachedInRange(rules, os, p);
    VictimsListed(rules, os, p);
    ListedOnce(reached, Victims(rules, os, p));
    forall q | BreaksOut(rules, rng, w.epoch, os, w.clades, q)
      ensures q == p
    {
      OneOutbreak(rules, rng, w.epoch, os, w.clades, p, q);
    }
    if |reached| < rules.events.plagueMinMembers {
      struck := None;
      return;
    }
    dead, left := Ravage(w, rules, rng, p, reached);
  }

  lemma NobodyIll(w: World, rules: Ruleset)
    requires Steady(w, rules)
    ensures Culled(rules, w.clades, w.museum, w.epoch, w.nextCladeId, w.clades, w.organisms, Survivors(|w.organisms|, []),
      w.clades, w.museum)
  {
    SteadyIsPeopleOnGround(w, rules);
    hide Steady, Peopled, Culled;
    assert Survivors(|w.organisms|, []) == AllAlive(|w.organisms|);
    NobodyCulled(w, rules);
  }

  lemma ReachedInRange(rules: Ruleset, os: seq<Organism>, p: Outbreak)
    ensures forall i: nat :: Reached(rules, os, p, i) ==> i < |os|
  {
  }
}
