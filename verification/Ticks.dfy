/** A whole tick, core/src/sim.rs:786-910. */
module Ticks {
  import opened Acts
  import opened Births
  import opened Choices
  import opened Cohesion
  import opened Environment
  import opened Genomes
  import opened Grid
  import opened Hashing
  import opened Herd
  import opened Kinship
  import opened Randomness
  import opened Sorting
  import opened Steadiness
  import opened Threats
  import opened TickState
  import opened Upkeep
  import opened Walks
  import opened WorldState

  // ---- The index and what each cell looks like ----

  /** The strongest hunter among the first k organisms that stand in a cell. */
  ghost predicate StrongestIn(rules: Ruleset, os: seq<Organism>, k: nat, c: nat, h: Hunter)
    requires k <= |os|
  {
    && h.power >= NO_POWER
    && (forall i :: 0 <= i < k && os[i].cell == c && os[i].genome.lanes[HUNTING] > 0 ==>
          Attack(rules, os[i].genome) <= h.power)
    && (h == NOBODY || exists i :: (0 <= i < k && os[i].cell == c && os[i].genome.lanes[HUNTING] > 0
          && h == Hunter(Attack(rules, os[i].genome), os[i].cladeId)))
  }

  function GuardIn(rules: Ruleset, o: Organism, acting: Biome): int
    requires |rules.biomes| == BIOMES
  {
    Defense(rules, o.genome) + Cover(rules, acting)
  }

  /** The guard is what an attack is measured against. */
  lemma GuardIsDefense(rules: Ruleset, biome: seq<Biome>, me: Organism, o: Organism)
    requires |rules.biomes| == BIOMES && o.cell < |biome|
    ensures Margin(rules, biome, me, o) + GuardIn(rules, o, biome[o.cell]) == Attack(rules, me.genome)
  {
    hide Attack, Defense, Cover;
  }

  /** The weakest organism among the first k that stand in a cell. */
  ghost predicate WeakestIn(rules: Ruleset, biome: seq<Biome>, os: seq<Organism>, k: nat, c: nat, p: Prey)
    requires k <= |os| && |rules.biomes| == BIOMES && c < |biome|
  {
    && (p == NoPrey ==> forall i :: 0 <= i < k ==> os[i].cell != c)
    && (p.Prey? ==> forall i :: 0 <= i < k && os[i].cell == c ==> p.defense <= GuardIn(rules, os[i], biome[c]))
    && (p.Prey? ==> exists i ::
          0 <= i < k && os[i].cell == c && p == Prey(GuardIn(rules, os[i], biome[c]), os[i].cladeId))
  }

  function WithHunter(rules: Ruleset, h: Hunter, o: Organism): Hunter {
    if o.genome.lanes[HUNTING] > 0 && Attack(rules, o.genome) > h.power
    then Hunter(Attack(rules, o.genome), o.cladeId) else h
  }

  function WithPrey(rules: Ruleset, p: Prey, o: Organism, acting: Biome): Prey
    requires |rules.biomes| == BIOMES
  {
    var guard := GuardIn(rules, o, acting);
    if p == NoPrey || guard < p.defense then Prey(guard, o.cladeId) else p
  }

  lemma SightingKeeps(rules: Ruleset, biome: seq<Biome>, os: seq<Organism>, k: nat, c: nat, h: Hunter, p: Prey)
    requires k < |os| && |rules.biomes| == BIOMES && c < |biome|
    requires StrongestIn(rules, os, k, c, h) && WeakestIn(rules, biome, os, k, c, p)
    ensures StrongestIn(rules, os, k + 1, c, if os[k].cell == c then WithHunter(rules, h, os[k]) else h)
    ensures WeakestIn(rules, biome, os, k + 1, c, if os[k].cell == c then WithPrey(rules, p, os[k], biome[c]) else p)
  {
    hide Attack, Defense, GuardIn;
  }

  ghost predicate Sighted(rules: Ruleset, biome: seq<Biome>, os: seq<Organism>, k: nat, hunter: seq<Hunter>, prey: seq<Prey>)
    requires k <= |os| && |rules.biomes| == BIOMES
  {
    && |hunter| == |prey| == |biome|
    && (forall c :: 0 <= c < |biome| ==> StrongestIn(rules, os, k, c, hunter[c]))
    && (forall c :: 0 <= c < |biome| ==> WeakestIn(rules, biome, os, k, c, prey[c]))
  }

  lemma SightedNext(rules: Ruleset, biome: seq<Biome>, os: seq<Organism>, k: nat, hunter: seq<Hunter>, prey: seq<Prey>,
      hunter': seq<Hunter>, prey': seq<Prey>)
    requires k < |os| && |rules.biomes| == BIOMES && Sighted(rules, biome, os, k, hunter, prey) && os[k].cell < |biome|
    requires hunter' == hunter[os[k].cell := WithHunter(rules, hunter[os[k].cell], os[k])]
    requires prey' == prey[os[k].cell := WithPrey(rules, prey[os[k].cell], os[k], biome[os[k].cell])]
    ensures Sighted(rules, biome, os, k + 1, hunter', prey')
  {
    hide StrongestIn, WeakestIn, WithHunter, WithPrey;
    forall c: nat | c < |biome|
      ensures StrongestIn(rules, os, k + 1, c, hunter'[c]) && WeakestIn(rules, biome, os, k + 1, c, prey'[c])
    {
      SightingKeeps(rules, biome, os, k, c, hunter[c], prey[c]);
    }
  }

  /** Lists organism i in its cell and notes it there. */
  method IndexOne(w: World, s: Scratch, rules: Ruleset, i: nat)
    requires Steady(w, rules) && i < |w.organisms| && |rules.biomes| == BIOMES && |s.biome| == |w.cells|
    requires Crowd(s.Ix(), |w.cells|, rules.maxPerCell, w.organisms[..i], AllAlive(i))
    requires Sighted(rules, s.biome, w.organisms, i, s.hunter, s.prey)
    modifies s`occ, s`members, s`hunter, s`prey
    ensures Crowd(s.Ix(), |w.cells|, rules.maxPerCell, w.organisms[..i + 1], AllAlive(i + 1))
    ensures Sighted(rules, s.biome, w.organisms, i + 1, s.hunter, s.prey)
  {
    hide Steady, Crowd, Sighted, WithHunter, WithPrey, Entered, Tally;
    var o := w.organisms[i];
    var c := o.cell;
    CrowdLimits(w, rules);
    StandsSomewhere(w, rules, i);
    SightedLists(rules, s.biome, w.organisms, i, s.hunter, s.prey);
    CrowdShape(s.Ix(), |w.cells|, rules.maxPerCell, w.organisms[..i], AllAlive(i));
    RoomForNext(s.Ix(), |w.cells|, rules.maxPerCell, w.organisms, i);
    BirthKeeps(s.Ix(), |w.cells|, rules.maxPerCell, w.organisms[..i], AllAlive(i), o);
    s.Add(c, i);
    SightedNext(rules, s.biome, w.organisms, i, s.hunter, s.prey,
      s.hunter[c := WithHunter(rules, s.hunter[c], o)], s.prey[c := WithPrey(rules, s.prey[c], o, s.biome[c])]);
    s.hunter := s.hunter[c := WithHunter(rules, s.hunter[c], o)];
    s.prey := s.prey[c := WithPrey(rules, s.prey[c], o, s.biome[c])];
  }

  lemma CrowdOccupies(ix: Index, cells: nat, limit: nat, os: seq<Organism>)
    requires Crowd(ix, cells, limit, os, AllAlive(|os|))
    ensures Counted(ix.occ, os, cells)
  {
    forall c: nat | c < cells
      ensures ix.occ[c] == Tally(os, InCell(c))
    {
      assert |Listed(ix, c)| == Count(os, AllAlive(|os|), InCell(c));
      CountAllAlive(os, AllAlive(|os|), InCell(c));
    }
  }

  /** Lists every organism in its cell, notes hunters and prey, and tabulates threats. */
  method IndexOrganisms(w: World, s: Scratch, rules: Ruleset)
    requires Steady(w, rules) && ActingFine(w.cells, s.biome, s.moveCost)
    modifies s
    ensures Ticking(w, s, rules) && s.alive == AllAlive(|w.organisms|) && |rules.biomes| == BIOMES
    ensures Sighted(rules, s.biome, w.organisms, |w.organisms|, s.hunter, s.prey)
    ensures s.biome == old(s.biome) && s.moveCost == old(s.moveCost) && s.queue == [] && s.effectPct == old(s.effectPct)
    ensures (forall i :: 0 <= i < |s.spent| ==> s.spent[i] == 0) && Counted(s.occ, w.organisms, |w.cells|)
  {
    hide Sound, Peopled, Steady, Crowd, HerdFine, CellsFine, ClansFine, Sighted, Tally, Count, TablesFine, AllStand,
      RiftsFine, Counted;
    HerdFromSteady(w, rules);
    CrowdLimits(w, rules);
    var os := w.organisms;
    s.Reset(|w.cells|, |os|);
    SteadyIsPeopleOnGround(w, rules);
    PeopledRules(w, rules);
    BiomesListed(rules);
    EmptyCrowd(s.Ix(), |w.cells|, rules.maxPerCell);
    NothingSighted(rules, s.biome, os, s.hunter, s.prey);
    assert os[..0] == [] && AllAlive(0) == [] && s.alive == AllAlive(|os|);
    for i := 0 to |os|
      invariant s.biome == old(s.biome) && s.moveCost == old(s.moveCost) && s.queue == []
      invariant s.alive == AllAlive(|os|) && s.aliveCount == |os| && SpentFine(s.spent, |os|)
      invariant s.effectPct == old(s.effectPct) && forall k :: 0 <= k < |s.spent| ==> s.spent[k] == 0
      invariant Crowd(s.Ix(), |w.cells|, rules.maxPerCell, os[..i], AllAlive(i))
      invariant Sighted(rules, s.biome, os, i, s.hunter, s.prey)
    {
      IndexOne(w, s, rules, i);
    }
    assert os[..|os|] == os;
    CrowdOccupies(s.Ix(), |w.cells|, rules.maxPerCell, os);
    SightedPowers(rules, s.biome, os, s.hunter, s.prey);
    s.threat := Tabulate(s.hunter, rules.size);
    TablesTabulated(w, rules, s.hunter, s.threat, s.prey);
    ClansFromSteady(w, rules, s.alive);
  }

  lemma TablesTabulated(w: World, rules: Ruleset, hunter: seq<Hunter>, threat: seq<TopTwo>, prey: seq<Prey>)
    requires CellsFine(rules, w.cells) && |hunter| == |prey| == |threat| == |w.cells|
    requires forall c :: 0 <= c < |hunter| ==> hunter[c].power >= NO_POWER
    requires forall c :: 0 <= c < |threat| ==> Answers(threat[c], Area(hunter, rules.size, c, 9))
    ensures TablesFine(hunter, threat, prey, rules.size)
  {
  }

  lemma CrowdShape(ix: Index, cells: nat, limit: nat, os: seq<Organism>, alive: seq<bool>)
    requires Crowd(ix, cells, limit, os, alive)
    ensures Shaped(ix, cells)
  {
  }

  lemma CrowdLimits(w: World, rules: Ruleset)
    requires Steady(w, rules)
    ensures forall c: nat :: c < |w.cells| ==> Tally(w.organisms, InCell(c)) <= rules.maxPerCell
    ensures |w.cells| == Cells(rules.size) && w.size == rules.size && rules.maxPerCell <= 4
  {
  }

  lemma StandsSomewhere(w: World, rules: Ruleset, i: nat)
    requires Steady(w, rules) && i < |w.organisms|
    ensures w.organisms[i].cell < |w.cells|
  {
    assert BodyFine(rules, w.cells, w.organisms[i]);
  }

  lemma NothingSighted(rules: Ruleset, biome: seq<Biome>, os: seq<Organism>, hunter: seq<Hunter>, prey: seq<Prey>)
    requires |rules.biomes| == BIOMES && |hunter| == |prey| == |biome|
    requires forall c :: 0 <= c < |biome| ==> hunter[c] == NOBODY && prey[c] == NoPrey
    ensures Sighted(rules, biome, os, 0, hunter, prey)
  {
  }

  lemma SightedLists(rules: Ruleset, biome: seq<Biome>, os: seq<Organism>, k: nat, hunter: seq<Hunter>, prey: seq<Prey>)
    requires k <= |os| && |rules.biomes| == BIOMES && Sighted(rules, biome, os, k, hunter, prey)
    ensures |hunter| == |prey| == |biome|
  {
  }

  lemma SightedPowers(rules: Ruleset, biome: seq<Biome>, os: seq<Organism>, hunter: seq<Hunter>, prey: seq<Prey>)
    requires |rules.biomes| == BIOMES && Sighted(rules, biome, os, |os|, hunter, prey)
    ensures |hunter| == |prey| == |biome| && forall c :: 0 <= c < |hunter| ==> hunter[c].power >= NO_POWER
  {
  }

  // ---- The queue ----

  /** Earlier in the queue: a smaller key, then a smaller id, then an earlier place. */
  predicate Earlier(a: Turn, b: Turn) {
    a.key < b.key || (a.key == b.key && (a.id < b.id || (a.id == b.id && a.place <= b.place)))
  }

  lemma EarlierOrders(turns: seq<Turn>)
    ensures Orders(Earlier, turns)
  {
  }

  function TurnOf(rng: Rng, tick: u32, os: seq<Organism>, i: nat): Turn
    requires i < |os|
  {
    Turn(rng.raw(tick, Queue, os[i].id % WORDS, 0), os[i].id, i)
  }

  function Turns(rng: Rng, tick: u32, os: seq<Organism>, k: nat): seq<Turn>
    requires k <= |os|
  {
    if k == 0 then [] else Turns(rng, tick, os, k - 1) + [TurnOf(rng, tick, os, k - 1)]
  }

  lemma {:induction false} TurnsNumbered(rng: Rng, tick: u32, os: seq<Organism>, k: nat)
    requires k <= |os|
    ensures forall t :: t in Turns(rng, tick, os, k) <==> t.place < k && t == TurnOf(rng, tick, os, t.place)
  {
    if k > 0 {
      TurnsNumbered(rng, tick, os, k - 1);
    }
  }

  /** Everyone has one turn, with its own draw as key; smaller keys come first, and smaller ids among equal ones. */
  ghost predicate QueueOf(rng: Rng, tick: u32, os: seq<Organism>, queue: seq<Turn>) {
    && |queue| == |os|
    && (forall q :: 0 <= q < |queue| ==> queue[q].place < |os| && queue[q].id == os[queue[q].place].id)
    && (forall q :: 0 <= q < |queue| ==> queue[q].key == rng.raw(tick, Queue, queue[q].id % WORDS, 0))
    && (forall q, r :: 0 <= q < r < |queue| ==> queue[q].place != queue[r].place)
    && (forall q, r :: 0 <= q < r < |queue| ==>
          queue[q].key < queue[r].key || (queue[q].key == queue[r].key && queue[q].id <= queue[r].id))
  }

  lemma {:induction false} OneTurnEach(rng: Rng, tick: u32, os: seq<Organism>, k: nat, t: Turn)
    requires k <= |os|
    ensures |Turns(rng, tick, os, k)| == k && multiset(Turns(rng, tick, os, k))[t] <= 1
  {
    if k > 0 {
      OneTurnEach(rng, tick, os, k - 1, t);
      TurnsNumbered(rng, tick, os, k - 1);
      assert TurnOf(rng, tick, os, k - 1) !in Turns(rng, tick, os, k - 1);
    }
  }

  lemma IsQueue(rng: Rng, tick: u32, os: seq<Organism>, queue: seq<Turn>)
    requires multiset(queue) == multiset(Turns(rng, tick, os, |os|)) && Sorted(Earlier, queue)
    ensures QueueOf(rng, tick, os, queue)
  {
    var all := Turns(rng, tick, os, |os|);
    TurnsNumbered(rng, tick, os, |os|);
    SameElements(queue, all);
    OneTurnEach(rng, tick, os, |os|, Turn(0, 0, 0));
    hide Turns;
    forall q | 0 <= q < |queue|
      ensures queue[q].place < |os| && queue[q] == TurnOf(rng, tick, os, queue[q].place)
    {
      assert queue[q] in queue;
    }
    forall q, r | 0 <= q < r < |queue|
      ensures queue[q].place != queue[r].place && Earlier(queue[q], queue[r])
    {
      if queue[q].place == queue[r].place {
        OneTurnEach(rng, tick, os, |os|, queue[q]);
        Twice(queue, q, r);
      }
    }
  }

  /** Everyone once, in the one order that the keys give; ids break ties. */
  method FillQueue(w: World, s: Scratch, rng: Rng, tick: u32)
    modifies s`queue
    ensures multiset(s.queue) == multiset(Turns(rng, tick, w.organisms, |w.organisms|))
    ensures Sorted(Earlier, s.queue)
    ensures forall q :: 0 <= q < |s.queue| ==> s.queue[q].place < |w.organisms|
    ensures QueueOf(rng, tick, w.organisms, s.queue)
  {
    hide QueueOf, TurnOf, Orders, Sorted;
    var turns: seq<Turn> := [];
    for i := 0 to |w.organisms|
      invariant turns == Turns(rng, tick, w.organisms, i)
    {
      turns := turns + [TurnOf(rng, tick, w.organisms, i)];
    }
    s.queue := Sort(turns, Earlier);
    SortPermutes(turns, Earlier);
    EarlierOrders(turns);
    SortSorts(turns, Earlier);
    PlacesInRange(rng, tick, w.organisms, s.queue);
    IsQueue(rng, tick, w.organisms, s.queue);
  }

  lemma PlacesInRange(rng: Rng, tick: u32, os: seq<Organism>, queue: seq<Turn>)
    requires multiset(queue) == multiset(Turns(rng, tick, os, |os|))
    ensures forall q :: 0 <= q < |queue| ==> queue[q].place < |os|
  {
    TurnsNumbered(rng, tick, os, |os|);
    SameElements(queue, Turns(rng, tick, os, |os|));
    forall q | 0 <= q < |queue|
      ensures queue[q].place < |os|
    {
      assert queue[q] in queue;
    }
  }

  // ---- Everyone's turn ----

  /** The same organisms, each somewhere it could walk to. */
  ghost predicate Roamed(size: Size, ground: seq<Biome>, os: seq<Organism>, os': seq<Organism>) {
    |os'| == |os| && forall k :: 0 <= k < |os| ==>
      os'[k] == os[k].(cell := os'[k].cell, energy := os'[k].energy) && Linked(size, ground, os[k].cell, os'[k].cell)
  }

  lemma TrailLinks(size: Size, cells: seq<Cell>, biome: seq<Biome>, moveCost: seq<int>, trail: seq<nat>)
    requires ActingFine(cells, biome, moveCost) && Trail(size, biome, trail)
    requires cells[trail[0]].biome != DeepWater
    ensures Linked(size, Ground(cells), trail[0], trail[|trail| - 1])
  {
    assert DryWay(size, Ground(cells), trail) by {
      forall k | 0 <= k < |trail|
        ensures trail[k] < |cells| && cells[trail[k]].biome != DeepWater
      {
        assert ActsAs(biome[trail[k]], cells[trail[k]].biome);
      }
    }
    assert WayBetween(size, Ground(cells), trail[0], trail[|trail| - 1], trail);
  }

  lemma RoamedFurther(size: Size, ground: seq<Biome>, os: seq<Organism>, os': seq<Organism>, i: nat, cell: nat, energy: int)
    requires Roamed(size, ground, os, os') && i < |os| && Linked(size, ground, os'[i].cell, cell)
    ensures Roamed(size, ground, os, os'[i := os'[i].(cell := cell, energy := energy)])
  {
    hide Linked;
    LinkedThrough(size, ground, os[i].cell, os'[i].cell, cell);
  }

  lemma RoamedNowhere(size: Size, cells: seq<Cell>, os: seq<Organism>)
    requires forall k :: 0 <= k < |os| ==> Stands(cells, os[k])
    ensures Roamed(size, Ground(cells), os, os)
  {
    forall k | 0 <= k < |os|
      ensures Linked(size, Ground(cells), os[k].cell, os[k].cell)
    {
      LinkedHere(size, Ground(cells), os[k].cell);
    }
  }

  lemma SameGroundSame(cells: seq<Cell>, cells': seq<Cell>)
    requires SameGround(cells, cells')
    ensures Ground(cells) == Ground(cells')
  {
  }

  lemma TickingParts(w: World, s: Scratch, rules: Ruleset)
    requires Ticking(w, s, rules)
    ensures |w.organisms| == |s.alive| == |s.spent| && ActingFine(w.cells, s.biome, s.moveCost)
    ensures forall k :: 0 <= k < |w.organisms| ==> Stands(w.cells, w.organisms[k])
    ensures Validated(rules) && w.size == rules.size && |s.biome| == |w.cells|
  {
    hide Crowd, ClansFine, Count, TablesFine, CellsFine, IsValid, Ascending, Stands;
  }

  /** What everyone sees of the map, the same for all turns of a tick. */
  datatype View = View(biome: seq<Biome>, prey: seq<Prey>, hunter: seq<Hunter>, moveCost: seq<int>)

  function ViewOf(s: Scratch): View
    reads s
  {
    View(s.biome, s.prey, s.hunter, s.moveCost)
  }

  function SceneAt(rules: Ruleset, view: View, m: Moment): Scene {
    Scene(rules, m.cells, view.biome, m.occ, view.prey, view.hunter, view.moveCost)
  }

  /** What happened in a turn. */
  datatype Step = Step(trail: seq<nat>, goal: nat, walked: Moment, deed: Deed)

  /** The turn of organism i: if it still lives it walks and then hunts or grazes; otherwise nothing happens. */
  ghost predicate TurnTaken(rules: Ruleset, rng: Rng, tick: u32, view: View, m: Moment, m': Moment, i: nat, step: Step) {
    && i < |m.alive|
    && if m.alive[i] then
         && Walked(SceneAt(rules, view, m), rng, tick, m, step.walked, i, step.trail, step.goal)
         && |rules.biomes| == BIOMES && |step.walked.os| == |step.walked.alive| && i < |step.walked.os| && i < |m.os|
         && Acted(rules, rng, tick, view.biome, step.walked, m', i, m.os[i], step.deed)
       else m' == m
  }

  /** Everyone in the queue has had its turn, one after the other. */
  ghost predicate TurnsTaken(rules: Ruleset, rng: Rng, tick: u32, view: View, queue: seq<Turn>, moments: seq<Moment>,
      steps: seq<Step>)
  {
    && |moments| == |queue| + 1 && |steps| == |queue|
    && (forall q :: 0 <= q < |queue| ==>
          TurnTaken(rules, rng, tick, view, moments[q], moments[q + 1], queue[q].place, steps[q]))
  }

  lemma TurnsTakenNext(rules: Ruleset, rng: Rng, tick: u32, view: View, queue: seq<Turn>, moments: seq<Moment>,
      steps: seq<Step>, m': Moment, step: Step)
    requires |steps| < |queue| && TurnsTaken(rules, rng, tick, view, queue[..|steps|], moments, steps)
    requires TurnTaken(rules, rng, tick, view, moments[|steps|], m', queue[|steps|].place, step)
    ensures TurnsTaken(rules, rng, tick, view, queue[..|steps| + 1], moments + [m'], steps + [step])
  {
    hide TurnTaken;
  }

  /** The living act in queue order; whoever died before its turn does not. */
  method ActAll(w: World, s: Scratch, rules: Ruleset, rng: Rng, tick: u32)
    returns (ghost moments: seq<Moment>, ghost steps: seq<Step>)
    requires Ticking(w, s, rules)
    requires forall q :: 0 <= q < |s.queue| ==> s.queue[q].place < |w.organisms|
    modifies w`organisms, w`clades, w`cells, s`alive, s`aliveCount, s`occ, s`members, s`spent
    ensures Ticking(w, s, rules) && SameGround(old(w.cells), w.cells) && SameRefs(old(w.clades), w.clades)
    ensures Roamed(rules.size, Ground(old(w.cells)), old(w.organisms), w.organisms)
    ensures TurnsTaken(rules, rng, tick, ViewOf(s), s.queue, moments, steps)
    ensures moments[0] == old(Now(w, s)) && moments[|s.queue|] == Now(w, s) && |w.organisms| == |old(w.organisms)|
  {
    hide Ticking, ActingFine, Stands, Trail, Linked, Fed, Spoils, MealGain, Validated, SameRefs, TurnTaken, TurnsTaken,
      Walked, Acted, Roamed, SameGround;
    moments, steps := [Now(w, s)], [];
    NoTurnsYet(rules, rng, tick, ViewOf(s), s.queue, Now(w, s));
    SameGroundHere(w.cells);
    TickingParts(w, s, rules);
    SameRefsHere(w.clades);
    RoamedNowhere(rules.size, w.cells, w.organisms);
    for q := 0 to |s.queue|
      invariant Ticking(w, s, rules) && SameGround(old(w.cells), w.cells) && SameRefs(old(w.clades), w.clades)
      invariant Roamed(rules.size, Ground(old(w.cells)), old(w.organisms), w.organisms)
      invariant |w.organisms| == |old(w.organisms)|
      invariant |steps| == q && |moments| == q + 1 && moments[0] == old(Now(w, s)) && moments[q] == Now(w, s)
      invariant TurnsTaken(rules, rng, tick, ViewOf(s), s.queue[..q], moments, steps)
    {
      TickingParts(w, s, rules);
      ghost var m := Now(w, s);
      ghost var step := Step([], 0, m, Rested);
      var i := s.queue[q].place;
      if s.alive[i] {
        ghost var cells, os, clades := w.cells, w.organisms, w.clades;
        ghost var trail;
        var deed;
        StandsDry(cells, os[i]);
        ghost var goal, walked;
        trail, goal, walked, deed := Act(w, s, rules, rng, tick, i);
        step := Step(trail, goal, walked, deed);
        IsTurn(rules, rng, tick, ViewOf(s), m, Now(w, s), i, step);
        SameRefsThrough(old(w.clades), clades, w.clades);
        TickingParts(w, s, rules);
        SameGroundSame(old(w.cells), cells);
        SameGroundThrough(old(w.cells), cells, w.cells);
        SameGroundActs(cells, w.cells, s.biome, s.moveCost);
        TrailLinks(rules.size, cells, s.biome, s.moveCost, trail);
        RoamedFurther(rules.size, Ground(cells), old(w.organisms), os, i, trail[|trail| - 1], w.organisms[i].energy);
      } else {
        NoTurn(rules, rng, tick, ViewOf(s), m, i, step);
      }
      TurnsTakenNext(rules, rng, tick, ViewOf(s), s.queue, moments, steps, Now(w, s), step);
      moments, steps := moments + [Now(w, s)], steps + [step];
    }
    assert s.queue[..|s.queue|] == s.queue;
  }

  lemma NoTurnsYet(rules: Ruleset, rng: Rng, tick: u32, view: View, queue: seq<Turn>, m: Moment)
    ensures TurnsTaken(rules, rng, tick, view, queue[..0], [m], [])
  {
  }

  lemma IsTurn(rules: Ruleset, rng: Rng, tick: u32, view: View, m: Moment, m': Moment, i: nat, step: Step)
    requires i < |m.alive| && m.alive[i] && i < |m.os| && |rules.biomes| == BIOMES
    requires Walked(SceneAt(rules, view, m), rng, tick, m, step.walked, i, step.trail, step.goal)
    requires |step.walked.os| == |step.walked.alive| && i < |step.walked.os|
    requires Acted(rules, rng, tick, view.biome, step.walked, m', i, m.os[i], step.deed)
    ensures TurnTaken(rules, rng, tick, view, m, m', i, step)
  {
    hide Walked, Acted;
  }

  lemma NoTurn(rules: Ruleset, rng: Rng, tick: u32, view: View, m: Moment, i: nat, step: Step)
    requires i < |m.alive| && !m.alive[i]
    ensures TurnTaken(rules, rng, tick, view, m, m, i, step)
  {
    hide Walked, Acted;
  }

  lemma StandsDry(cells: seq<Cell>, o: Organism)
    requires Stands(cells, o)
    ensures o.cell < |cells| && cells[o.cell].biome != DeepWater
  {
  }

  lemma SameGroundActs(cells: seq<Cell>, cells': seq<Cell>, biome: seq<Biome>, moveCost: seq<int>)
    requires SameGround(cells, cells') && ActingFine(cells', biome, moveCost)
    ensures ActingFine(cells, biome, moveCost)
  {
  }

  // ---- The tick ----

  /** What a tick changes in the world. */
  datatype Snapshot = Snapshot(cells: seq<Cell>, effects: seq<Effect>, organisms: seq<Organism>, clades: map<nat, Clade>,
    museum: seq<MuseumEntry>, nextOrganismId: nat, nextCladeId: nat)

  function SnapshotOf(w: World): Snapshot
    reads w
  {
    Snapshot(w.cells, w.effects, w.organisms, w.clades, w.museum, w.nextOrganismId, w.nextCladeId)
  }

  /** The course of a tick: what the effects make of the map, what everyone sees, the queue, and the moments between the
      turns, the payments and the births. */
  datatype Course = Course(pct: seq<nat>, view: View, queue: seq<Turn>, turns: seq<Moment>, steps: seq<Step>,
    payments: seq<Moment>, cradles: seq<Cradle>, broods: seq<Brood>)

  /** Steps 1 and 2: the environment, and what each cell looks like to its neighbours. */
  ghost predicate Begun(rules: Ruleset, globalTick: nat, a: Snapshot, pct: seq<nat>, view: View, m: Moment) {
    && Validated(rules) && |rules.biomes| == BIOMES
    && WeatheredAll(rules, globalTick, a.cells, a.effects, m.cells, pct, view.biome, view.moveCost)
    && Sighted(rules, view.biome, a.organisms, |a.organisms|, view.hunter, view.prey)
    && m == Moment(a.organisms, AllAlive(|a.organisms|), m.cells, a.clades, m.spent, m.occ)
    && |m.spent| == |a.organisms| && (forall i :: 0 <= i < |m.spent| ==> m.spent[i] == 0)
    && Counted(m.occ, m.os, |m.cells|)
  }

  /** Steps 3 and 4: everyone's turn in the order of the queue, then everyone pays. */
  ghost predicate TookTurns(rules: Ruleset, rng: Rng, tick: u32, globalTick: nat, os: seq<Organism>, c: Course) {
    && QueueOf(rng, tick, os, c.queue) && TurnsTaken(rules, rng, tick, c.view, c.queue, c.turns, c.steps)
    && AllPaidUp(rules, rng, tick, globalTick, c.view.biome, c.payments) && |c.payments| == |os| + 1
    && c.payments[0] == c.turns[|c.queue|]
  }

  /** Steps 3 to 5: everyone's turn in the order of the queue, then everyone pays, then everyone may breed. */
  ghost predicate Lived(rules: Ruleset, rng: Rng, tick: u32, globalTick: nat, epoch: nat, os: seq<Organism>, id: nat,
      cladeId: nat, c: Course)
  {
    && TookTurns(rules, rng, tick, globalTick, os, c)
    && BroodsBorn(rules, rng, tick, c.view.biome, epoch, c.cradles, c.broods) && |c.broods| == |os|
    && var m := c.payments[|os|];
    && |m.os| == |m.alive|
    && c.cradles[0] == Cradle(m.os, m.alive, m.clades, m.occ, Count(m.os, m.alive, Anyone), id, cladeId)
  }

  /** A tick has taken its course: steps 1 to 5, and then the dead are dropped and the clades that died out closed. */
  ghost predicate TickTaken(rules: Ruleset, rng: Rng, tick: u32, globalTick: nat, epoch: nat, a: Snapshot, b: Snapshot,
      c: Course)
  {
    && |c.turns| > 0 && Begun(rules, globalTick, a, c.pct, c.view, c.turns[0])
    && Lived(rules, rng, tick, globalTick, epoch, a.organisms, a.nextOrganismId, a.nextCladeId, c)
    && var z := c.cradles[|c.broods|];
    && |z.os| == |z.alive|
    && b == Snapshot(c.payments[|a.organisms|].cells, RunDown(a.effects), Retained(z.os, z.alive), Living(z.clades),
         ArchivedUpTo(rules, a.museum, z.clades, epoch, z.nextCladeId), z.nextOrganismId, z.nextCladeId)
  }

  /** Descent over a tick: a survivor walked where it stands, a newborn stands next to a parent that did. */
  lemma TickSucceeds(size: Size, ground: seq<Biome>, os: seq<Organism>, roamed: seq<Organism>, paid: seq<Organism>,
      grown: seq<Organism>, alive: seq<bool>, next: nat, next': nat)
    requires |grown| == |alive| && Roamed(size, ground, os, roamed) && |paid| == |roamed|
    requires forall k :: 0 <= k < |paid| ==> paid[k].id == roamed[k].id && paid[k].parentId == roamed[k].parentId
    requires forall k :: 0 <= k < |paid| ==> paid[k].cell == roamed[k].cell && paid[k].lineageId == roamed[k].lineageId
    requires Grown(size, ground, paid, grown, alive, next, next') && forall i :: 0 <= i < |os| ==> os[i].id < next
    ensures Succeeds(size, ground, os, next, Retained(grown, alive), next', true)
  {
    hide Linked, Chebyshev, Distance, Retained;
    var left := Retained(grown, alive);
    forall j | 0 <= j < |left|
      ensures if left[j].id < next then Continues(size, ground, os, left[j]) else HasParent(size, ground, os, left[j])
    {
      var i := RetainedFrom(grown, alive, j);
      if i < |os| {
        assert Stays(size, ground, os[i], left[j]);
      } else {
        var p :| 0 <= p < |paid| && ChildOf(size, ground, paid[p], grown[i]);
        LinkedStep(size, ground, paid[p].cell, grown[i].cell);
        LinkedThrough(size, ground, os[p].cell, paid[p].cell, grown[i].cell);
        assert BornOf(size, ground, os[p], left[j]);
      }
    }
    forall id: nat | next <= id < next'
      ensures HasId(left, id)
    {
      var j := RetainedHas(grown, alive, |paid| + id - next);
    }
  }

  /** The newborns of a tick are those on the register, as they were born. */
  lemma TickRegisters(size: Size, ground: seq<Biome>, os: seq<Organism>, roamed: seq<Organism>, paid: seq<Organism>,
      grown: seq<Organism>, alive: seq<bool>, next: nat, next': nat, births: map<nat, Birth>)
    requires |grown| == |alive| && Roamed(size, ground, os, roamed) && |paid| == |roamed|
    requires forall k :: 0 <= k < |paid| ==> paid[k].id == roamed[k].id
    requires Grown(size, ground, paid, grown, alive, next, next') && forall i :: 0 <= i < |os| ==> os[i].id < next
    ensures Registers(births, Added(births, grown[|paid|..]), Retained(grown, alive), next, next')
  {
    hide Linked, Chebyshev, Distance, Retained, Registers, ChildOf;
    var left, list := Retained(grown, alive), grown[|paid|..];
    forall k | 0 <= k < |paid|
      ensures grown[k].id < next
    {
      assert grown[k].id == paid[k].id == roamed[k].id == os[k].id;
    }
    forall k | 0 <= k < |list|
      ensures list[k].id == next + k
    {
      assert list[k] == grown[|paid| + k];
    }
    forall j | 0 <= j < |left| && next <= left[j].id < next + |list|
      ensures left[j] == list[left[j].id - next]
    {
      var i := RetainedFrom(grown, alive, j);
      assert i >= |paid|;
      assert list[i - |paid|] == grown[i];
    }
    AddedRegisters(births, list, left, next);
  }

  /** The environment of a tick, and the index for it. */
  method Prepare(w: World, s: Scratch, rules: Ruleset, globalTick: nat)
    requires Steady(w, rules) && Lasting(w.effects)
    modifies w`cells, w`effects, s
    ensures Steady(w, rules) && Ticking(w, s, rules) && s.queue == []
    ensures SameGround(old(w.cells), w.cells) && Lasting(w.effects) && w.effects == RunDown(old(w.effects))
    ensures Begun(rules, globalTick, old(SnapshotOf(w)), s.effectPct, ViewOf(s), Now(w, s))
  {
    hide Steady, Ticking, CellsFine, RiftsFine, ActingFine, Sighted, Weathered, StepInto, SameGround, AllStand, Lasting,
      WeatheredAll, Counted, RunDown;
    SteadyIsPeopleOnGround(w, rules);
    PeopledRules(w, rules);
    Weather(w, s, rules, globalTick);
    RunDownLasts(old(w.effects));
    SameGroundStands(old(w.cells), w.cells, w.organisms);
    SameGroundRifts(w.rifts, old(w.cells), w.cells);
    SteadyIsPeopleOnGround(w, rules);
    IndexOrganisms(w, s, rules);
    TickingParts(w, s, rules);
  }

  lemma RunDownLasts(effects: seq<Effect>)
    ensures Lasting(RunDown(effects))
  {
  }

  lemma PeopledRules(w: World, rules: Ruleset)
    requires Peopled(w, rules)
    ensures Validated(rules) && Sound(rules) && w.size == rules.size && Ascending(w.organisms, w.nextOrganismId)
    ensures |w.museum| <= rules.museumCapacity && Increasing(w.revivals)
  {
  }

  /** The dead are dropped and the clades that died out are closed. */
  method Conclude(w: World, s: Scratch, rules: Ruleset)
    requires Ticking(w, s, rules)
    requires |w.organisms| == |s.alive| && AllFed(w.organisms, s.alive)
    requires RiftsFine(w.rifts, w.cells) && |w.museum| <= rules.museumCapacity && Increasing(w.revivals)
    modifies w`organisms, w`clades, w`museum
    ensures Steady(w, rules)
    ensures old(Cohesive(rules, w.organisms, w.clades)) ==> Cohesive(rules, w.organisms, w.clades)
    ensures old(StockValid(rules, w.clades, w.museum)) ==> StockValid(rules, w.clades, w.museum)
    ensures w.organisms == Retained(old(w.organisms), s.alive) && w.clades == Living(old(w.clades))
    ensures w.museum == ArchivedUpTo(rules, old(w.museum), old(w.clades), w.epoch, w.nextCladeId)
  {
    hide Ticking, Steady, RiftsFine, Increasing, AllFed, Sound, CellsFine, Ascending, BodyFine, ClanFine, Living,
      ArchivedUpTo, Retained, Gathered, Cohesive, StockValid;
    TickingParts(w, s, rules);
    DropDead(w, s, rules);
    ghost var clades := w.clades;
    CloseExtinctClades(w, rules);
    ClosedIsSteady(w, rules, clades);
    EveryoneBelongs(w, rules);
    CulledCohere(rules, old(w.organisms), s.alive, clades, w.organisms, w.clades);
    CulledStock(rules, old(w.museum), clades, w.epoch, w.nextCladeId);
  }

  /** Turns, upkeep and births. */
  method Live(w: World, rules: Ruleset, rng: Rng, tick: u32, globalTick: nat, s: Scratch) returns (ghost c: Course)
    requires Ticking(w, s, rules) && forall i :: 0 <= i < |w.organisms| ==> w.organisms[i].id < w.nextOrganismId
    modifies w`cells, w`organisms, w`clades, w`nextOrganismId, w`nextCladeId, w`births
    modifies s`queue, s`alive, s`spent, s`occ, s`members, s`aliveCount
    ensures Ticking(w, s, rules) && |w.organisms| == |s.alive| && AllFed(w.organisms, s.alive)
    ensures SameGround(old(w.cells), w.cells)
    ensures Succeeds(rules.size, Ground(old(w.cells)), old(w.organisms), old(w.nextOrganismId),
      Retained(w.organisms, s.alive), w.nextOrganismId, true)
    ensures old(Cohesive(rules, w.organisms, w.clades)) ==> Cohesive(rules, w.organisms, w.clades)
    ensures old(ReferencesValid(rules, w.clades)) ==> ReferencesValid(rules, w.clades)
    ensures Registers(old(w.births), w.births, Retained(w.organisms, s.alive), old(w.nextOrganismId), w.nextOrganismId)
    ensures Lived(rules, rng, tick, globalTick, w.epoch, old(w.organisms), old(w.nextOrganismId), old(w.nextCladeId), c)
    ensures c.turns != [] && c.turns[0] == old(Now(w, s)) && c.view == ViewOf(s) && c.pct == s.effectPct
    ensures c.cradles[|c.broods|] == CradleOf(w, s) && c.payments[|old(w.organisms)|].cells == w.cells
  {
    hide Ticking, Validated, Stands, ActingFine, SameGround, Paid, Due, Linked, Grown, AllFed, Settled, Roamed, Retained,
      SamePerson, SameRefs, Branched, Cohesive, ReferencesValid, SameKin, Succeeds, Registers, Added,
      TookTurns, BroodsBorn;
    ghost var clades, roamed;
    c, clades, roamed := ActAndPay(w, rules, rng, tick, globalTick, s);
    ghost var paid, acted := w.organisms, w.cells;
    ghost var cradles, broods;
    cradles, broods := BreedAll(w, s, rules, rng, tick);
    SameTurns(rules, rng, tick, globalTick, old(w.organisms), c, cradles, broods);
    c := c.(cradles := cradles, broods := broods);
    SameGroundSame(old(w.cells), w.cells);
    TickSucceeds(rules.size, Ground(w.cells), old(w.organisms), roamed, paid, w.organisms, s.alive, old(w.nextOrganismId),
      w.nextOrganismId);
    TickRegisters(rules.size, Ground(w.cells), old(w.organisms), roamed, paid, w.organisms, s.alive, old(w.nextOrganismId),
      w.nextOrganismId, old(w.births));
    GrownPrefix(rules.size, Ground(w.cells), paid, w.organisms, s.alive, old(w.nextOrganismId), w.nextOrganismId);
    BranchedCohere(rules, paid, clades, w.organisms, w.clades);
  }

  /** The same organisms, each where it was. */
  ghost predicate Stayed(os: seq<Organism>, os': seq<Organism>) {
    && |os'| == |os|
    && (forall k :: 0 <= k < |os| ==> os'[k].id == os[k].id && os'[k].parentId == os[k].parentId)
    && (forall k :: 0 <= k < |os| ==> os'[k].cell == os[k].cell && os'[k].lineageId == os[k].lineageId)
  }

  lemma SettledStayed(rules: Ruleset, rng: Rng, tick: u32, globalTick: nat, biome: seq<Biome>, spent: seq<int>,
      os: seq<Organism>, alive: seq<bool>, os': seq<Organism>, alive': seq<bool>)
    requires Validated(rules) && |os| == |alive| == |spent| && |os'| == |alive'|
    requires forall i :: 0 <= i < |os| ==> os[i].cell < |biome|
    requires Settled(rules, rng, tick, globalTick, biome, spent, os, alive, os', alive', |os|)
    ensures AllFed(os', alive') && Stayed(os, os') && SameKin(os, os')
  {
    hide Validated, Settled, AllFed, SamePerson;
    SettledAreFed(rules, rng, tick, globalTick, biome, spent, os, alive, os', alive');
    SamePersonId(os, os');
    PaidSameKin(os, os');
  }

  /** Turns and upkeep. */
  method ActAndPay(w: World, rules: Ruleset, rng: Rng, tick: u32, globalTick: nat, s: Scratch)
    returns (ghost c: Course, ghost clades: map<nat, Clade>, ghost roamed: seq<Organism>)
    requires Ticking(w, s, rules)
    modifies w`cells, w`organisms, w`clades
    modifies s`queue, s`alive, s`spent, s`occ, s`members, s`aliveCount
    ensures Ticking(w, s, rules) && |w.organisms| == |s.alive| == |old(w.organisms)| && AllFed(w.organisms, s.alive)
    ensures SameGround(old(w.cells), w.cells) && clades == w.clades
    ensures Roamed(rules.size, Ground(old(w.cells)), old(w.organisms), roamed)
    ensures Stayed(roamed, w.organisms)
    ensures old(Cohesive(rules, w.organisms, w.clades)) ==> Cohesive(rules, w.organisms, w.clades)
    ensures old(ReferencesValid(rules, w.clades)) ==> ReferencesValid(rules, w.clades)
    ensures TookTurns(rules, rng, tick, globalTick, old(w.organisms), c)
    ensures c.turns != [] && c.turns[0] == old(Now(w, s)) && c.view == ViewOf(s) && c.pct == s.effectPct
    ensures |c.payments| == |old(w.organisms)| + 1 && c.payments[|old(w.organisms)|] == Now(w, s)
    ensures s.aliveCount == Count(w.organisms, s.alive, Anyone)
  {
    hide Ticking, Validated, Stands, ActingFine, SameGround, Paid, Due, Linked, AllFed, Settled, Roamed, SamePerson, SameRefs,
      Cohesive, ReferencesValid, SameKin, TurnsTaken, AllPaidUp, QueueOf, TookTurns, Stayed;
    ghost var first := w.clades;
    FillQueue(w, s, rng, tick);
    ghost var turns, steps;
    turns, steps := ActAll(w, s, rules, rng, tick);
    ghost var alive, acted, acting := s.alive, w.cells, w.clades;
    roamed := w.organisms;
    TickingParts(w, s, rules);
    StandsInRange(w.cells, w.organisms);
    ghost var payments := PayAll(w, s, rules, rng, tick, globalTick);
    AliveCounted(w, s, rules);
    SettledStayed(rules, rng, tick, globalTick, s.biome, s.spent, roamed, alive, w.organisms, s.alive);
    SameGroundThrough(old(w.cells), acted, w.cells);
    RoamedSameKin(rules.size, Ground(old(w.cells)), old(w.organisms), roamed);
    SameKinCohere(rules, old(w.organisms), first, roamed, acting);
    SameKinCohere(rules, roamed, acting, w.organisms, w.clades);
    clades := w.clades;
    c := Course(s.effectPct, ViewOf(s), s.queue, turns, steps, payments, [], []);
    IsActed(rules, rng, tick, globalTick, old(w.organisms), c);
  }

  lemma SameTurns(rules: Ruleset, rng: Rng, tick: u32, globalTick: nat, os: seq<Organism>, c: Course, cradles: seq<Cradle>,
      broods: seq<Brood>)
    requires TookTurns(rules, rng, tick, globalTick, os, c)
    ensures TookTurns(rules, rng, tick, globalTick, os, c.(cradles := cradles, broods := broods))
  {
    hide QueueOf, TurnsTaken, AllPaidUp;
  }

  lemma IsActed(rules: Ruleset, rng: Rng, tick: u32, globalTick: nat, os: seq<Organism>, c: Course)
    requires QueueOf(rng, tick, os, c.queue) && TurnsTaken(rules, rng, tick, c.view, c.queue, c.turns, c.steps)
    requires AllPaidUp(rules, rng, tick, globalTick, c.view.biome, c.payments) && |c.payments| == |os| + 1
    requires c.payments[0] == c.turns[|c.queue|]
    ensures TookTurns(rules, rng, tick, globalTick, os, c) && c.turns != []
  {
    hide QueueOf, TurnTaken, AllPaidUp;
  }

  lemma AliveCounted(w: World, s: Scratch, rules: Ruleset)
    requires Ticking(w, s, rules)
    ensures |w.organisms| == |s.alive| && s.aliveCount == Count(w.organisms, s.alive, Anyone)
  {
  }

  lemma GrownPrefix(size: Size, ground: seq<Biome>, os: seq<Organism>, os': seq<Organism>, alive': seq<bool>, next: nat,
      next': nat)
    requires |os'| == |alive'| && Grown(size, ground, os, os', alive', next, next')
    ensures |os| <= |os'| && SameKin(os, os'[..|os|])
  {
  }

  lemma RoamedSameKin(size: Size, ground: seq<Biome>, os: seq<Organism>, os': seq<Organism>)
    requires Roamed(size, ground, os, os')
    ensures SameKin(os, os')
  {
    hide Linked;
  }

  lemma PaidSameKin(os: seq<Organism>, os': seq<Organism>)
    requires |os| == |os'| && forall i :: 0 <= i < |os| ==> SamePerson(os[i], os'[i])
    ensures SameKin(os, os')
  {
  }

  /** A whole tick, from any state that check_invariants accepts. It panics exactly when an effect has no tick
      left to count down. Otherwise the world is accepted again, the ground is what it was, and everyone lives
      on where it could walk or was born of someone on linked ground. Clades that held together still do, and
      references that were valid still are. */
  method RunTick(w: World, rules: Ruleset, rng: Rng, tick: u32, s: Scratch) returns (panics: bool, ghost course: Course)
    requires Steady(w, rules)
    modifies w`cells, w`effects, w`organisms, w`clades, w`museum, w`nextOrganismId, w`nextCladeId, w`births, s
    ensures panics <==> !old(Lasting(w.effects))
    ensures !panics ==> TickTaken(rules, rng, tick, w.epoch * rules.ticksPerEpoch + tick, w.epoch, old(SnapshotOf(w)),
      SnapshotOf(w), course)
    ensures !panics ==> Steady(w, rules) && SameGround(old(w.cells), w.cells) && Lasting(w.effects)
    ensures !panics ==> Succeeds(rules.size, Ground(old(w.cells)), old(w.organisms), old(w.nextOrganismId), w.organisms,
      w.nextOrganismId, true)
    ensures !panics ==> Registers(old(w.births), w.births, w.organisms, old(w.nextOrganismId), w.nextOrganismId)
    ensures !panics && old(Cohesive(rules, w.organisms, w.clades)) ==> Cohesive(rules, w.organisms, w.clades)
    ensures !panics && old(StockValid(rules, w.clades, w.museum)) ==> StockValid(rules, w.clades, w.museum)
  {
    hide Steady, Ticking, Peopled, CellsFine, RiftsFine, AllStand, SameGround, AllFed, Lasting, MuseumValid,
      Sound, Validated, Retained, Living, ArchivedUpTo, Succeeds, Cohesive, ReferencesValid, Registers,
      Begun, Lived, Sighted, RunDown;
    course := Course([], View([], [], [], []), [], [], [], [], [], []);
    panics := !Lasting(w.effects);
    if panics {
      return;
    }
    var globalTick := w.epoch * rules.ticksPerEpoch + tick;
    Prepare(w, s, rules, globalTick);
    SteadyIsPeopleOnGround(w, rules);
    PeopledRules(w, rules);
    IdsBelowNext(w.organisms, w.nextOrganismId);
    ghost var cells := w.cells;
    course := Live(w, rules, rng, tick, globalTick, s);
    SameGroundSame(old(w.cells), cells);
    SameGroundThrough(old(w.cells), cells, w.cells);
    SameGroundRifts(w.rifts, cells, w.cells);
    Conclude(w, s, rules);
  }

  lemma IdsBelowNext(os: seq<Organism>, next: nat)
    requires Ascending(os, next)
    ensures forall i :: 0 <= i < |os| ==> os[i].id < next
  {
  }

  lemma SamePersonId(os: seq<Organism>, os': seq<Organism>)
    requires |os| == |os'| && forall i :: 0 <= i < |os| ==> SamePerson(os[i], os'[i]) && os'[i].cell == os[i].cell
    ensures forall i :: 0 <= i < |os| ==> os'[i].id == os[i].id
  {
  }

  lemma StandsInRange(cells: seq<Cell>, os: seq<Organism>)
    requires forall i :: 0 <= i < |os| ==> Stands(cells, os[i])
    ensures forall i :: 0 <= i < |os| ==> os[i].cell < |cells|
  {
  }
}
