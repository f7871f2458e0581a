/** An epoch, core/src/sim.rs:84-150: its boundary, its ticks, and whole runs of epochs. */
module Epochs {
  import opened Acts
  import opened Climates
  import opened Cohesion
  import opened Environment
  import opened Events
  import opened Genomes
  import opened Grid
  import opened Hashing
  import opened Herd
  import opened Kinship
  import opened Miracles
  import opened Offerings
  import opened Options
  import opened Plagues
  import opened Randomness
  import opened Revivals
  import opened Rifting
  import opened Steadiness
  import opened Ticks
  import opened TickState
  import opened WorldState

  // ---- What lets an epoch keep the invariants ----

  /** A world between steps: what miracles see, and what revivals do. */
  datatype Outlook = Outlook(s: Situation, revivals: seq<nat>, ended: bool)

  function OutlookOf(w: World): Outlook
    reads w
  {
    Outlook(SituationOf(w), w.revivals, w.ended)
  }

  /** A natural revival may still come. */
  predicate Reseeds(rules: Ruleset, o: Outlook) {
    !o.ended && o.s.sporeBank != [] && rules.revival.perGenome != 0 && rules.revival.below != 0
  }

  /** What a revival that may come needs: valid spores, ids above zero, and a cooldown or no revival in this
      epoch yet. */
  predicate Reseedable(rules: Ruleset, o: Outlook) {
    && o.s.nextOrganismId > 0 && SporesValid(rules, o.s.sporeBank)
    && (rules.revival.cooldownEpochs > 0 || Past(o.revivals, o.s.epoch))
  }

  /** Of the states that check_invariants accepts, those whose epochs are accepted again: effects have time
      left, and whatever can come back is valid, as far as the rules let anything come back. */
  predicate Viable(rules: Ruleset, o: Outlook) {
    Lasting(o.s.effects) && Fertile(rules, o.s) && (Reseeds(rules, o) ==> Reseedable(rules, o))
  }

  /** What holds between epochs. */
  ghost predicate Ready(w: World, rules: Ruleset)
    reads w
  {
    Steady(w, rules) && Viable(rules, OutlookOf(w))
  }

  lemma StillViable(rules: Ruleset, a: Outlook, b: Outlook)
    requires Viable(rules, a) && Lasting(b.s.effects) && (a.ended ==> b.ended)
    requires b.s.sporeBank == a.s.sporeBank && b.s.nextOrganismId >= a.s.nextOrganismId
    requires StockValid(rules, a.s.clades, a.s.museum) ==> StockValid(rules, b.s.clades, b.s.museum)
    requires Past(a.revivals, a.s.epoch) ==> Past(b.revivals, b.s.epoch)
    ensures Viable(rules, b)
  {
    hide StockValid, SporesValid, Past, Lasting;
  }

  /** In such a state a revival holds: the last one was in an earlier epoch, and all it places is valid. */
  lemma ViableRevivalHolds(w: World, rules: Ruleset, groups: seq<seq<Organism>>)
    requires Viable(rules, OutlookOf(w)) && NeedsRevival(w, rules)
    ensures RevivalHolds(rules, w.sporeBank, w.revivals, w.epoch, w.nextOrganismId, groups)
  {
    hide IsValid, StockValid, Lasting;
  }

  /** The next epoch's beginning, as far as this one has come. */
  function Tomorrow(o: Outlook): Outlook {
    o.(s := o.s.(epoch := o.s.epoch + 1))
  }

  /** After a natural revival that holds, the next epoch is viable. */
  lemma RevivedViable(rules: Ruleset, a: Outlook, b: Outlook, revived: bool, groups: seq<seq<Organism>>)
    requires Viable(rules, a) && b.s.epoch == a.s.epoch && b.s.effects == a.s.effects && b.s.museum == a.s.museum
    requires b.s.sporeBank == a.s.sporeBank && b.s.nextOrganismId >= a.s.nextOrganismId && (a.ended ==> b.ended)
    requires if revived then b.revivals == a.revivals + [a.s.epoch]
      && RevivalHolds(rules, a.s.sporeBank, a.revivals, a.s.epoch, a.s.nextOrganismId, groups)
      else b.revivals == a.revivals && b.s.clades == a.s.clades
    requires ReferencesValid(rules, a.s.clades) && Sustainable(rules, a.s.sporeBank, a.s.nextOrganismId, groups) ==>
      ReferencesValid(rules, b.s.clades)
    ensures Viable(rules, Tomorrow(b))
  {
    hide ReferencesValid, MuseumValid, SporesValid, Lasting, Sustainable;
    StillViable(rules, a, Tomorrow(b));
  }

  // ---- Who comes from whom over an epoch ----

  /** Someone who stands where another stood, and is the same. */
  predicate StillThere(p: Organism, o: Organism) {
    p.id == o.id && p.parentId == o.parentId && p.lineageId == o.lineageId && p.cell == o.cell
  }

  ghost predicate HasStayed(os: seq<Organism>, o: Organism) {
    exists i :: 0 <= i < |os| && StillThere(os[i], o)
  }

  lemma StayersSucceed(size: Size, cells: seq<Cell>, os: seq<Organism>, next: nat, os': seq<Organism>)
    requires AllStand(cells, os) && AllStayed(os, os') && Ascending(os, next)
    ensures Succeeds(size, Ground(cells), os, next, os', next, false)
    ensures forall j :: 0 <= j < |os'| ==> os'[j].id < next
  {
    hide Linked;
    forall j | 0 <= j < |os'|
      ensures Continues(size, Ground(cells), os, os'[j]) && os'[j].id < next
    {
      assert HasStayed(os, os'[j]);
      var i :| 0 <= i < |os| && StillThere(os[i], os'[j]);
      assert Stands(cells, os[i]);
      LinkedHere(size, Ground(cells), os[i].cell);
      assert Stays(size, Ground(cells), os[i], os'[j]);
    }
  }

  /** Survivors of nature, then foundlings. */
  lemma FoundingsSucceed(size: Size, cells: seq<Cell>, first: seq<Organism>, next: nat, os: seq<Organism>,
      os': seq<Organism>, next': nat)
    requires Succeeds(size, Ground(cells), first, next, os, next, false) && forall j :: 0 <= j < |os| ==> os[j].id < next
    requires OnlyFoundlings(cells, next, os, os', next')
    ensures Succeeds(size, Ground(cells), first, next, os', next', false)
  {
    hide Continues;
    var placed := os'[|os|..];
    forall j | 0 <= j < |os'|
      ensures if os'[j].id < next then Continues(size, Ground(cells), first, os'[j]) else Founded(Ground(cells), os'[j])
    {
      if j < |os| {
        assert os'[j] == os'[..|os|][j] == os[j];
      } else {
        assert os'[j] == placed[j - |os|];
      }
    }
    forall id: nat | next <= id < next'
      ensures HasId(os', id)
    {
      assert os'[|os| + id - next] == placed[id - next];
    }
  }

  // ---- Isolation ----

  /** Every rift cell is deep water by its schedule. */
  predicate AllDeep(rifts: seq<Rift>, cells: seq<Cell>) {
    forall k :: 0 <= k < |rifts| ==> rifts[k].cell < |cells| && cells[rifts[k].cell].rift == Deep
  }

  /** Past the last deep epoch, a map that has caught up with its schedule has nothing left to sink. */
  lemma DeepAtLast(rifts: seq<Rift>, cells: seq<Cell>, epoch: nat)
    requires CaughtUp(rifts, cells, epoch) && forall k :: 0 <= k < |rifts| ==> epoch >= rifts[k].deepEpoch
    ensures AllDeep(rifts, cells)
  {
  }

  /** Every passable cell next to a cell of another plate lies on a rift. */
  ghost predicate OnPlan(size: Size, ground: seq<Biome>, plates: seq<nat>, rifts: seq<Rift>) {
    |plates| == |ground| && forall a, b :: (0 <= a < |ground| && 0 <= b < |ground| && Chebyshev(size, a, b) <= 1
      && ground[a] != DeepWater && plates[a] != plates[b]) ==> OnRift(rifts, a)
  }

  /** Once every rift cell is deep, no step leads from one plate to another. */
  lemma DeepRiftsIsolate(size: Size, genesis: seq<Biome>, plates: seq<nat>, rifts: seq<Rift>, cells: seq<Cell>)
    requires OnPlan(size, genesis, plates, rifts) && Lowered(genesis, Ground(cells))
    requires DeepIsWater(cells) && AllDeep(rifts, cells)
    ensures Isolated(size, Ground(cells), plates)
  {
    hide Chebyshev, OnRift;
    var ground := Ground(cells);
    RiftsAreWater(rifts, cells);
    forall a, b | 0 <= a < |ground| && 0 <= b < |ground| && Chebyshev(size, a, b) <= 1
        && ground[a] != DeepWater && ground[b] != DeepWater
      ensures plates[a] == plates[b]
    {
      assert genesis[a] != DeepWater;
    }
  }

  lemma RiftsAreWater(rifts: seq<Rift>, cells: seq<Cell>)
    requires DeepIsWater(cells) && AllDeep(rifts, cells)
    ensures forall a: nat :: OnRift(rifts, a) ==> a < |cells| && cells[a].biome == DeepWater
  {
  }

  // ---- The course of an epoch ----

  /** The rifts have moved along, and whoever stood on what sank was carried to land or drowned. */
  ghost predicate RiftsMoved(rules: Ruleset, rifts: seq<Rift>, a: Outlook, b: Outlook, moved: seq<Organism>, alive: seq<bool>,
      left: map<nat, Clade>)
  {
    && ShiftedUpTo(rifts, a.s.epoch, a.s.cells, b.s.cells, |rifts|)
    && CarriedUpTo(rules, b.s.cells, a.s.organisms, moved, alive, |a.s.organisms|)
    && |moved| == |alive| && b.s.organisms == Retained(moved, alive)
    && Culled(rules, a.s.clades, a.s.museum, a.s.epoch, a.s.nextCladeId, left, moved, alive, b.s.clades, b.s.museum)
    && b == a.(s := a.s.(cells := b.s.cells, organisms := b.s.organisms, clades := b.s.clades, museum := b.s.museum))
  }

  lemma RiftsHaveMoved(rules: Ruleset, rifts: seq<Rift>, a: Outlook, b: Outlook, moved: seq<Organism>, alive: seq<bool>,
      left: map<nat, Clade>)
    requires Culled(rules, a.s.clades, a.s.museum, a.s.epoch, a.s.nextCladeId, left, moved, alive, b.s.clades, b.s.museum)
    requires ShiftedUpTo(rifts, a.s.epoch, a.s.cells, b.s.cells, |rifts|) && b.s.organisms == Retained(moved, alive)
    requires CarriedUpTo(rules, b.s.cells, a.s.organisms, moved, alive, |a.s.organisms|)
    requires b == a.(s := a.s.(cells := b.s.cells, organisms := b.s.organisms, clades := b.s.clades, museum := b.s.museum))
    ensures RiftsMoved(rules, rifts, a, b, moved, alive, left)
  {
    hide ShiftedUpTo, CarriedUpTo, Retained;
  }

  /** The natural events of a boundary, and the states between them. */
  datatype Natural = Natural(flood: Option<Effect>, fire: Option<Effect>, drought: Option<Effect>, burnt: Outlook, mid: Outlook,
    struck: Option<Outbreak>, dead: seq<nat>, left: map<nat, Clade>)

  /** Spring may flood, summer may burn and then dry out, and the rest of the year does neither. */
  ghost predicate SeasonPlayed(rules: Ruleset, rng: Rng, a: Outlook, n: Natural) {
    && Validated(rules)
    && var season := Season(rules, a.s.epoch * rules.ticksPerEpoch);
    && (season == 0 ==>
          FloodCame(rules, rng, a.s.epoch, a.s.cells, a.s.effects, n.mid.s.cells, n.mid.s.effects, n.flood)
          && n.mid == a.(s := a.s.(cells := n.mid.s.cells, effects := n.mid.s.effects)))
    && (season == 1 ==>
          && FireCame(rules, rng, a.s.epoch, a.s.cells, a.s.effects, a.s.organisms, n.burnt.s.cells, n.burnt.s.effects,
               n.burnt.s.organisms, n.fire)
          && n.burnt == a.(s := a.s.(cells := n.burnt.s.cells, effects := n.burnt.s.effects, organisms := n.burnt.s.organisms))
          && DroughtCame(rules, rng, a.s.epoch, n.burnt.s.cells, n.burnt.s.effects, n.mid.s.cells, n.mid.s.effects, n.drought)
          && n.mid == n.burnt.(s := n.burnt.s.(cells := n.mid.s.cells, effects := n.mid.s.effects)))
    && (season != 0 && season != 1 ==> n.mid == a)
  }

  /** The season's events, and then perhaps a plague. */
  ghost predicate NaturePlayed(rules: Ruleset, rng: Rng, a: Outlook, b: Outlook, n: Natural) {
    && SeasonPlayed(rules, rng, a, n)
    && PlagueCame(rules, rng, n.mid.s.epoch, n.mid.s.nextCladeId, n.mid.s.cells, n.mid.s.organisms, n.mid.s.clades,
         n.mid.s.museum, b.s.cells, b.s.organisms, b.s.clades, b.s.museum, n.struck, n.dead, n.left)
    && b == n.mid.(s := n.mid.s.(cells := b.s.cells, organisms := b.s.organisms, clades := b.s.clades, museum := b.s.museum))
  }

  lemma NatureIsPlayed(rules: Ruleset, rng: Rng, a: Outlook, b: Outlook, n: Natural)
    requires SeasonPlayed(rules, rng, a, n)
    requires PlagueCame(rules, rng, n.mid.s.epoch, n.mid.s.nextCladeId, n.mid.s.cells, n.mid.s.organisms, n.mid.s.clades,
      n.mid.s.museum, b.s.cells, b.s.organisms, b.s.clades, b.s.museum, n.struck, n.dead, n.left)
    requires b == n.mid.(s := n.mid.s.(cells := b.s.cells, organisms := b.s.organisms, clades := b.s.clades, museum := b.s.museum))
    ensures NaturePlayed(rules, rng, a, b, n)
  {
    hide SeasonPlayed, PlagueCame;
  }

  /** The miracles have been worked in order of kind, each by what its demands decide in its turn. */
  ghost predicate Blessed(rules: Ruleset, miracles: seq<Miracle>, a: Outlook, b: Outlook, out: Outcomes, order: seq<nat>,
      states: seq<Situation>)
  {
    && multiset(order) == multiset(UpTo(|miracles|))
    && (forall i, j :: 0 <= i < j < |order| ==> Before(miracles, order[i], order[j]))
    && (forall j :: 0 <= j < |order| ==> order[j] < |miracles|)
    && rules.ticksPerEpoch > 0 && |states| == |miracles| + 1 == |order| + 1
    && Trace(rules, miracles, order, states) && Reported(rules, miracles, order, states, |miracles|, out)
    && states[0] == a.s.(cooldowns := StillRunning(a.s.cooldowns, a.s.epoch)) && b == a.(s := states[|miracles|])
  }

  lemma IsBlessed(rules: Ruleset, miracles: seq<Miracle>, a: Outlook, b: Outlook, out: Outcomes, order: seq<nat>,
      states: seq<Situation>)
    requires multiset(order) == multiset(UpTo(|miracles|)) && |states| == |miracles| + 1 == |order| + 1
    requires forall i, j :: 0 <= i < j < |order| ==> Before(miracles, order[i], order[j])
    requires forall j :: 0 <= j < |order| ==> order[j] < |miracles|
    requires rules.ticksPerEpoch > 0 && Trace(rules, miracles, order, states)
    requires Reported(rules, miracles, order, states, |miracles|, out)
    requires states[0] == a.s.(cooldowns := StillRunning(a.s.cooldowns, a.s.epoch)) && b == a.(s := states[|miracles|])
    ensures Blessed(rules, miracles, a, b, out, order, states)
  {
    hide Trace, Reported, Before, StillRunning;
  }

  /** The spore bank has come to the rescue, exactly when it was needed. */
  ghost predicate Rescued(rules: Ruleset, rng: Rng, a: Outlook, b: Outlook, groups: seq<seq<Organism>>, folks: seq<Folk>) {
    var needed := !a.ended && a.s.sporeBank != [] && rules.revival.perGenome > 0 && |a.s.organisms| < rules.revival.below
      && (a.revivals == [] || a.s.epoch >= a.revivals[|a.revivals| - 1] + rules.revival.cooldownEpochs);
    && Reseeded(rules, rng, a.s.cells, a.s.epoch, a.s.sporeBank, groups, folks)
    && folks[0] == Folk(a.s.organisms, a.s.nextOrganismId, a.s.clades, a.s.nextCladeId)
    && folks[|groups|] == Folk(b.s.organisms, b.s.nextOrganismId, b.s.clades, b.s.nextCladeId)
    && |groups| == (if needed then |a.s.sporeBank| else 0)
    && b.revivals == a.revivals + (if needed then [a.s.epoch] else [])
    && (b.ended <==> a.ended || (needed && SeasonOver(rules, b.revivals, a.s.epoch)))
    && b.s == a.s.(organisms := b.s.organisms, nextOrganismId := b.s.nextOrganismId, clades := b.s.clades,
         nextCladeId := b.s.nextCladeId)
  }

  /** Everything that happens in an epoch: what the rifts, nature, the naturalists and the spore bank did, and the ticks. */
  datatype Chronicle = Chronicle(moved: seq<Organism>, alive: seq<bool>, left: map<nat, Clade>, sunk: Outlook, natural: Natural,
    wild: Outlook, order: seq<nat>, states: seq<Situation>, blessed: Outlook, groups: seq<seq<Organism>>, folks: seq<Folk>,
    begun: Outlook, snapshots: seq<Snapshot>, courses: seq<Course>)

  /** The boundary: rifts, natural events, miracles, natural revival, in this order. */
  ghost predicate BoundaryTaken(rules: Ruleset, rng: Rng, miracles: seq<Miracle>, rifts: seq<Rift>, a: Outlook, out: Outcomes,
      c: Chronicle)
  {
    && RiftsMoved(rules, rifts, a, c.sunk, c.moved, c.alive, c.left) && NaturePlayed(rules, rng, c.sunk, c.wild, c.natural)
    && WillDone(rules, rng, miracles, c.wild, c.begun, out, c)
  }

  ghost predicate WillDone(rules: Ruleset, rng: Rng, miracles: seq<Miracle>, a: Outlook, b: Outlook, out: Outcomes, c: Chronicle) {
    Blessed(rules, miracles, a, c.blessed, out, c.order, c.states) && Rescued(rules, rng, c.blessed, b, c.groups, c.folks)
  }

  lemma BoundaryIsTaken(rules: Ruleset, rng: Rng, miracles: seq<Miracle>, rifts: seq<Rift>, a: Outlook, b: Outlook, out: Outcomes,
      c: Chronicle, c': Chronicle)
    requires RiftsMoved(rules, rifts, a, c'.sunk, c'.moved, c'.alive, c'.left)
    requires NaturePlayed(rules, rng, c'.sunk, c'.wild, c'.natural) && WillDone(rules, rng, miracles, c'.wild, b, out, c)
    requires c' == c.(sunk := c'.sunk, moved := c'.moved, alive := c'.alive, left := c'.left, wild := c'.wild,
      natural := c'.natural, begun := b)
    ensures BoundaryTaken(rules, rng, miracles, rifts, a, out, c')
  {
    hide RiftsMoved, NaturePlayed, Blessed, Rescued;
  }

  /** The ticks of an epoch, one after the other. */
  ghost predicate TicksTaken(rules: Ruleset, rng: Rng, epoch: nat, snapshots: seq<Snapshot>, courses: seq<Course>) {
    && |snapshots| == |courses| + 1 && |courses| <= rules.ticksPerEpoch
    && (forall t :: 0 <= t < |courses| ==>
          TickTaken(rules, rng, t, epoch * rules.ticksPerEpoch + t, epoch, snapshots[t], snapshots[t + 1], courses[t]))
  }

  lemma NoTicks(rules: Ruleset, rng: Rng, epoch: nat, a: Snapshot)
    ensures TicksTaken(rules, rng, epoch, [a], [])
  {
    hide TickTaken;
  }

  lemma TicksTakenNext(rules: Ruleset, rng: Rng, epoch: nat, snapshots: seq<Snapshot>, courses: seq<Course>, tick: u32,
      b: Snapshot, c: Course)
    requires TicksTaken(rules, rng, epoch, snapshots, courses) && tick == |courses| < rules.ticksPerEpoch
    requires TickTaken(rules, rng, tick, epoch * rules.ticksPerEpoch + tick, epoch, snapshots[tick], b, c)
    ensures TicksTaken(rules, rng, epoch, snapshots + [b], courses + [c])
  {
    hide TickTaken;
  }

  lemma SnapshotsAgree(w: World)
    ensures SnapshotIn(OutlookOf(w)) == SnapshotOf(w)
  {
  }

  function SnapshotIn(o: Outlook): Snapshot {
    Snapshot(o.s.cells, o.s.effects, o.s.organisms, o.s.clades, o.s.museum, o.s.nextOrganismId, o.s.nextCladeId)
  }

  /** The world once ticks have left it as they did and the epoch has turned. */
  function AfterTicks(o: Outlook, s: Snapshot): Outlook {
    Outlook(Situation(o.s.epoch + 1, s.cells, s.effects, s.organisms, s.clades, s.museum, o.s.sporeBank, o.s.cooldowns,
      s.nextOrganismId, s.nextCladeId), o.revivals, o.ended)
  }

  /** An epoch has taken its course: its boundary, all its ticks, and the turn of its number. */
  ghost predicate EpochTaken(rules: Ruleset, rng: Rng, miracles: seq<Miracle>, rifts: seq<Rift>, a: Outlook, b: Outlook,
      out: Outcomes, c: Chronicle)
  {
    && |c.snapshots| == rules.ticksPerEpoch + 1 && |c.courses| == rules.ticksPerEpoch
    && c.snapshots[0] == SnapshotIn(c.begun) && b == AfterTicks(c.begun, c.snapshots[rules.ticksPerEpoch])
    && BoundaryTaken(rules, rng, miracles, rifts, a, out, c)
    && TicksTaken(rules, rng, c.begun.s.epoch, c.snapshots, c.courses)
  }

  lemma EpochIsTaken(rules: Ruleset, rng: Rng, miracles: seq<Miracle>, rifts: seq<Rift>, a: Outlook, b: Outlook, out: Outcomes,
      c: Chronicle, snapshots: seq<Snapshot>, courses: seq<Course>)
    requires |snapshots| == rules.ticksPerEpoch + 1 && |courses| == rules.ticksPerEpoch
    requires snapshots[0] == SnapshotIn(c.begun) && b == AfterTicks(c.begun, snapshots[rules.ticksPerEpoch])
    requires BoundaryTaken(rules, rng, miracles, rifts, a, out, c)
    requires TicksTaken(rules, rng, c.begun.s.epoch, snapshots, courses)
    ensures EpochTaken(rules, rng, miracles, rifts, a, b, out, c.(snapshots := snapshots, courses := courses))
  {
    hide RiftsMoved, NaturePlayed, Blessed, Rescued, TicksTaken, SnapshotIn, AfterTicks;
  }

  /** What an epoch is given: its randomness and the miracles selected for it. */
  datatype Input = Input(rng: Rng, miracles: seq<Miracle>)

  /** A run has taken its course, epoch by epoch. */
  ghost predicate RunTaken(rules: Ruleset, inputs: seq<Input>, rifts: seq<Rift>, outlooks: seq<Outlook>, outs: seq<Outcomes>,
      chronicles: seq<Chronicle>)
  {
    && |outlooks| - 1 == |outs| == |chronicles| <= |inputs|
    && (forall k :: 0 <= k < |outs| ==> EpochTaken(rules, inputs[k].rng, inputs[k].miracles, rifts, outlooks[k],
          outlooks[k + 1], outs[k], chronicles[k]))
  }

  lemma NothingRun(rules: Ruleset, inputs: seq<Input>, rifts: seq<Rift>, a: Outlook)
    ensures RunTaken(rules, inputs, rifts, [a], [], [])
  {
    hide EpochTaken;
  }

  lemma RunTakenNext(rules: Ruleset, inputs: seq<Input>, rifts: seq<Rift>, outlooks: seq<Outlook>, outs: seq<Outcomes>,
      chronicles: seq<Chronicle>, b: Outlook, out: Outcomes, c: Chronicle)
    requires |outs| < |inputs| && |outlooks| == |outs| + 1
    requires RunTaken(rules, inputs, rifts, outlooks, outs, chronicles)
    requires EpochTaken(rules, inputs[|outs|].rng, inputs[|outs|].miracles, rifts, outlooks[|outs|], b, out, c)
    ensures RunTaken(rules, inputs, rifts, outlooks + [b], outs + [out], chronicles + [c])
  {
    hide EpochTaken;
  }

  // ---- The boundary ----

  /** Spring brings floods, summer fires and droughts; a plague can come at any time. Nobody moves. */
  method NaturalEvents(w: World, rules: Ruleset, rng: Rng) returns (ghost n: Natural)
    requires Steady(w, rules)
    modifies w`cells, w`effects, w`organisms, w`clades, w`museum
    ensures Steady(w, rules) && SameGround(old(w.cells), w.cells) && AllStayed(old(w.organisms), w.organisms)
    ensures old(Lasting(w.effects)) ==> Lasting(w.effects)
    ensures old(Cohesive(rules, w.organisms, w.clades)) ==> Cohesive(rules, w.organisms, w.clades)
    ensures old(StockValid(rules, w.clades, w.museum)) ==> StockValid(rules, w.clades, w.museum)
    ensures NaturePlayed(rules, rng, old(OutlookOf(w)), OutlookOf(w), n)
  {
    hide Steady, CanFlood, CanDry, CanBurn, Happens, Events.Struck, SingedBy, Aftermath, BreaksOut, SameGround, AllStayed,
      AllStand, People, RiftsFine, CellsFine, Lasting, Validated, Cohesive, StockValid, Victims, FloodCame, FireCame, DroughtCame,
      PlagueCame, NaturePlayed, Season;
    SteadyIsPeopleOnGround(w, rules);
    ghost var cells, os := w.cells, w.organisms;
    PeopledRules(w, rules);
    var season := Season(rules, w.epoch * rules.ticksPerEpoch);
    SameGroundItself(cells);
    SingedNobody(os);
    ghost var first := OutlookOf(w);
    n := Natural(None, None, None, first, first, None, [], map[]);
    if season == 0 {
      var flood := Events.Flood(w, rules, rng);
      FloodLasts(rules, rng, w.epoch, cells, first.s.effects, w.cells, w.effects, flood);
      n := n.(flood := flood, mid := OutlookOf(w));
    } else if season == 1 {
      n := Summer(w, rules, rng, n);
    }
    ghost var mid, midOs := w.cells, w.organisms;
    ghost var struck, dead, ill := Plague(w, rules, rng);
    SameGroundThrough(cells, mid, w.cells);
    SpareStay(rules, rng, w.epoch, w.nextCladeId, n.mid, OutlookOf(w), struck, dead, ill);
    StayThrough(os, midOs, w.organisms);
    n := n.(struck := struck, dead := dead, left := ill);
    NatureIsPlayed(rules, rng, first, OutlookOf(w), n);
  }

  lemma FloodLasts(rules: Ruleset, rng: Rng, epoch: nat, cells: seq<Cell>, effects: seq<Effect>, cells': seq<Cell>,
      effects': seq<Effect>, flood: Option<Effect>)
    requires FloodCame(rules, rng, epoch, cells, effects, cells', effects', flood)
    ensures Lasting(effects) ==> Lasting(effects')
  {
    hide Happens, Floodable, DrawnFrom, Events.Struck, Lasting;
    if flood.Some? {
      StruckLasts(rules, flood.value, Soak, cells, effects, cells', effects');
    }
  }

  lemma DroughtLasts(rules: Ruleset, rng: Rng, epoch: nat, cells: seq<Cell>, effects: seq<Effect>, cells': seq<Cell>,
      effects': seq<Effect>, drought: Option<Effect>)
    requires DroughtCame(rules, rng, epoch, cells, effects, cells', effects', drought)
    ensures Lasting(effects) ==> Lasting(effects')
  {
    hide Happens, Dryable, DrawnFrom, Events.Struck, Lasting;
    if drought.Some? {
      StruckLasts(rules, drought.value, Parch(rules.events.droughtMoistureDrop), cells, effects, cells', effects');
    }
  }

  /** A fire moves nobody and leaves everyone kin, and does not give an effect that has run out. */
  lemma FireSpares(rules: Ruleset, rng: Rng, epoch: nat, cells: seq<Cell>, effects: seq<Effect>, os: seq<Organism>,
      cells': seq<Cell>, effects': seq<Effect>, os': seq<Organism>, fire: Option<Effect>)
    requires FireCame(rules, rng, epoch, cells, effects, os, cells', effects', os', fire)
    ensures (Lasting(effects) ==> Lasting(effects')) && AllStayed(os, os') && SameKin(os, os')
  {
    hide Happens, Burnable, DrawnFrom, Events.Struck, Lasting, SingedBy, AllStayed, SameKin;
    SingedNobody(os);
    SameKinHere(os);
    if fire.Some? {
      StruckLasts(rules, fire.value, Burn, cells, effects, cells', effects');
      SingedStay(rules, fire.value, cells, os, os');
      SingedSameKin(rules, fire.value, cells, os, os');
    }
  }

  method Summer(w: World, rules: Ruleset, rng: Rng, ghost n: Natural) returns (ghost n': Natural)
    requires Steady(w, rules) && Validated(rules) && Season(rules, w.epoch * rules.ticksPerEpoch) == 1
    modifies w`cells, w`effects, w`organisms
    ensures Steady(w, rules) && SameGround(old(w.cells), w.cells) && AllStayed(old(w.organisms), w.organisms)
    ensures old(Lasting(w.effects)) ==> Lasting(w.effects)
    ensures old(Cohesive(rules, w.organisms, w.clades)) ==> Cohesive(rules, w.organisms, w.clades)
    ensures SeasonPlayed(rules, rng, old(OutlookOf(w)), n') && n'.mid == OutlookOf(w)
  {
    hide Steady, SameGround, AllStayed, Lasting, Cohesive, FireCame, DroughtCame, SameKin, Season, Validated;
    ghost var cells, os, effects := w.cells, w.organisms, w.effects;
    SameRefsHere(w.clades);
    var fire := Wildfire(w, rules, rng);
    FireSpares(rules, rng, w.epoch, cells, effects, os, w.cells, w.effects, w.organisms, fire);
    SameKinCohere(rules, os, w.clades, w.organisms, w.clades);
    ghost var burnt := OutlookOf(w);
    var drought := Events.Drought(w, rules, rng);
    DroughtLasts(rules, rng, w.epoch, burnt.s.cells, burnt.s.effects, w.cells, w.effects, drought);
    SameGroundThrough(cells, burnt.s.cells, w.cells);
    n' := n.(fire := fire, burnt := burnt, drought := drought, mid := OutlookOf(w));
  }

  /** Whoever is alive stands where it stood. */
  ghost predicate AllStayed(os: seq<Organism>, os': seq<Organism>) {
    forall j :: 0 <= j < |os'| ==> HasStayed(os, os'[j])
  }

  lemma SingedNobody(os: seq<Organism>)
    ensures AllStayed(os, os)
  {
    forall j | 0 <= j < |os|
      ensures HasStayed(os, os[j])
    {
      assert StillThere(os[j], os[j]);
    }
  }

  lemma SingedStay(rules: Ruleset, e: Effect, cells: seq<Cell>, os: seq<Organism>, os': seq<Organism>)
    requires SingedBy(rules, e, cells, os, os')
    ensures AllStayed(os, os')
  {
    hide Covers;
    forall j | 0 <= j < |os'|
      ensures HasStayed(os, os'[j])
    {
      assert StillThere(os[j], os'[j]);
    }
  }

  lemma SpareStay(rules: Ruleset, rng: Rng, epoch: nat, nextClade: nat, a: Outlook, b: Outlook, p: Option<Outbreak>,
      dead: seq<nat>, left: map<nat, Clade>)
    requires PlagueCame(rules, rng, epoch, nextClade, a.s.cells, a.s.organisms, a.s.clades, a.s.museum, b.s.cells,
      b.s.organisms, b.s.clades, b.s.museum, p, dead, left)
    ensures AllStayed(a.s.organisms, b.s.organisms)
  {
    hide Reached, Dies, Littered, Culled, Victims, BreaksOut;
    var os, os' := a.s.organisms, b.s.organisms;
    SingedNobody(os);
    if p.Some? {
      forall j | 0 <= j < |os'|
        ensures HasStayed(os, os'[j])
      {
        var i := RetainedFrom(os, Survivors(|os|, dead), j);
        assert StillThere(os[i], os'[j]);
      }
    }
  }

  lemma StayThrough(a: seq<Organism>, b: seq<Organism>, c: seq<Organism>)
    requires AllStayed(a, b) && AllStayed(b, c)
    ensures AllStayed(a, c)
  {
    forall j | 0 <= j < |c|
      ensures HasStayed(a, c[j])
    {
      assert HasStayed(b, c[j]);
      var k :| 0 <= k < |b| && StillThere(b[k], c[j]);
      assert HasStayed(a, b[k]);
      var i :| 0 <= i < |a| && StillThere(a[i], b[k]);
      assert StillThere(a[i], c[j]);
    }
  }

  predicate NoMigrations(miracles: seq<Miracle>) {
    forall i :: 0 <= i < |miracles| ==> !miracles[i].Migrate?
  }

  lemma SameGroundFacts(cells: seq<Cell>, cells': seq<Cell>, rifts: seq<Rift>, epoch: nat)
    requires SameGround(cells, cells')
    ensures Ground(cells) == Ground(cells')
    ensures DeepIsWater(cells) ==> DeepIsWater(cells')
    ensures CaughtUp(rifts, cells, epoch) ==> CaughtUp(rifts, cells', epoch)
    ensures AllDeep(rifts, cells) ==> AllDeep(rifts, cells')
  {
  }

  /** With every rift deep there is nothing left to sink and nobody to carry. */
  lemma NothingLeftToSink(rules: Ruleset, rifts: seq<Rift>, epoch: nat, before: seq<Cell>, cells: seq<Cell>,
      os: seq<Organism>, moved: seq<Organism>, alive: seq<bool>)
    requires ShiftedUpTo(rifts, epoch, before, cells, |rifts|) && AllDeep(rifts, before) && AllStand(before, os)
    requires CarriedUpTo(rules, cells, os, moved, alive, |os|)
    ensures cells == before && Retained(moved, alive) == os
  {
    hide PhaseAt, NearestFree, Occupied;
    forall c | 0 <= c < |cells|
      ensures cells[c] == before[c]
    {
      if k :| 0 <= k < |rifts| && rifts[k].cell == c {
        assert cells[c] == Shifted(before[c], PhaseAt(rifts[k], epoch));
      }
    }
    forall j | 0 <= j < |os|
      ensures moved[j] == os[j] && alive[j]
    {
      assert Carried(rules, cells, os, moved, alive, j) && Stands(before, os[j]);
    }
    assert moved == os;
    NobodyDropped(moved, alive);
  }

  /** The first part of the boundary, before anything that the naturalists or the spore bank do, from any state
      that check_invariants accepts. */
  method ByNature(w: World, rules: Ruleset, rng: Rng)
    returns (ghost moved: seq<Organism>, ghost alive: seq<bool>, ghost left: map<nat, Clade>, ghost sunk: Outlook,
      ghost n: Natural)
    requires Steady(w, rules)
    modifies w`cells, w`effects, w`organisms, w`clades, w`museum
    ensures Steady(w, rules) && CaughtUp(w.rifts, w.cells, w.epoch) && Lowered(Ground(old(w.cells)), Ground(w.cells))
    ensures old(DeepIsWater(w.cells)) ==> DeepIsWater(w.cells)
    ensures old(Lasting(w.effects)) ==> Lasting(w.effects)
    ensures old(Cohesive(rules, w.organisms, w.clades)) ==> Cohesive(rules, w.organisms, w.clades)
    ensures old(StockValid(rules, w.clades, w.museum)) ==> StockValid(rules, w.clades, w.museum)
    ensures AllDeep(w.rifts, old(w.cells)) ==> SameGround(old(w.cells), w.cells) && AllStayed(old(w.organisms), w.organisms)
    ensures RiftsMoved(rules, w.rifts, old(OutlookOf(w)), sunk, moved, alive, left)
    ensures NaturePlayed(rules, rng, sunk, OutlookOf(w), n)
  {
    hide Steady, DeepIsWater, CaughtUp, Lowered, AllDeep, SameGround, ShiftedUpTo, CarriedUpTo, Retained, AllStand,
      People, CellsFine, RiftsFine, Lasting, PhaseAt, Culled, AllStayed, Cohesive, StockValid,
      NaturePlayed, RiftsMoved;
    SteadyIsPeopleOnGround(w, rules);
    moved, alive, left := RiftChanges(w, rules);
    ghost var shifted := w.cells;
    sunk := OutlookOf(w);
    RiftsHaveMoved(rules, w.rifts, old(OutlookOf(w)), sunk, moved, alive, left);
    if AllDeep(w.rifts, old(w.cells)) {
      NothingLeftToSink(rules, w.rifts, w.epoch, old(w.cells), shifted, old(w.organisms), moved, alive);
    }
    n := NaturalEvents(w, rules, rng);
    SameGroundFacts(shifted, w.cells, w.rifts, w.epoch);
  }

  /** The miracles of a viable world: it is viable still. */
  method Bless(w: World, rules: Ruleset, miracles: seq<Miracle>)
    returns (out: Outcomes, ghost order: seq<nat>, ghost states: seq<Situation>)
    requires Ready(w, rules)
    modifies w`cells, w`effects, w`organisms, w`clades, w`nextOrganismId, w`nextCladeId, w`cooldowns, w`births
    ensures Ready(w, rules) && SameGround(old(w.cells), w.cells) && w.nextOrganismId >= old(w.nextOrganismId)
    ensures old(Cohesive(rules, w.organisms, w.clades)) ==> Cohesive(rules, w.organisms, w.clades)
    ensures NoMigrations(miracles) ==>
      OnlyFoundlings(old(w.cells), old(w.nextOrganismId), old(w.organisms), w.organisms, w.nextOrganismId)
    ensures NoMigrations(miracles) ==>
      |w.organisms| >= |old(w.organisms)| && w.births == Added(old(w.births), w.organisms[|old(w.organisms)|..])
    ensures Blessed(rules, miracles, old(OutlookOf(w)), OutlookOf(w), out, order, states)
  {
    hide Steady, SameGround, Trace, OutcomesOf, OnlyFoundlings, StillRunning, NoMigrations, Cohesive, Viable, Lasting, Fertile,
      Added, Blessed, Before, Reported;
    ghost var before := OutlookOf(w);
    ViableFertile(rules, before);
    out, order, states := Apply(w, rules, miracles);
    IsBlessed(rules, miracles, before, OutlookOf(w), out, order, states);
    TraceOnGround(rules, miracles, order, states, |miracles|);
    BlessedViable(rules, before, OutlookOf(w));
    if NoMigrations(miracles) {
      NobodyMigrates(miracles);
    }
  }

  /** The natural revival of a viable world: what it places is sustainable. */
  method BringBack(w: World, rules: Ruleset, rng: Rng) returns (ghost groups: seq<seq<Organism>>, ghost folks: seq<Folk>)
    requires Ready(w, rules)
    modifies w`organisms, w`nextOrganismId, w`clades, w`nextCladeId, w`revivals, w`ended, w`births
    ensures Steady(w, rules) && Viable(rules, Tomorrow(OutlookOf(w)))
    ensures old(Cohesive(rules, w.organisms, w.clades)) ==> Cohesive(rules, w.organisms, w.clades)
    ensures OnlyFoundlings(w.cells, old(w.nextOrganismId), old(w.organisms), w.organisms, w.nextOrganismId)
    ensures |w.organisms| >= |old(w.organisms)| && w.births == Added(old(w.births), w.organisms[|old(w.organisms)|..])
    ensures Rescued(rules, rng, old(OutlookOf(w)), OutlookOf(w), groups, folks)
  {
    hide Steady, AllStand, OnlyFoundlings, SeasonOver, Foundlings, Cohesive, InTurn, RevivalHolds, Viable, ReferencesValid,
      NeedsRevival, Sustainable, Added, Reseeded;
    ghost var blessed, needed := OutlookOf(w), NeedsRevival(w, rules);
    NeededExactly(w, rules);
    NeededOnce(w, rules);
    forall groups | needed
      ensures RevivalHolds(rules, w.sporeBank, w.revivals, w.epoch, w.nextOrganismId, groups)
    {
      ViableRevivalHolds(w, rules, groups);
    }
    ghost var revived, placed;
    revived, placed, groups, folks := NaturalRevival(w, rules, rng);
    RevivedViable(rules, blessed, OutlookOf(w), revived, groups);
    PlacedFoundlings(w.cells, blessed.s.nextOrganismId, blessed.s.organisms, placed);
    assert w.organisms[|blessed.s.organisms|..] == placed;
  }

  /** The miracles and the natural revival. */
  method ByWill(w: World, rules: Ruleset, rng: Rng, miracles: seq<Miracle>) returns (out: Outcomes, ghost c: Chronicle)
    requires Ready(w, rules)
    modifies w`cells, w`effects, w`organisms, w`clades, w`nextOrganismId, w`nextCladeId, w`cooldowns, w`revivals, w`ended,
      w`births
    ensures Steady(w, rules) && Viable(rules, Tomorrow(OutlookOf(w)))
    ensures SameGround(old(w.cells), w.cells) && w.nextOrganismId >= old(w.nextOrganismId)
    ensures old(Cohesive(rules, w.organisms, w.clades)) ==> Cohesive(rules, w.organisms, w.clades)
    ensures NoMigrations(miracles) ==>
      OnlyFoundlings(old(w.cells), old(w.nextOrganismId), old(w.organisms), w.organisms, w.nextOrganismId)
    ensures NoMigrations(miracles) ==>
      |w.organisms| >= |old(w.organisms)| && w.births == Added(old(w.births), w.organisms[|old(w.organisms)|..])
    ensures WillDone(rules, rng, miracles, old(OutlookOf(w)), OutlookOf(w), out, c)
  {
    hide Steady, SameGround, OnlyFoundlings, NoMigrations, Cohesive, Viable, Added, Blessed, Rescued;
    ghost var order, states;
    out, order, states := Bless(w, rules, miracles);
    ghost var os, next, blessed := w.organisms, w.nextOrganismId, OutlookOf(w);
    ghost var groups, folks := BringBack(w, rules, rng);
    c := Chronicle([], [], map[], blessed, Natural(None, None, None, blessed, blessed, None, [], map[]), blessed, order, states,
      blessed, groups, folks, blessed, [], []);
    FoundlingsOnly(w.cells, next, os, w.organisms, w.nextOrganismId);
    if NoMigrations(miracles) {
      FoundlingsThrough(old(w.cells), w.cells, old(w.organisms), old(w.nextOrganismId), os, next, w.organisms, w.nextOrganismId);
      FoundlingsBehind(w.cells, next, os, w.organisms, w.nextOrganismId, |old(w.organisms)|);
      AddedMore(old(w.births), os[|old(w.organisms)|..], w.organisms[|os|..]);
    }
  }

  lemma FoundlingsBehind(cells: seq<Cell>, next: nat, os: seq<Organism>, os': seq<Organism>, next': nat, n: nat)
    requires OnlyFoundlings(cells, next, os, os', next') && n <= |os|
    ensures |os| <= |os'| && os'[n..] == os[n..] + os'[|os|..]
  {
    hide Foundlings;
    assert os' == os + os'[|os|..];
  }

  lemma FoundlingsOnly(cells: seq<Cell>, next: nat, os: seq<Organism>, os': seq<Organism>, next': nat)
    requires OnlyFoundlings(cells, next, os, os', next')
    ensures next <= next'
  {
  }

  lemma ViableFertile(rules: Ruleset, o: Outlook)
    requires Viable(rules, o)
    ensures Fertile(rules, o.s) && Lasting(o.s.effects)
  {
  }

  lemma NeededExactly(w: World, rules: Ruleset)
    ensures NeedsRevival(w, rules) <==>
      (&& !w.ended && w.sporeBank != [] && rules.revival.perGenome > 0 && |w.organisms| < rules.revival.below
       && (w.revivals == [] || w.epoch >= w.revivals[|w.revivals| - 1] + rules.revival.cooldownEpochs))
  {
  }

  lemma NeededOnce(w: World, rules: Ruleset)
    ensures NeedsRevival(w, rules) ==> !w.ended
  {
  }

  lemma BlessedViable(rules: Ruleset, a: Outlook, b: Outlook)
    requires Viable(rules, a) && Lasting(b.s.effects) && Fertile(rules, b.s) && b.ended == a.ended
    requires b.s.sporeBank == a.s.sporeBank && b.s.nextOrganismId >= a.s.nextOrganismId
    requires b.revivals == a.revivals && b.s.epoch == a.s.epoch
    ensures Viable(rules, b)
  {
    hide Fertile, SporesValid, Past, Lasting;
  }

  lemma PlacedFoundlings(cells: seq<Cell>, next: nat, os: seq<Organism>, placed: seq<Organism>)
    requires Foundlings(cells, next, placed)
    ensures OnlyFoundlings(cells, next, os, os + placed, next + |placed|)
  {
    hide Foundlings;
    assert (os + placed)[|os|..] == placed;
  }

  lemma NobodyMigrates(miracles: seq<Miracle>)
    requires NoMigrations(miracles)
    ensures forall i :: 0 <= i < |miracles| ==> !miracles[i].Migrate?
  {
  }

  /** The epoch boundary. */
  method Boundary(w: World, rules: Ruleset, rng: Rng, miracles: seq<Miracle>)
    returns (out: Outcomes, ghost c: Chronicle)
    requires Ready(w, rules)
    modifies w`cells, w`effects, w`organisms, w`clades, w`museum, w`nextOrganismId, w`nextCladeId, w`cooldowns,
      w`revivals, w`ended, w`births
    ensures Steady(w, rules) && Viable(rules, Tomorrow(OutlookOf(w)))
    ensures CaughtUp(w.rifts, w.cells, w.epoch)
    ensures Lowered(Ground(old(w.cells)), Ground(w.cells)) && w.nextOrganismId >= old(w.nextOrganismId)
    ensures old(DeepIsWater(w.cells)) ==> DeepIsWater(w.cells)
    ensures old(Cohesive(rules, w.organisms, w.clades)) ==> Cohesive(rules, w.organisms, w.clades)
    ensures AllDeep(w.rifts, old(w.cells)) ==> SameGround(old(w.cells), w.cells)
    ensures AllDeep(w.rifts, old(w.cells)) && NoMigrations(miracles) ==>
      Succeeds(rules.size, Ground(old(w.cells)), old(w.organisms), old(w.nextOrganismId), w.organisms, w.nextOrganismId, false)
    ensures AllDeep(w.rifts, old(w.cells)) && NoMigrations(miracles) ==>
      Registers(old(w.births), w.births, w.organisms, old(w.nextOrganismId), w.nextOrganismId)
    ensures BoundaryTaken(rules, rng, miracles, w.rifts, old(OutlookOf(w)), out, c) && c.begun == OutlookOf(w)
  {
    hide Steady, DeepIsWater, CaughtUp, Lowered, AllDeep, SameGround, Succeeds, Viable, AllStand, AllStayed, OnlyFoundlings,
      NoMigrations, Cohesive, StockValid, Lasting, Ascending, Added, Registers, BoundaryTaken, WillDone, RiftsMoved, NaturePlayed;
    ghost var before := OutlookOf(w);
    SteadyStands(w, rules);
    ViableFertile(rules, before);
    ghost var moved, alive, left, sunk, n := ByNature(w, rules, rng);
    ghost var natural, os := w.cells, w.organisms;
    StillViable(rules, before, OutlookOf(w));
    ghost var wild := OutlookOf(w);
    out, c := ByWill(w, rules, rng, miracles);
    ghost var c' := c.(moved := moved, alive := alive, left := left, sunk := sunk, natural := n, wild := wild,
      begun := OutlookOf(w));
    BoundaryIsTaken(rules, rng, miracles, w.rifts, before, OutlookOf(w), out, c, c');
    c := c';
    SameGroundFacts(natural, w.cells, w.rifts, w.epoch);
    if AllDeep(w.rifts, old(w.cells)) {
      SameGroundThrough(old(w.cells), natural, w.cells);
      if NoMigrations(miracles) {
        StayersSucceed(rules.size, old(w.cells), old(w.organisms), old(w.nextOrganismId), os);
        SameGroundSame(old(w.cells), natural);
        FoundlingsRegister(natural, old(w.nextOrganismId), os, w.organisms, w.nextOrganismId, old(w.births));
        FoundingsSucceed(rules.size, natural, old(w.organisms), old(w.nextOrganismId), os, w.organisms, w.nextOrganismId);
      }
    }
  }

  lemma FoundlingsRegister(cells: seq<Cell>, next: nat, os: seq<Organism>, os': seq<Organism>, next': nat,
      births: map<nat, Birth>)
    requires OnlyFoundlings(cells, next, os, os', next') && forall j :: 0 <= j < |os| ==> os[j].id < next
    ensures |os| <= |os'| && Registers(births, Added(births, os'[|os|..]), os', next, next')
  {
    hide Added, Registers;
    var list := os'[|os|..];
    forall j | 0 <= j < |os|
      ensures os'[j].id < next
    {
      assert os'[j] == os'[..|os|][j] == os[j];
    }
    forall j | 0 <= j < |os'| && next <= os'[j].id < next + |list|
      ensures os'[j] == list[os'[j].id - next]
    {
      assert j >= |os|;
      assert os'[j] == list[j - |os|];
    }
    AddedRegisters(births, list, os', next);
  }

  lemma SteadyStands(w: World, rules: Ruleset)
    requires Steady(w, rules)
    ensures AllStand(w.cells, w.organisms) && Ascending(w.organisms, w.nextOrganismId) && w.size == rules.size
  {
    hide Tally, Ascending;
    forall i | 0 <= i < |w.organisms|
      ensures Stands(w.cells, w.organisms[i])
    {
      assert BodyFine(rules, w.cells, w.organisms[i]);
    }
  }

  // ---- Epochs and runs ----

  /** If the register told of everyone alive at a time and born since, it still does. */
  ghost predicate GoesOn(size: Size, ground: seq<Biome>, first: seq<Organism>, from: nat, births: map<nat, Birth>,
      os: seq<Organism>, next: nat, births': map<nat, Birth>, os': seq<Organism>, next': nat)
  {
    Recorded(size, ground, first, from, Since(first, from, births, next), os, next) ==>
      Recorded(size, ground, first, from, Since(first, from, births', next'), os', next')
  }

  lemma GoOn(size: Size, ground: seq<Biome>, first: seq<Organism>, from: nat, births: map<nat, Birth>, os: seq<Organism>,
      next: nat, births': map<nat, Birth>, os': seq<Organism>, next': nat, born: bool)
    requires Ascending(os, next) && Ascending(os', next') && Succeeds(size, ground, os, next, os', next', born)
    requires Registers(births, births', os', next, next')
    ensures GoesOn(size, ground, first, from, births, os, next, births', os', next')
  {
    hide Recorded, Ascending, Succeeds, Since, Registers;
    if Recorded(size, ground, first, from, Since(first, from, births, next), os, next) {
      Record(size, ground, first, from, births, os, next, births', os', next', born);
    }
  }

  lemma GoOnThrough(size: Size, ground: seq<Biome>, first: seq<Organism>, from: nat, births: map<nat, Birth>,
      os: seq<Organism>, next: nat, births': map<nat, Birth>, os': seq<Organism>, next': nat, births'': map<nat, Birth>,
      os'': seq<Organism>, next'': nat)
    requires GoesOn(size, ground, first, from, births, os, next, births', os', next')
    requires GoesOn(size, ground, first, from, births', os', next', births'', os'', next'')
    ensures GoesOn(size, ground, first, from, births, os, next, births'', os'', next'')
  {
    hide Recorded, Since;
  }

  lemma GoOnHere(size: Size, ground: seq<Biome>, first: seq<Organism>, from: nat, births: map<nat, Birth>,
      os: seq<Organism>, next: nat)
    ensures GoesOn(size, ground, first, from, births, os, next, births, os, next)
  {
    hide Recorded, Since;
  }

  /** The ticks of an epoch, and the register of births through them, from any time on. */
  method RunTicks(w: World, rules: Ruleset, rng: Rng, ghost first: seq<Organism>, ghost from: nat)
    returns (ghost snapshots: seq<Snapshot>, ghost courses: seq<Course>)
    requires Steady(w, rules) && Lasting(w.effects)
    modifies w`cells, w`effects, w`organisms, w`clades, w`museum, w`nextOrganismId, w`nextCladeId, w`births
    ensures Steady(w, rules) && SameGround(old(w.cells), w.cells) && w.nextOrganismId >= old(w.nextOrganismId)
    ensures Lasting(w.effects)
    ensures old(Cohesive(rules, w.organisms, w.clades)) ==> Cohesive(rules, w.organisms, w.clades)
    ensures old(StockValid(rules, w.clades, w.museum)) ==> StockValid(rules, w.clades, w.museum)
    ensures GoesOn(rules.size, Ground(old(w.cells)), first, from, old(w.births), old(w.organisms), old(w.nextOrganismId),
      w.births, w.organisms, w.nextOrganismId)
    ensures |snapshots| == rules.ticksPerEpoch + 1 && |courses| == rules.ticksPerEpoch
    ensures TicksTaken(rules, rng, w.epoch, snapshots, courses)
    ensures Tomorrow(OutlookOf(w)) == AfterTicks(old(OutlookOf(w)), SnapshotOf(w))
    ensures snapshots[0] == old(SnapshotOf(w)) && snapshots[rules.ticksPerEpoch] == SnapshotOf(w)
  {
    hide Steady, SameGround, Succeeds, GoesOn, Lasting, Cohesive, StockValid, Ascending, AllStand, Registers, TickTaken,
      TicksTaken;
    var s := new Scratch();
    snapshots, courses := [SnapshotOf(w)], [];
    NoTicks(rules, rng, w.epoch, SnapshotOf(w));
    SameGroundItself(w.cells);
    GoOnHere(rules.size, Ground(w.cells), first, from, w.births, w.organisms, w.nextOrganismId);
    for tick := 0 to rules.ticksPerEpoch
      invariant Steady(w, rules) && SameGround(old(w.cells), w.cells) && w.nextOrganismId >= old(w.nextOrganismId)
      invariant Lasting(w.effects)
      invariant old(Cohesive(rules, w.organisms, w.clades)) ==> Cohesive(rules, w.organisms, w.clades)
      invariant old(StockValid(rules, w.clades, w.museum)) ==> StockValid(rules, w.clades, w.museum)
      invariant GoesOn(rules.size, Ground(old(w.cells)), first, from, old(w.births), old(w.organisms), old(w.nextOrganismId),
        w.births, w.organisms, w.nextOrganismId)
      invariant TicksTaken(rules, rng, w.epoch, snapshots, courses) && |courses| == tick && |snapshots| == tick + 1
      invariant snapshots[0] == old(SnapshotOf(w)) && snapshots[tick] == SnapshotOf(w)
    {
      ghost var cells, os, next, births := w.cells, w.organisms, w.nextOrganismId, w.births;
      SteadyStands(w, rules);
      ghost var course;
      var panics;
      panics, course := RunTick(w, rules, rng, tick, s);
      TicksTakenNext(rules, rng, w.epoch, snapshots, courses, tick, SnapshotOf(w), course);
      snapshots, courses := snapshots + [SnapshotOf(w)], courses + [course];
      SteadyStands(w, rules);
      SameGroundSame(old(w.cells), cells);
      SameGroundThrough(old(w.cells), cells, w.cells);
      IdsGoUp(rules.size, Ground(cells), os, next, w.organisms, w.nextOrganismId, true);
      GoOn(rules.size, Ground(cells), first, from, births, os, next, w.births, w.organisms, w.nextOrganismId, true);
      GoOnThrough(rules.size, Ground(cells), first, from, old(w.births), old(w.organisms), old(w.nextOrganismId), births, os,
        next, w.births, w.organisms, w.nextOrganismId);
    }
  }

  lemma IdsGoUp(size: Size, ground: seq<Biome>, os: seq<Organism>, next: nat, os': seq<Organism>, next': nat, born: bool)
    requires Succeeds(size, ground, os, next, os', next', born)
    ensures next <= next'
  {
  }

  /** Runs one epoch of a viable world: it is accepted again and viable again. The rifts have caught up with
      their schedule and the ground has not risen; deep rifts that were water are water, and clades that held
      together hold together. Once every rift is deep the ground no longer changes, and without relocations the
      register of births goes on: everyone born is on it with a parent or as a foundling, and everyone alive
      has walked from where it was first seen. */
  method StepEpoch(w: World, rules: Ruleset, rng: Rng, miracles: seq<Miracle>, ghost first: seq<Organism>,
      ghost from: nat) returns (out: Outcomes, ghost c: Chronicle)
    requires Ready(w, rules)
    modifies w
    ensures Ready(w, rules) && w.epoch == old(w.epoch) + 1 && w.rifts == old(w.rifts)
    ensures CaughtUp(w.rifts, w.cells, old(w.epoch))
    ensures Lowered(Ground(old(w.cells)), Ground(w.cells)) && w.nextOrganismId >= old(w.nextOrganismId)
    ensures old(DeepIsWater(w.cells)) ==> DeepIsWater(w.cells)
    ensures old(Cohesive(rules, w.organisms, w.clades)) ==> Cohesive(rules, w.organisms, w.clades)
    ensures AllDeep(w.rifts, old(w.cells)) ==> SameGround(old(w.cells), w.cells)
    ensures AllDeep(w.rifts, old(w.cells)) && NoMigrations(miracles) ==>
      GoesOn(rules.size, Ground(old(w.cells)), first, from, old(w.births), old(w.organisms), old(w.nextOrganismId),
        w.births, w.organisms, w.nextOrganismId)
    ensures EpochTaken(rules, rng, miracles, w.rifts, old(OutlookOf(w)), OutlookOf(w), out, c)
  {
    hide Steady, DeepIsWater, CaughtUp, Lowered, AllDeep, SameGround, Succeeds, GoesOn, Viable, NoMigrations, Cohesive,
      Lasting, StockValid, Ascending, AllStand, Registers, BoundaryTaken, TicksTaken, EpochTaken,
      AfterTicks, SnapshotIn;
    SteadyStands(w, rules);
    out, c := Boundary(w, rules, rng, miracles);
    SteadyStands(w, rules);
    ghost var cells, os, next, births := w.cells, w.organisms, w.nextOrganismId, w.births;
    ghost var today := Tomorrow(OutlookOf(w));
    ViableFertile(rules, today);
    SnapshotsAgree(w);
    ghost var snapshots, courses := RunTicks(w, rules, rng, first, from);
    SameGroundFacts(cells, w.cells, w.rifts, w.epoch);
    StillViable(rules, today, Tomorrow(OutlookOf(w)));
    if AllDeep(w.rifts, old(w.cells)) {
      SameGroundThrough(old(w.cells), cells, w.cells);
      SameGroundSame(old(w.cells), cells);
      if NoMigrations(miracles) {
        GoOn(rules.size, Ground(cells), first, from, old(w.births), old(w.organisms), old(w.nextOrganismId), births, os, next,
          false);
        GoOnThrough(rules.size, Ground(cells), first, from, old(w.births), old(w.organisms), old(w.nextOrganismId), births, os,
          next, w.births, w.organisms, w.nextOrganismId);
      }
    }
    TurnEpoch(w, rules);
    EpochIsTaken(rules, rng, miracles, w.rifts, old(OutlookOf(w)), OutlookOf(w), out, c, snapshots, courses);
    c := c.(snapshots := snapshots, courses := courses);
  }

  /** Nothing that is kept depends on the number of the epoch. */
  method TurnEpoch(w: World, rules: Ruleset)
    requires Steady(w, rules)
    modifies w`epoch
    ensures Steady(w, rules) && w.epoch == old(w.epoch) + 1 && OutlookOf(w) == Tomorrow(old(OutlookOf(w)))
  {
    hide Steady, AllStand, People, CellsFine, RiftsFine;
    SteadyIsPeopleOnGround(w, rules);
    w.epoch := w.epoch + 1;
    SteadyIsPeopleOnGround(w, rules);
  }

  ghost predicate NeverMigrates(inputs: seq<Input>, k: nat)
    requires k <= |inputs|
  {
    forall j :: 0 <= j < k ==> NoMigrations(inputs[j].miracles)
  }

  /** Any number of epochs of a viable world: it stays accepted and viable throughout, and what an epoch keeps
      is kept. From the time every rift is deep the ground stays as it is, and without relocations there is a
      register of everyone alive at the beginning and everyone born since. */
  method Run(w: World, rules: Ruleset, inputs: seq<Input>)
    returns (ghost outlooks: seq<Outlook>, ghost outs: seq<Outcomes>, ghost chronicles: seq<Chronicle>)
    requires Ready(w, rules)
    modifies w
    ensures |outlooks| == |inputs| + 1 && outlooks[0] == old(OutlookOf(w)) && outlooks[|inputs|] == OutlookOf(w)
    ensures Ready(w, rules) && w.epoch == old(w.epoch) + |inputs| && w.rifts == old(w.rifts)
    ensures Lowered(Ground(old(w.cells)), Ground(w.cells)) && w.nextOrganismId >= old(w.nextOrganismId)
    ensures inputs != [] ==> CaughtUp(w.rifts, w.cells, w.epoch - 1)
    ensures old(DeepIsWater(w.cells)) ==> DeepIsWater(w.cells)
    ensures old(Cohesive(rules, w.organisms, w.clades)) ==> Cohesive(rules, w.organisms, w.clades)
    ensures AllDeep(w.rifts, old(w.cells)) ==> SameGround(old(w.cells), w.cells)
    ensures AllDeep(w.rifts, old(w.cells)) && NeverMigrates(inputs, |inputs|) ==>
      Recorded(rules.size, Ground(old(w.cells)), old(w.organisms), old(w.nextOrganismId),
        Since(old(w.organisms), old(w.nextOrganismId), w.births, w.nextOrganismId), w.organisms, w.nextOrganismId)
    ensures RunTaken(rules, inputs, w.rifts, outlooks, outs, chronicles)
  {
    hide Steady, DeepIsWater, CaughtUp, Lowered, AllDeep, SameGround, Recorded, Viable, NoMigrations, AllStand, Cohesive,
      Ascending, Since, EpochTaken, RunTaken;
    outlooks, outs, chronicles := [OutlookOf(w)], [], [];
    NothingRun(rules, inputs, w.rifts, OutlookOf(w));
    SteadyStands(w, rules);
    SameGroundItself(w.cells);
    LoweredByNothing(Ground(w.cells));
    StandersDry(w.cells, w.organisms);
    ghost var first, from := w.organisms, w.nextOrganismId;
    RecordFirst(rules.size, Ground(w.cells), first, from, w.births);
    for k := 0 to |inputs|
      invariant RunTaken(rules, inputs, w.rifts, outlooks, outs, chronicles) && |outs| == k && |outlooks| == k + 1
      invariant outlooks[0] == old(OutlookOf(w)) && outlooks[k] == OutlookOf(w)
      invariant Ready(w, rules) && w.epoch == old(w.epoch) + k && w.rifts == old(w.rifts)
      invariant Lowered(Ground(old(w.cells)), Ground(w.cells)) && w.nextOrganismId >= old(w.nextOrganismId)
      invariant k > 0 ==> CaughtUp(w.rifts, w.cells, w.epoch - 1)
      invariant old(DeepIsWater(w.cells)) ==> DeepIsWater(w.cells)
      invariant old(Cohesive(rules, w.organisms, w.clades)) ==> Cohesive(rules, w.organisms, w.clades)
      invariant AllDeep(w.rifts, old(w.cells)) ==> SameGround(old(w.cells), w.cells)
      invariant AllDeep(w.rifts, old(w.cells)) && NeverMigrates(inputs, k) ==>
        Recorded(rules.size, Ground(old(w.cells)), first, from, Since(first, from, w.births, w.nextOrganismId), w.organisms,
          w.nextOrganismId)
    {
      ghost var cells := w.cells;
      ghost var c;
      var out;
      out, c := StepEpoch(w, rules, inputs[k].rng, inputs[k].miracles, first, from);
      RunTakenNext(rules, inputs, w.rifts, outlooks, outs, chronicles, OutlookOf(w), out, c);
      outlooks, outs, chronicles := outlooks + [OutlookOf(w)], outs + [out], chronicles + [c];
      LoweredThrough(Ground(old(w.cells)), Ground(cells), Ground(w.cells));
      if AllDeep(w.rifts, old(w.cells)) {
        SameGroundFacts(old(w.cells), cells, w.rifts, w.epoch);
        SameGroundThrough(old(w.cells), cells, w.cells);
      }
    }
  }

  lemma StandersDry(cells: seq<Cell>, os: seq<Organism>)
    requires AllStand(cells, os)
    ensures forall i :: 0 <= i < |os| ==> os[i].cell < |Ground(cells)| && Ground(cells)[os[i].cell] != DeepWater
  {
  }

  lemma LoweredByNothing(ground: seq<Biome>)
    ensures Lowered(ground, ground)
  {
  }

  lemma LoweredThrough(a: seq<Biome>, b: seq<Biome>, c: seq<Biome>)
    requires Lowered(a, b) && Lowered(b, c)
    ensures Lowered(a, c)
  {
  }
}
