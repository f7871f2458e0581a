/** The state of a tick, core/src/sim.rs:625-784: the world, the working memory beside it, and what they
    keep together while organisms move, die and are born. */
module TickState {
  import opened Genomes
  import opened Grid
  import opened Herd
  import opened Threats
  import opened WorldState

  class Scratch {
    var occ: seq<nat>
    var members: seq<Slots>
    var hunter: seq<Hunter>
    var prey: seq<Prey>
    var threat: seq<TopTwo>
    var queue: seq<Turn>
    var alive: seq<bool>
    var spent: seq<int>
    var aliveCount: nat
    var effectPct: seq<nat>
    var biome: seq<Biome>
    var moveCost: seq<int>

    constructor ()
      ensures fresh(this)
    {
      occ, members, hunter, prey, threat, queue := [], [], [], [], [], [];
      alive, spent, aliveCount, effectPct, biome, moveCost := [], [], 0, [], [], [];
    }

    ghost function Ix(): Index
      reads `occ, `members
    {
      Index(occ, members)
    }

    /** Every list emptied and every organism alive. */
    method Reset(cells: nat, organisms: nat)
      modifies this`occ, this`members, this`hunter, this`prey, this`queue, this`alive, this`spent, this`aliveCount
      ensures |occ| == |members| == |hunter| == |prey| == cells && |alive| == |spent| == aliveCount == organisms
      ensures (forall c :: 0 <= c < cells ==> occ[c] == 0 && members[c] == [EMPTY, EMPTY, EMPTY, EMPTY])
      ensures (forall c :: 0 <= c < cells ==> hunter[c] == NOBODY && prey[c] == NoPrey)
      ensures (forall i :: 0 <= i < organisms ==> alive[i] && spent[i] == 0)
      ensures queue == []
    {
      occ := seq(cells, _ => 0);
      members := seq(cells, _ => [EMPTY, EMPTY, EMPTY, EMPTY]);
      hunter := seq(cells, _ => NOBODY);
      prey := seq(cells, _ => NoPrey);
      queue := [];
      alive := seq(organisms, _ => true);
      spent := seq(organisms, _ => 0);
      aliveCount := organisms;
    }

    method Add(cell: nat, index: nat)
      requires Shaped(Ix(), |occ|) && cell < |occ| && occ[cell] < 4
      modifies this`occ, this`members
      ensures Ix() == Entered(old(Ix()), cell, index) && occ == old(occ)[cell := old(occ)[cell] + 1]
    {
      members := members[cell := members[cell][occ[cell] := index]];
      occ := occ[cell := occ[cell] + 1];
    }

    method Remove(cell: nat, index: nat)
      requires Shaped(Ix(), |occ|) && cell < |occ| && index in Listed(Ix(), cell)
      modifies this`occ, this`members
      ensures Ix() == Left(old(Ix()), cell, index)
      ensures old(occ)[cell] > 0 && occ == old(occ)[cell := old(occ)[cell] - 1]
    {
      var n, slots := occ[cell], members[cell];
      var pos := 0;
      while slots[pos] != index
        invariant pos < n && slots[..n] == Listed(Ix(), cell)
        invariant index in slots[pos..n] && Position(slots[..n], index) == Position(slots[pos..n], index) + pos
        decreases n - pos
      {
        assert slots[pos..n][1..] == slots[pos + 1..n];
        pos := pos + 1;
      }
      members := members[cell := slots[..pos] + slots[pos + 1..n] + [EMPTY] + slots[n..]];
      occ := occ[cell := n - 1];
    }
  }

  /** A turn in the queue: its key, and the id and place of the organism whose turn it is. */
  datatype Turn = Turn(key: nat, id: nat, place: nat)

  /** The weakest organism of a cell: its defense there and its clade. */
  datatype Prey = NoPrey | Prey(defense: int, clade: nat)

  // ---- What a tick keeps ----

  /** How a cell acts: as itself, or as shallows while a flood covers it. */
  predicate ActsAs(acting: Biome, own: Biome) {
    acting == own || (acting == Shallows && Floods(own))
  }

  predicate HerdFine(rules: Ruleset, cells: seq<Cell>, os: seq<Organism>, next: nat) {
    && Ascending(os, next)
    && (forall i :: 0 <= i < |os| ==> Stands(cells, os[i]))
    && (forall i :: 0 <= i < |os| ==> IsValid(os[i].genome, rules.traitBudget))
    && (forall i :: 0 <= i < |os| ==> os[i].energy <= rules.energyMax)
  }

  predicate ClanFine(id: nat, c: Clade, next: nat) {
    c.id == id < next && c.living <= c.peakLiving
  }

  ghost predicate ClansFine(os: seq<Organism>, alive: seq<bool>, clades: map<nat, Clade>, next: nat)
    requires |os| == |alive|
  {
    && (forall id :: id in clades ==> ClanFine(id, clades[id], next))
    && (forall id :: id in clades ==> clades[id].living == Count(os, alive, OfClade(id)))
    && (forall i :: 0 <= i < |os| && alive[i] ==> os[i].cladeId in clades)
  }

  predicate CellsFine(rules: Ruleset, cells: seq<Cell>) {
    |rules.biomes| == BIOMES && |cells| == Cells(rules.size)
    && forall c :: 0 <= c < |cells| ==> CellFine(rules, cells[c])
  }

  predicate ActingFine(cells: seq<Cell>, biome: seq<Biome>, moveCost: seq<int>) {
    && |biome| == |moveCost| == |cells|
    && (forall c :: 0 <= c < |cells| ==> ActsAs(biome[c], cells[c].biome))
    && (forall c :: 0 <= c < |cells| ==> moveCost[c] >= 0)
  }

  predicate SpentFine(spent: seq<int>, n: nat) {
    |spent| == n && forall i :: 0 <= i < n ==> spent[i] >= 0
  }

  ghost predicate TablesFine(hunter: seq<Hunter>, threat: seq<TopTwo>, prey: seq<Prey>, size: Size) {
    && |hunter| == |threat| == |prey| == Cells(size)
    && (forall n :: 0 <= n < |hunter| ==> hunter[n].power >= NO_POWER)
    && (forall c :: 0 <= c < |threat| ==> Answers(threat[c], Area(hunter, size, c, 9)))
  }

  /** The world and the index agree, all the way through a tick. */
  ghost predicate Ticking(w: World, s: Scratch, rules: Ruleset)
    reads w, s`occ, s`members, s`hunter, s`prey, s`threat, s`alive, s`spent, s`aliveCount, s`biome, s`moveCost
  {
    && Sound(rules) && rules.maxPerCell <= 4 && w.size == rules.size && CellsFine(rules, w.cells)
    && |w.organisms| == |s.alive|
    && HerdFine(rules, w.cells, w.organisms, w.nextOrganismId)
    && Crowd(s.Ix(), |w.cells|, rules.maxPerCell, w.organisms, s.alive)
    && ClansFine(w.organisms, s.alive, w.clades, w.nextCladeId)
    && s.aliveCount == Count(w.organisms, s.alive, Anyone) <= rules.maxOrganisms
    && SpentFine(s.spent, |w.organisms|)
    && ActingFine(w.cells, s.biome, s.moveCost)
    && TablesFine(s.hunter, s.threat, s.prey, rules.size)
  }

  /** Whoever is alive has energy. */
  ghost predicate AllFed(os: seq<Organism>, alive: seq<bool>)
    requires |os| == |alive|
  {
    forall i :: 0 <= i < |os| && alive[i] ==> os[i].energy > 0
  }

  // ---- Clades ----

  function Fewer(clades: map<nat, Clade>, id: nat): map<nat, Clade>
    requires id in clades
  {
    clades[id := clades[id].(living := if clades[id].living > 0 then clades[id].living - 1 else 0)]
  }

  lemma DeathKeepsClans(os: seq<Organism>, alive: seq<bool>, clades: map<nat, Clade>, next: nat, i: nat)
    requires |os| == |alive| && i < |os| && alive[i] && ClansFine(os, alive, clades, next)
    ensures os[i].cladeId in clades && clades[os[i].cladeId].living > 0
    ensures ClansFine(os, alive[i := false], Fewer(clades, os[i].cladeId), next)
  {
    CountSome(os, alive, i, OfClade(os[i].cladeId));
    forall id | id in clades
      ensures Fewer(clades, os[i].cladeId)[id].living == Count(os, alive[i := false], OfClade(id))
    {
      CountWithout(os, alive, i, OfClade(id));
    }
  }

  /** Clades depend on the membership of the living alone. */
  lemma SameClansKeepClans(os: seq<Organism>, os': seq<Organism>, alive: seq<bool>, clades: map<nat, Clade>, next: nat)
    requires |os| == |alive| == |os'| && ClansFine(os, alive, clades, next)
    requires forall i :: 0 <= i < |os| && alive[i] ==> os'[i].cladeId == os[i].cladeId
    ensures ClansFine(os', alive, clades, next)
  {
    forall id | id in clades
      ensures clades[id].living == Count(os', alive, OfClade(id))
    {
      CountSame(os, os', alive, OfClade(id));
    }
  }

  function More(clades: map<nat, Clade>, id: nat): map<nat, Clade>
    requires id in clades
  {
    var n := clades[id].living + 1;
    clades[id := clades[id].(living := n, peakLiving := if clades[id].peakLiving < n then n else clades[id].peakLiving)]
  }

  lemma BirthKeepsClans(os: seq<Organism>, alive: seq<bool>, clades: map<nat, Clade>, next: nat, o: Organism)
    requires |os| == |alive| && ClansFine(os, alive, clades, next)
    requires o.cladeId in clades
    ensures ClansFine(os + [o], alive + [true], More(clades, o.cladeId), next)
  {
    var clades' := More(clades, o.cladeId);
    forall id | id in clades'
      ensures clades'[id].living == Count(os + [o], alive + [true], OfClade(id))
    {
      CountPush(os, alive, o, true, OfClade(id));
    }
  }

  /** A new clade, still without members. */
  lemma FoundingKeepsClans(os: seq<Organism>, alive: seq<bool>, clades: map<nat, Clade>, next: nat, c: Clade)
    requires |os| == |alive| && ClansFine(os, alive, clades, next)
    requires c.id == next && c.living == 0
    ensures next !in clades && ClansFine(os, alive, clades[next := c], next + 1)
  {
    assert next in clades ==> ClanFine(next, clades[next], next);
    forall i | 0 <= i < |os| && alive[i]
      ensures os[i].cladeId != next
    {
      assert ClanFine(os[i].cladeId, clades[os[i].cladeId], next);
    }
    CountNone(os, alive, OfClade(next));
  }
}
