/** New clades from stored genomes: the natural revival of core/src/sim.rs:501-586, and what the revival
    miracle shares with it. */
module Revivals {
  import opened Births
  import opened Cohesion
  import opened Events
  import opened Genomes
  import opened Grid
  import opened Herd
  import opened Kinship
  import opened Options
  import opened Randomness
  import opened Rifting
  import opened Steadiness
  import opened TickState
  import opened WorldState

  // ---- A clade founded from nothing ----

  /** An organism without parents, of a clade that founds itself. */
  function Sprout(rules: Ruleset, id: nat, lineage: nat, cladeId: nat, cell: nat, genome: Genome): Organism {
    Organism(id, 0, lineage, cladeId, cell, 0, rules.genesisEnergy, genome)
  }

  /** A row of sprouts with consecutive ids, on land. */
  ghost predicate Sprouted(rules: Ruleset, cells: seq<Cell>, placed: seq<Organism>, next: nat, lineage: nat, cladeId: nat,
      genome: Genome)
  {
    forall k :: 0 <= k < |placed| ==>
      (placed[k] == Sprout(rules, next + k, lineage, cladeId, placed[k].cell, genome)
       && placed[k].cell < |cells| && IsLand(cells[placed[k].cell].biome))
  }

  function NewClade(id: nat, parent: nat, reference: Genome, epoch: nat, living: nat): Clade {
    Clade(id, parent, 0, reference, epoch, living, living)
  }

  lemma {:induction false} TallyConcat(os: seq<Organism>, more: seq<Organism>, key: Key)
    ensures Tally(os + more, key) == Tally(os, key) + Tally(more, key)
  {
    if more == [] {
      assert os + more == os;
    } else {
      assert (os + more)[..|os + more| - 1] == os + more[..|more| - 1];
      TallyConcat(os, more[..|more| - 1], key);
    }
  }

  lemma {:induction false} TallyUniform(os: seq<Organism>, key: Key, all: bool)
    requires forall i :: 0 <= i < |os| ==> Matches(os[i], key) == all
    ensures Tally(os, key) == if all then |os| else 0
  {
    if os != [] {
      TallyUniform(os[..|os| - 1], key, all);
    }
  }

  /** A new clade counts its own, and no other clade notices. */
  lemma NewClans(rules: Ruleset, os: seq<Organism>, placed: seq<Organism>, next: nat, clades: map<nat, Clade>, c: Clade,
      clades': map<nat, Clade>)
    requires People(rules, os, next, clades, c.id) && placed != [] && c.living == c.peakLiving == |placed|
    requires forall k :: 0 <= k < |placed| ==> placed[k].cladeId == c.id
    requires clades' == clades[c.id := c]
    ensures c.id !in clades
    ensures forall id :: id in clades' ==> CladeFine(id, clades'[id], c.id + 1, os + placed)
  {
    hide Sound, IsValid, Tally, Ascending;
    assert c.id in clades ==> CladeFine(c.id, clades[c.id], c.id, os);
    forall i | 0 <= i < |os|
      ensures os[i].cladeId != c.id
    {
    }
    forall id | id in clades'
      ensures CladeFine(id, clades'[id], c.id + 1, os + placed)
    {
      TallyConcat(os, placed, OfClade(id));
      TallyUniform(placed, OfClade(id), id == c.id);
      if id == c.id {
        TallyUniform(os, OfClade(id), false);
      } else {
        assert CladeFine(id, clades[id], c.id, os);
      }
    }
  }

  lemma SproutsAscend(rules: Ruleset, cells: seq<Cell>, os: seq<Organism>, placed: seq<Organism>, next: nat, lineage: nat,
      cladeId: nat, genome: Genome)
    requires Ascending(os, next) && next > 0 && Sprouted(rules, cells, placed, next, lineage, cladeId, genome)
    ensures Ascending(os + placed, next + |placed|)
  {
  }

  /** A clade founded from a valid genome, with room for its members, joins a people. */
  lemma FoundingKeepsPeople(rules: Ruleset, cells: seq<Cell>, os: seq<Organism>, placed: seq<Organism>, next: nat,
      lineage: nat, clades: map<nat, Clade>, c: Clade)
    requires People(rules, os, next, clades, c.id) && placed != [] && next > 0
    requires c.living == c.peakLiving == |placed| && IsValid(c.reference, rules.traitBudget)
    requires Sprouted(rules, cells, placed, next, lineage, c.id, c.reference)
    requires |os| + |placed| <= rules.maxOrganisms
    requires forall k :: 0 <= k < Cells(rules.size) ==> Tally(os + placed, InCell(k)) <= rules.maxPerCell
    ensures People(rules, os + placed, next + |placed|, clades[c.id := c], c.id + 1)
  {
    hide IsValid, Tally, Ascending, CladeFine, Validated;
    SproutsAscend(rules, cells, os, placed, next, lineage, c.id, c.reference);
    NewClans(rules, os, placed, next, clades, c, clades[c.id := c]);
    GenesisEnergy(rules);
  }

  lemma GenesisEnergy(rules: Ruleset)
    requires Sound(rules)
    ensures 0 < rules.genesisEnergy <= rules.energyMax
  {
  }

  // ---- When a founding keeps the invariants ----

  /** A revival keeps the list of revivals ascending exactly when the last one was in an earlier epoch, and a
      cooldown of at least one epoch sees to that. */
  lemma RevivalOrder(revivals: seq<nat>, epoch: nat, cooldown: nat)
    requires Increasing(revivals) && (revivals == [] || epoch >= revivals[|revivals| - 1] + cooldown)
    ensures Increasing(revivals + [epoch]) <==> (revivals == [] || revivals[|revivals| - 1] < epoch)
    ensures cooldown > 0 ==> Increasing(revivals + [epoch])
  {
    var all := revivals + [epoch];
    if Increasing(all) && revivals != [] {
      assert all[|revivals| - 1] < all[|revivals|];
    }
  }

  /** A newborn keeps the ids ascending exactly when ids do not start from zero. */
  lemma IdOrder(os: seq<Organism>, next: nat, o: Organism)
    requires Ascending(os, next) && o.id == next
    ensures Ascending(os + [o], next + 1) <==> next > 0
  {
    if Ascending(os + [o], next + 1) {
      assert (os + [o])[|os|].id > 0;
    }
  }

  /** A founding keeps people exactly when nobody was placed, or the genome is valid and ids do not start from
      zero. */
  lemma FoundingExact(rules: Ruleset, cells: seq<Cell>, os: seq<Organism>, placed: seq<Organism>, next: nat, lineage: nat,
      clades: map<nat, Clade>, id: nat, parent: nat, genome: Genome, epoch: nat, occ: seq<nat>)
    requires People(rules, os, next, clades, id) && Sprouted(rules, cells, placed, next, lineage, id, genome)
    requires |os| + |placed| <= rules.maxOrganisms && Counted(occ, os + placed, Cells(rules.size)) && Roomy(rules, occ)
    ensures People(rules, os + placed, next + |placed|, WithNewClade(clades, id, parent, genome, epoch, |placed|),
        if placed == [] then id else id + 1)
      <==> (placed == [] || (IsValid(genome, rules.traitBudget) && next > 0))
  {
    hide People, Sprouted, IsValid, Tally;
    if placed == [] {
      assert os + placed == os;
    } else {
      var all, clades' := os + placed, WithNewClade(clades, id, parent, genome, epoch, |placed|);
      if IsValid(genome, rules.traitBudget) && next > 0 {
        FoundingKeepsPeople(rules, cells, os, placed, next, lineage, clades, NewClade(id, parent, genome, epoch, |placed|));
      }
      FirstSprout(rules, cells, placed, next, lineage, id, genome);
      assert all[|os|] == placed[0];
      if People(rules, all, next + |placed|, clades', id + 1) {
        PersonFacts(rules, all, next + |placed|, clades', id + 1, |os|);
      }
    }
  }

  lemma FirstSprout(rules: Ruleset, cells: seq<Cell>, placed: seq<Organism>, next: nat, lineage: nat, cladeId: nat,
      genome: Genome)
    requires Sprouted(rules, cells, placed, next, lineage, cladeId, genome) && placed != []
    ensures placed[0].id == next && placed[0].genome == genome
  {
  }

  lemma PersonFacts(rules: Ruleset, os: seq<Organism>, next: nat, clades: map<nat, Clade>, nextClade: nat, i: nat)
    requires People(rules, os, next, clades, nextClade) && i < |os|
    ensures os[i].id > 0 && IsValid(os[i].genome, rules.traitBudget)
  {
    hide Tally, CladeFine, Sound;
  }

  /** A founder is no step from its clade's reference: clades hold together as before. */
  lemma FoundingCoheres(rules: Ruleset, cells: seq<Cell>, os: seq<Organism>, placed: seq<Organism>, next: nat, lineage: nat,
      clades: map<nat, Clade>, id: nat, parent: nat, genome: Genome, epoch: nat)
    requires Sprouted(rules, cells, placed, next, lineage, id, genome) && id !in clades
    ensures Cohesive(rules, os, clades) ==>
      Cohesive(rules, os + placed, WithNewClade(clades, id, parent, genome, epoch, |placed|))
    ensures ReferencesValid(rules, clades) && (placed == [] || IsValid(genome, rules.traitBudget)) ==>
      ReferencesValid(rules, WithNewClade(clades, id, parent, genome, epoch, |placed|))
  {
    hide IsValid, Distance;
    FounderIsClose(rules, genome);
  }

  // ---- The natural revival ----

  /** Land with room, of a biome if one is asked for. */
  predicate Free(rules: Ruleset, cells: seq<Cell>, occ: seq<nat>, biome: Option<Biome>, c: nat) {
    FreeLand(rules, cells, occ, c) && (biome == None || cells[c].biome == biome.value)
  }

  lemma CountedNext(occ: seq<nat>, os: seq<Organism>, o: Organism)
    requires Counted(occ, os, |occ|) && o.cell < |occ|
    ensures Counted(occ[o.cell := occ[o.cell] + 1], os + [o], |occ|)
  {
    assert (os + [o])[..|os|] == os;
  }

  /** The sites left when the one picked has filled up. */
  function Remaining(sites: seq<nat>, pick: nat, full: bool): seq<nat>
    requires pick < |sites|
  {
    if full then sites[..pick] + sites[pick + 1..] else sites
  }

  /** The sites are exactly the free cells. */
  ghost predicate Offered(rules: Ruleset, cells: seq<Cell>, occ: seq<nat>, biome: Option<Biome>, sites: seq<nat>) {
    Increasing(sites) && forall c: nat :: c in sites <==> Free(rules, cells, occ, biome, c)
  }

  lemma OfferedNext(rules: Ruleset, cells: seq<Cell>, occ: seq<nat>, biome: Option<Biome>, sites: seq<nat>, pick: nat)
    requires Offered(rules, cells, occ, biome, sites) && pick < |sites| && sites[pick] < |occ|
    ensures Offered(rules, cells, occ[sites[pick] := occ[sites[pick]] + 1], biome,
      Remaining(sites, pick, occ[sites[pick]] + 1 >= rules.maxPerCell))
  {
    var cell := sites[pick];
    var occ' := occ[cell := occ[cell] + 1];
    var rest := Remaining(sites, pick, occ'[cell] >= rules.maxPerCell);
    assert cell in sites;
    StillIncreasing(sites, pick);
    forall c: nat
      ensures c in rest <==> Free(rules, cells, occ', biome, c)
    {
      if occ'[cell] >= rules.maxPerCell {
        Without(sites, pick, c);
      }
    }
  }

  lemma Without(sites: seq<nat>, pick: nat, c: nat)
    requires Increasing(sites) && pick < |sites|
    ensures c in sites[..pick] + sites[pick + 1..] <==> c in sites && c != sites[pick]
  {
    var rest := sites[..pick] + sites[pick + 1..];
    if c in sites && c != sites[pick] {
      var k :| 0 <= k < |sites| && sites[k] == c;
      assert rest[if k < pick then k else k - 1] == c;
    }
    if c in rest {
      var k :| 0 <= k < |rest| && rest[k] == c;
      assert sites[if k < pick then k else k + 1] == c;
    }
  }

  lemma StillIncreasing(sites: seq<nat>, pick: nat)
    requires Increasing(sites) && pick < |sites|
    ensures Increasing(sites[..pick] + sites[pick + 1..])
  {
  }

  /** Where a stored genome starts: in its own biome, or on any land when that has no room. */
  ghost predicate StartsIn(rules: Ruleset, cells: seq<Cell>, occ: seq<nat>, home: Biome, biome: Option<Biome>) {
    biome == if exists c: nat :: Free(rules, cells, occ, Some(home), c) then Some(home) else None
  }

  method FreeSites(w: World, rules: Ruleset, occ: seq<nat>, home: Biome) returns (sites: seq<nat>, biome: Option<Biome>)
    ensures Offered(rules, w.cells, occ, biome, sites) && StartsIn(rules, w.cells, occ, home, biome)
    ensures sites == [] <==> NoneFree(rules, w.cells, occ, None)
  {
    hide FreeLand;
    var cells := w.cells;
    biome := Some(home);
    sites := CellsWhere(|cells|, (c: nat) => Free(rules, cells, occ, Some(home), c));
    FreeInRange(rules, cells, occ);
    if sites == [] {
      assert forall c: nat :: Free(rules, cells, occ, Some(home), c) ==> c in sites;
      biome := None;
      sites := CellsWhere(|cells|, (c: nat) => Free(rules, cells, occ, None, c));
      if sites != [] {
        assert sites[0] in sites;
      } else {
        assert forall c: nat :: Free(rules, cells, occ, None, c) ==> c in sites;
      }
    } else {
      assert sites[0] in sites;
      assert Free(rules, cells, occ, None, sites[0]);
    }
  }

  lemma FreeInRange(rules: Ruleset, cells: seq<Cell>, occ: seq<nat>)
    ensures forall c: nat, b: Option<Biome> :: Free(rules, cells, occ, b, c) ==> c < |cells|
  {
  }

  /** Sprouts of one genome: how many there are, where they stand and why there are no more. */
  ghost predicate Germinated(rules: Ruleset, rng: Rng, cells: seq<Cell>, occ: seq<nat>, count: nat, home: Biome,
      before: seq<Organism>, placed: seq<Organism>, occ': seq<nat>)
  {
    && |placed| <= count
    && (exists biome :: StartsIn(rules, cells, occ, home, biome)
          && (forall k :: 0 <= k < |placed| ==> Matching(cells, biome, placed[k]))
          && (forall k :: 0 <= k < |placed| ==> DrawnSite(rules, rng, cells, before + placed[..k], biome, placed[k]))
          && (|placed| < count ==> |before| + |placed| >= rules.maxOrganisms || NoneFree(rules, cells, occ', biome)))
  }

  /** Its cell was drawn evenly among those with room, as these organisms stood. */
  ghost predicate DrawnSite(rules: Ruleset, rng: Rng, cells: seq<Cell>, os: seq<Organism>, biome: Option<Biome>, o: Organism) {
    exists occ, sites :: Counted(occ, os, |cells|) && IsDrawn(rules, rng, cells, occ, biome, sites, o)
  }

  ghost predicate IsDrawn(rules: Ruleset, rng: Rng, cells: seq<Cell>, occ: seq<nat>, biome: Option<Biome>, sites: seq<nat>,
      o: Organism)
  {
    Offered(rules, cells, occ, biome, sites) && sites != []
    && o.cell == sites[Below(rng, 0, RevivalSite, o.id % WORDS, |sites|)]
  }

  lemma DrawnNext(rules: Ruleset, rng: Rng, cells: seq<Cell>, occ: seq<nat>, biome: Option<Biome>, sites: seq<nat>,
      before: seq<Organism>, placed: seq<Organism>, o: Organism)
    requires Counted(occ, before + placed, |cells|) && Offered(rules, cells, occ, biome, sites) && sites != []
    requires o.cell == sites[Below(rng, 0, RevivalSite, o.id % WORDS, |sites|)]
    requires forall k :: 0 <= k < |placed| ==> DrawnSite(rules, rng, cells, before + placed[..k], biome, placed[k])
    ensures forall k :: 0 <= k < |placed| + 1 ==>
      DrawnSite(rules, rng, cells, before + (placed + [o])[..k], biome, (placed + [o])[k])
  {
    hide Counted, Offered;
    assert IsDrawn(rules, rng, cells, occ, biome, sites, o);
    assert DrawnSite(rules, rng, cells, before + placed, biome, o);
    hide DrawnSite;
    var all := placed + [o];
    forall k | 0 <= k < |all|
      ensures DrawnSite(rules, rng, cells, before + all[..k], biome, all[k])
    {
      assert all[..k] == placed[..k];
      if k == |placed| {
        assert all[..k] == placed;
      }
    }
  }

  predicate Matching(cells: seq<Cell>, biome: Option<Biome>, o: Organism) {
    o.cell < |cells| && (biome == None || cells[o.cell].biome == biome.value)
  }

  ghost predicate NoneFree(rules: Ruleset, cells: seq<Cell>, occ: seq<nat>, biome: Option<Biome>) {
    forall c: nat :: !Free(rules, cells, occ, biome, c)
  }

  lemma SproutedNext(rules: Ruleset, cells: seq<Cell>, placed: seq<Organism>, next: nat, lineage: nat, cladeId: nat,
      genome: Genome, cell: nat)
    requires Sprouted(rules, cells, placed, next, lineage, cladeId, genome)
    requires cell < |cells| && IsLand(cells[cell].biome)
    ensures Sprouted(rules, cells, placed + [Sprout(rules, next + |placed|, lineage, cladeId, cell, genome)], next, lineage,
      cladeId, genome)
  {
  }

  /** Room that is still free. */
  ghost predicate Roomy(rules: Ruleset, occ: seq<nat>) {
    forall c :: 0 <= c < |occ| ==> occ[c] <= rules.maxPerCell
  }

  /** One more sprout. */
  lemma PlacedNext(rules: Ruleset, cells: seq<Cell>, occ: seq<nat>, biome: Option<Biome>, sites: seq<nat>, pick: nat,
      os: seq<Organism>, o: Organism)
    requires Offered(rules, cells, occ, biome, sites) && pick < |sites| && Counted(occ, os, |cells|) && Roomy(rules, occ)
    requires o.cell == sites[pick]
    ensures o.cell < |cells| == |occ| && IsLand(cells[o.cell].biome) && Matching(cells, biome, o)
    ensures var occ' := occ[o.cell := occ[o.cell] + 1];
      && Counted(occ', os + [o], |cells|) && Roomy(rules, occ')
      && Offered(rules, cells, occ', biome, Remaining(sites, pick, occ'[o.cell] >= rules.maxPerCell))
  {
    hide Counted, Remaining, Offered;
    OfferedFree(rules, cells, occ, biome, sites, pick);
    OfferedNext(rules, cells, occ, biome, sites, pick);
    CountedLength(occ, os, |cells|);
    CountedNext(occ, os, o);
  }

  lemma CountedLength(occ: seq<nat>, os: seq<Organism>, cells: nat)
    requires Counted(occ, os, cells)
    ensures |occ| == cells
  {
  }

  lemma OfferedFree(rules: Ruleset, cells: seq<Cell>, occ: seq<nat>, biome: Option<Biome>, sites: seq<nat>, pick: nat)
    requires Offered(rules, cells, occ, biome, sites) && pick < |sites|
    ensures Free(rules, cells, occ, biome, sites[pick])
  {
    assert sites[pick] in sites;
  }

  lemma NothingOffered(rules: Ruleset, cells: seq<Cell>, occ: seq<nat>, biome: Option<Biome>)
    requires Offered(rules, cells, occ, biome, [])
    ensures NoneFree(rules, cells, occ, biome)
  {
    forall c: nat
      ensures !Free(rules, cells, occ, biome, c)
    {
      var none: seq<nat> := [];
      assert c !in none;
    }
  }

  /** Up to `count` sprouts of a genome, while there are sites and the world has room. */
  method PlaceSprouts(w: World, rules: Ruleset, rng: Rng, occ: seq<nat>, count: nat, home: Biome, lineage: nat, cladeId: nat,
      genome: Genome) returns (occ': seq<nat>, placed: seq<Organism>)
    requires Counted(occ, w.organisms, |w.cells|) && Roomy(rules, occ) && |w.organisms| <= rules.maxOrganisms
    modifies w`organisms, w`nextOrganismId, w`births
    ensures w.organisms == old(w.organisms) + placed && w.nextOrganismId == old(w.nextOrganismId) + |placed|
    ensures w.births == Added(old(w.births), placed)
    ensures Sprouted(rules, w.cells, placed, old(w.nextOrganismId), lineage, cladeId, genome)
    ensures Counted(occ', w.organisms, |w.cells|) && Roomy(rules, occ') && |w.organisms| <= rules.maxOrganisms
    ensures Germinated(rules, rng, w.cells, occ, count, home, old(w.organisms), placed, occ')
    ensures placed == [] <==> count == 0 || |old(w.organisms)| >= rules.maxOrganisms || NoneFree(rules, w.cells, occ, None)
  {
    hide Counted, Roomy, Offered, Sprouted, StartsIn, NoneFree, Remaining, Sprout, Matching, Added, BirthOf, Germinated, DrawnSite;
    AddedNone(w.births);
    var before, next, cells := w.organisms, w.nextOrganismId, w.cells;
    var sites, biome := FreeSites(w, rules, occ, home);
    occ', placed := occ, [];
    SproutedNone(rules, cells, next, lineage, cladeId, genome);
    assert before + [] == before;
    for n := 0 to count
      invariant w.organisms == before + placed && w.nextOrganismId == next + |placed| && |placed| == n
      invariant w.births == Added(old(w.births), placed)
      invariant Sprouted(rules, cells, placed, next, lineage, cladeId, genome) && |w.organisms| <= rules.maxOrganisms
      invariant Counted(occ', w.organisms, |cells|) && Roomy(rules, occ') && Offered(rules, cells, occ', biome, sites)
      invariant forall k :: 0 <= k < |placed| ==> Matching(cells, biome, placed[k])
      invariant forall k :: 0 <= k < |placed| ==> DrawnSite(rules, rng, cells, before + placed[..k], biome, placed[k])
      invariant n == 0 ==> (sites == [] <==> NoneFree(rules, cells, occ, None))
      invariant n > 0 ==> |before| < rules.maxOrganisms && !NoneFree(rules, cells, occ, None)
    {
      if sites == [] || |w.organisms| >= rules.maxOrganisms {
        if sites == [] {
          NothingOffered(rules, cells, occ', biome);
        }
        GerminatedIn(rules, rng, cells, occ, count, home, before, placed, occ', biome);
        return;
      }
      var id := w.nextOrganismId;
      var pick := Below(rng, 0, RevivalSite, id % WORDS, |sites|);
      var cell := sites[pick];
      var o := Sprout(rules, id, lineage, cladeId, cell, genome);
      SproutStands(rules, id, lineage, cladeId, cell, genome);
      PlacedNext(rules, cells, occ', biome, sites, pick, w.organisms, o);
      DrawnNext(rules, rng, cells, occ', biome, sites, before, placed, o);
      SproutedNext(rules, cells, placed, next, lineage, cladeId, genome, cell);
      occ' := occ'[cell := occ'[cell] + 1];
      sites := Remaining(sites, pick, occ'[cell] >= rules.maxPerCell);
      AddedOne(old(w.births), placed, o);
      Enlist(w, o);
      assert before + placed + [o] == before + (placed + [o]);
      placed := placed + [o];
    }
    GerminatedIn(rules, rng, cells, occ, count, home, before, placed, occ', biome);
  }

  /** Someone new is put on the list, and on the register. */
  method Enlist(w: World, o: Organism)
    requires o.id == w.nextOrganismId
    modifies w`organisms, w`nextOrganismId, w`births
    ensures w.organisms == old(w.organisms) + [o] && w.nextOrganismId == old(w.nextOrganismId) + 1
    ensures w.births == old(w.births)[o.id := BirthOf(o)]
  {
    w.nextOrganismId := o.id + 1;
    w.organisms := w.organisms + [o];
    w.births := w.births[o.id := BirthOf(o)];
  }

  lemma GerminatedIn(rules: Ruleset, rng: Rng, cells: seq<Cell>, occ: seq<nat>, count: nat, home: Biome,
      before: seq<Organism>, placed: seq<Organism>, occ': seq<nat>, biome: Option<Biome>)
    requires |placed| <= count && StartsIn(rules, cells, occ, home, biome)
    requires forall k :: 0 <= k < |placed| ==> Matching(cells, biome, placed[k])
    requires forall k :: 0 <= k < |placed| ==> DrawnSite(rules, rng, cells, before + placed[..k], biome, placed[k])
    requires |placed| < count ==> |before| + |placed| >= rules.maxOrganisms || NoneFree(rules, cells, occ', biome)
    ensures Germinated(rules, rng, cells, occ, count, home, before, placed, occ')
  {
    hide StartsIn, Matching, NoneFree, DrawnSite;
  }

  lemma SproutStands(rules: Ruleset, id: nat, lineage: nat, cladeId: nat, cell: nat, genome: Genome)
    ensures Sprout(rules, id, lineage, cladeId, cell, genome).cell == cell
    ensures Sprout(rules, id, lineage, cladeId, cell, genome).id == id
  {
  }

  /** Sprouts are of age zero, without parents, of one lineage, clade and genome, with the energy of a world's beginning. */
  lemma SproutsAreNew(rules: Ruleset, cells: seq<Cell>, placed: seq<Organism>, next: nat, lineage: nat, cladeId: nat,
      genome: Genome)
    requires Sprouted(rules, cells, placed, next, lineage, cladeId, genome)
    ensures forall o :: o in placed ==> o.age == o.parentId == 0 && o.energy == rules.genesisEnergy && o.genome == genome
    ensures forall o :: o in placed ==> o.lineageId == lineage && o.cladeId == cladeId && next <= o.id < next + |placed|
  {
  }

  /** A founding adds one clade, of as many members as were placed, in the likeness of its founder, or none. */
  lemma FoundsOneClade(clades: map<nat, Clade>, id: nat, parent: nat, genome: Genome, epoch: nat, living: nat)
    ensures var after := WithNewClade(clades, id, parent, genome, epoch, living);
      if living == 0 then after == clades
      else
        && after.Keys == clades.Keys + {id} && (forall other :: other in clades && other != id ==> after[other] == clades[other])
        && after[id] == Clade(id, parent, 0, genome, epoch, living, living)
  {
  }

  lemma SproutedNone(rules: Ruleset, cells: seq<Cell>, next: nat, lineage: nat, cladeId: nat, genome: Genome)
    ensures Sprouted(rules, cells, [], next, lineage, cladeId, genome)
  {
  }

  /** The clades after a founding that placed some members, or none. */
  function WithNewClade(clades: map<nat, Clade>, id: nat, parent: nat, genome: Genome, epoch: nat, living: nat): map<nat, Clade> {
    if living > 0 then clades[id := NewClade(id, parent, genome, epoch, living)] else clades
  }

  /** Sprouts that were placed found their clade. */
  method FoundClade(w: World, parent: nat, genome: Genome, placed: seq<Organism>)
    modifies w`clades, w`nextCladeId
    ensures w.clades == WithNewClade(old(w.clades), old(w.nextCladeId), parent, genome, w.epoch, |placed|)
    ensures w.nextCladeId == if placed == [] then old(w.nextCladeId) else old(w.nextCladeId) + 1
  {
    if placed != [] {
      var c := NewClade(w.nextCladeId, parent, genome, w.epoch, |placed|);
      w.clades := w.clades[c.id := c];
      w.nextCladeId := w.nextCladeId + 1;
    }
  }

  /** The organisms and clades of a world. */
  datatype Folk = Folk(os: seq<Organism>, next: nat, clades: map<nat, Clade>, nextClade: nat)

  function FolkOf(w: World): Folk
    reads w`organisms, w`nextOrganismId, w`clades, w`nextCladeId
  {
    Folk(w.organisms, w.nextOrganismId, w.clades, w.nextCladeId)
  }

  /** A genome of the spore bank has come back: its sprouts are numbered on and found a clade, if there are any. */
  ghost predicate Regrown(rules: Ruleset, rng: Rng, cells: seq<Cell>, epoch: nat, k: nat, spore: Founder, f: Folk, f': Folk,
      more: seq<Organism>)
  {
    && f'.os == f.os + more && f'.next == f.next + |more|
    && Sprouted(rules, cells, more, f.next, k + 1, f.nextClade, spore.genome)
    && (exists occ, occ' :: Counted(occ, f.os, |cells|) && Counted(occ', f'.os, |cells|)
          && Germinated(rules, rng, cells, occ, rules.revival.perGenome, spore.biome, f.os, more, occ'))
    && f'.clades == WithNewClade(f.clades, f.nextClade, 0, spore.genome, epoch, |more|)
    && f'.nextClade == if more == [] then f.nextClade else f.nextClade + 1
  }

  /** The whole spore bank has come back, genome by genome. */
  ghost predicate Reseeded(rules: Ruleset, rng: Rng, cells: seq<Cell>, epoch: nat, spores: seq<Founder>,
      groups: seq<seq<Organism>>, folks: seq<Folk>)
  {
    && |folks| == |groups| + 1 && |groups| <= |spores|
    && (forall k :: 0 <= k < |groups| ==> Regrown(rules, rng, cells, epoch, k, spores[k], folks[k], folks[k + 1], groups[k]))
  }

  lemma NothingReseeded(rules: Ruleset, rng: Rng, cells: seq<Cell>, epoch: nat, spores: seq<Founder>, f: Folk)
    ensures Reseeded(rules, rng, cells, epoch, spores, [], [f])
  {
  }

  lemma ReseededNext(rules: Ruleset, rng: Rng, cells: seq<Cell>, epoch: nat, spores: seq<Founder>, groups: seq<seq<Organism>>,
      folks: seq<Folk>, f': Folk, more: seq<Organism>)
    requires Reseeded(rules, rng, cells, epoch, spores, groups, folks) && |groups| < |spores|
    requires Regrown(rules, rng, cells, epoch, |groups|, spores[|groups|], folks[|groups|], f', more)
    ensures Reseeded(rules, rng, cells, epoch, spores, groups + [more], folks + [f'])
  {
    hide Regrown;
  }

  /** A genome of the spore bank comes back as a new clade, whatever it is. */
  method Germinate(w: World, rules: Ruleset, rng: Rng, occ: seq<nat>, k: nat, spore: Founder)
    returns (occ': seq<nat>, placed: seq<Organism>)
    requires Counted(occ, w.organisms, |w.cells|) && Roomy(rules, occ) && |w.organisms| <= rules.maxOrganisms
    modifies w`organisms, w`nextOrganismId, w`clades, w`nextCladeId, w`births
    ensures w.births == Added(old(w.births), placed)
    ensures Counted(occ', w.organisms, |w.cells|) && Roomy(rules, occ') && |w.organisms| <= rules.maxOrganisms
    ensures w.organisms == old(w.organisms) + placed && w.nextOrganismId == old(w.nextOrganismId) + |placed|
    ensures Sprouted(rules, w.cells, placed, old(w.nextOrganismId), k + 1, old(w.nextCladeId), spore.genome)
    ensures Germinated(rules, rng, w.cells, occ, rules.revival.perGenome, spore.biome, old(w.organisms), placed, occ')
    ensures placed == [] <==> rules.revival.perGenome == 0 || Full(rules, w.cells, old(w.organisms))
    ensures w.clades == WithNewClade(old(w.clades), old(w.nextCladeId), 0, spore.genome, w.epoch, |placed|)
    ensures w.nextCladeId == if placed == [] then old(w.nextCladeId) else old(w.nextCladeId) + 1
    ensures |w.cells| == Cells(rules.size) ==> Grew(rules, old(FolkOf(w)), FolkOf(w), placed, spore.genome)
    ensures Regrown(rules, rng, w.cells, w.epoch, k, spore, old(FolkOf(w)), FolkOf(w), placed)
  {
    hide People, Counted, Roomy, Sprouted, Germinated, IsValid, WithNewClade, NoneFree, Full, Added, Cohesive, ReferencesValid;
    FullMeansNone(rules, w.cells, occ, w.organisms);
    ghost var f := FolkOf(w);
    occ', placed := PlaceSprouts(w, rules, rng, occ, rules.revival.perGenome, spore.biome, k + 1, w.nextCladeId, spore.genome);
    FoundClade(w, 0, spore.genome, placed);
    if |w.cells| == Cells(rules.size) {
      GrowsExactly(rules, w.cells, f, FolkOf(w), placed, k + 1, spore.genome, w.epoch, occ');
    }
  }

  /** What a founding keeps: the people remain one exactly when nobody was placed, or the genome is valid and
      ids do not start from zero; clades hold together as before; references stay valid with a valid genome. */
  ghost predicate Grew(rules: Ruleset, f: Folk, f': Folk, placed: seq<Organism>, genome: Genome) {
    && (People(rules, f.os, f.next, f.clades, f.nextClade) ==>
          (People(rules, f'.os, f'.next, f'.clades, f'.nextClade)
           <==> (placed == [] || (IsValid(genome, rules.traitBudget) && f.next > 0))))
    && (Numbered(f.clades, f.nextClade) ==> Numbered(f'.clades, f'.nextClade))
    && (Numbered(f.clades, f.nextClade) && Cohesive(rules, f.os, f.clades) ==> Cohesive(rules, f'.os, f'.clades))
    && ((Numbered(f.clades, f.nextClade) && ReferencesValid(rules, f.clades)
         && (placed == [] || IsValid(genome, rules.traitBudget))) ==> ReferencesValid(rules, f'.clades))
  }

  lemma GrowsExactly(rules: Ruleset, cells: seq<Cell>, f: Folk, f': Folk, placed: seq<Organism>, lineage: nat,
      genome: Genome, epoch: nat, occ: seq<nat>)
    requires Sprouted(rules, cells, placed, f.next, lineage, f.nextClade, genome)
    requires f'.os == f.os + placed && f'.next == f.next + |placed|
    requires f'.clades == WithNewClade(f.clades, f.nextClade, 0, genome, epoch, |placed|)
    requires f'.nextClade == if placed == [] then f.nextClade else f.nextClade + 1
    requires |f'.os| <= rules.maxOrganisms && Counted(occ, f'.os, Cells(rules.size)) && Roomy(rules, occ)
    ensures Grew(rules, f, f', placed, genome)
  {
    hide People, Sprouted, IsValid, WithNewClade, Cohesive, ReferencesValid, Counted, Roomy, Numbered;
    NumberedNext(f.clades, f.nextClade, 0, genome, epoch, |placed|);
    if People(rules, f.os, f.next, f.clades, f.nextClade) {
      FoundingExact(rules, cells, f.os, placed, f.next, lineage, f.clades, f.nextClade, 0, genome, epoch, occ);
    }
    if Numbered(f.clades, f.nextClade) {
      FoundingCoheres(rules, cells, f.os, placed, f.next, lineage, f.clades, f.nextClade, 0, genome, epoch);
    }
  }

  /** Every clade has an id that has been given out. */
  predicate Numbered(clades: map<nat, Clade>, next: nat) {
    forall id :: id in clades ==> id < next
  }

  lemma NumberedNext(clades: map<nat, Clade>, id: nat, parent: nat, genome: Genome, epoch: nat, living: nat)
    ensures Numbered(clades, id) ==>
      id !in clades && Numbered(WithNewClade(clades, id, parent, genome, epoch, living), if living == 0 then id else id + 1)
  {
  }

  /** No more organisms fit: the world has its number, or no land has room. */
  ghost predicate Full(rules: Ruleset, cells: seq<Cell>, os: seq<Organism>) {
    |os| >= rules.maxOrganisms
    || forall c: nat :: c < |cells| && IsLand(cells[c].biome) ==> Tally(os, InCell(c)) >= rules.maxPerCell
  }

  lemma FullMeansNone(rules: Ruleset, cells: seq<Cell>, occ: seq<nat>, os: seq<Organism>)
    requires Counted(occ, os, |cells|)
    ensures Full(rules, cells, os) <==> |os| >= rules.maxOrganisms || NoneFree(rules, cells, occ, None)
  {
    hide Tally;
    if NoneFree(rules, cells, occ, None) {
      forall c: nat | c < |cells| && IsLand(cells[c].biome)
        ensures Tally(os, InCell(c)) >= rules.maxPerCell
      {
        assert !Free(rules, cells, occ, None, c);
      }
    }
  }

  /** Whether the spore bank comes to the rescue. */
  predicate NeedsRevival(w: World, rules: Ruleset)
    reads w`ended, w`sporeBank, w`organisms, w`revivals, w`epoch
  {
    && !w.ended && w.sporeBank != [] && rules.revival.perGenome != 0 && |w.organisms| < rules.revival.below
    && (w.revivals == [] || w.epoch >= w.revivals[|w.revivals| - 1] + rules.revival.cooldownEpochs)
  }

  function Recent(revivals: seq<nat>, epoch: nat, window: nat): nat {
    if revivals == [] then 0
    else
      var last := revivals[|revivals| - 1];
      Recent(revivals[..|revivals| - 1], epoch, window) + if last + window > epoch then 1 else 0
  }

  /** Too many revivals in too few days. */
  predicate SeasonOver(rules: Ruleset, revivals: seq<nat>, epoch: nat) {
    Recent(revivals, epoch, rules.revival.seasonEndDays * rules.epochsPerDay) >= rules.revival.seasonEndCount
  }

  /** The rescue fails to come exactly when the season is over, there is no spore bank, it places nobody, enough are alive, or
      the last revival is too near. */
  lemma NoRescueExactly(w: World, rules: Ruleset)
    ensures !NeedsRevival(w, rules) <==> (
      || w.ended || |w.sporeBank| == 0 || rules.revival.perGenome == 0 || rules.revival.below <= |w.organisms|
      || (|w.revivals| > 0 && w.epoch - w.revivals[|w.revivals| - 1] < rules.revival.cooldownEpochs))
  {
  }

  ghost function WithinDays(revivals: seq<nat>, epoch: nat, window: nat): set<nat> {
    set k: nat | k < |revivals| && epoch - revivals[k] < window
  }

  /** The season ends when as many revivals as it takes lie within its last days. */
  lemma SeasonOverExactly(rules: Ruleset, revivals: seq<nat>, epoch: nat)
    ensures SeasonOver(rules, revivals, epoch)
      <==> rules.revival.seasonEndCount <= |WithinDays(revivals, epoch, rules.epochsPerDay * rules.revival.seasonEndDays)|
  {
    RecentCounts(revivals, epoch, rules.epochsPerDay * rules.revival.seasonEndDays);
  }

  lemma {:induction false} RecentCounts(revivals: seq<nat>, epoch: nat, window: nat)
    ensures Recent(revivals, epoch, window) == |WithinDays(revivals, epoch, window)|
  {
    if revivals != [] {
      var n := |revivals| - 1;
      RecentCounts(revivals[..n], epoch, window);
      var before := WithinDays(revivals[..n], epoch, window);
      assert WithinDays(revivals, epoch, window) == before + if epoch - revivals[n] < window then {n} else {};
      assert n !in before;
    }
  }

  /** All revivals so far were in earlier epochs. */
  predicate Past(revivals: seq<nat>, epoch: nat) {
    forall k :: 0 <= k < |revivals| ==> revivals[k] < epoch
  }

  /** Organisms that came from nowhere: without parents, numbered on from `next`, on land. */
  predicate Foundlings(cells: seq<Cell>, next: nat, placed: seq<Organism>) {
    forall k :: 0 <= k < |placed| ==>
      placed[k].parentId == 0 && placed[k].id == next + k && placed[k].cell < |cells| && IsLand(cells[placed[k].cell].biome)
  }

  lemma SproutsAreFoundlings(rules: Ruleset, cells: seq<Cell>, placed: seq<Organism>, next: nat, lineage: nat, cladeId: nat,
      genome: Genome)
    requires Sprouted(rules, cells, placed, next, lineage, cladeId, genome)
    ensures Foundlings(cells, next, placed)
  {
  }

  lemma MoreFoundlings(cells: seq<Cell>, next: nat, a: seq<Organism>, b: seq<Organism>)
    requires Foundlings(cells, next, a) && Foundlings(cells, next + |a|, b)
    ensures Foundlings(cells, next, a + b)
  {
  }

  lemma FoundlingsStand(cells: seq<Cell>, os: seq<Organism>, next: nat, placed: seq<Organism>)
    requires AllStand(cells, os) && Foundlings(cells, next, placed)
    ensures AllStand(cells, os + placed)
  {
  }

  lemma RoomyAtFirst(w: World, rules: Ruleset, occ: seq<nat>)
    requires Peopled(w, rules) && CellsFine(rules, w.cells) && |occ| == |w.cells|
    requires forall c :: 0 <= c < |occ| ==> occ[c] == Tally(w.organisms, InCell(c))
    ensures |w.cells| == Cells(rules.size) && Counted(occ, w.organisms, |w.cells|) && Roomy(rules, occ)
    ensures |w.organisms| <= rules.maxOrganisms && Numbered(w.clades, w.nextCladeId)
    ensures People(rules, w.organisms, w.nextOrganismId, w.clades, w.nextCladeId)
  {
    hide Tally, Sound;
    forall id | id in w.clades
      ensures id < w.nextCladeId
    {
      assert CladeFine(id, w.clades[id], w.nextCladeId, w.organisms);
    }
  }

  /** The organisms of the first k groups. */
  function Together(groups: seq<seq<Organism>>, k: nat): seq<Organism>
    requires k <= |groups|
  {
    if k == 0 then [] else Together(groups, k - 1) + groups[k - 1]
  }

  lemma {:induction false} TogetherPrefix(groups: seq<seq<Organism>>, more: seq<Organism>, k: nat)
    requires k <= |groups|
    ensures Together(groups + [more], k) == Together(groups, k)
  {
    if k > 0 {
      TogetherPrefix(groups, more, k - 1);
    }
  }

  /** A genome of the spore bank places nobody exactly when the world is full at its turn. */
  ghost predicate InTurn(rules: Ruleset, cells: seq<Cell>, os: seq<Organism>, groups: seq<seq<Organism>>) {
    forall k :: 0 <= k < |groups| ==>
      (groups[k] == [] <==> rules.revival.perGenome == 0 || Full(rules, cells, os + Together(groups, k)))
  }

  lemma InTurnNext(rules: Ruleset, cells: seq<Cell>, os: seq<Organism>, groups: seq<seq<Organism>>, more: seq<Organism>)
    requires InTurn(rules, cells, os, groups)
    requires more == [] <==> rules.revival.perGenome == 0 || Full(rules, cells, os + Together(groups, |groups|))
    ensures InTurn(rules, cells, os, groups + [more])
    ensures Together(groups + [more], |groups| + 1) == Together(groups, |groups|) + more
  {
    hide Full;
    forall k | 0 <= k <= |groups|
      ensures Together(groups + [more], k) == Together(groups, k)
    {
      TogetherPrefix(groups, more, k);
    }
  }

  /** Whoever is placed has a valid genome, and an id above zero. */
  predicate Sustainable(rules: Ruleset, spores: seq<Founder>, next: nat, groups: seq<seq<Organism>>) {
    forall k :: 0 <= k < |groups| && k < |spores| && groups[k] != [] ==>
      next > 0 && IsValid(spores[k].genome, rules.traitBudget)
  }

  predicate HasGenome(os: seq<Organism>, genome: Genome) {
    exists i :: 0 <= i < |os| && os[i].genome == genome
  }

  lemma HasGenomeStill(os: seq<Organism>, more: seq<Organism>, genome: Genome)
    ensures HasGenome(os, genome) ==> HasGenome(os + more, genome)
    ensures more != [] && more[0].genome == genome ==> HasGenome(os + more, genome)
  {
    if HasGenome(os, genome) {
      var i :| 0 <= i < |os| && os[i].genome == genome;
      assert (os + more)[i].genome == genome;
    }
    if more != [] && more[0].genome == genome {
      assert (os + more)[|os|].genome == genome;
    }
  }

  /** Genomes that were placed are seen, and the first id too. */
  ghost predicate Seen(os: seq<Organism>, next: nat, spores: seq<Founder>, groups: seq<seq<Organism>>) {
    forall k :: 0 <= k < |groups| && k < |spores| && groups[k] != [] ==> HasGenome(os, spores[k].genome) && HasId(os, next)
  }

  lemma HasIdStill(before: seq<Organism>, placed: seq<Organism>, more: seq<Organism>, next: nat)
    requires placed != [] ==> placed[0].id == next
    requires more != [] ==> more[0].id == next + |placed|
    ensures more != [] || HasId(before + placed, next) ==> HasId(before + placed + more, next)
  {
    var os, all := before + placed, before + placed + more;
    if HasId(os, next) {
      var j :| 0 <= j < |os| && os[j].id == next;
      assert all[j].id == next;
    }
    if placed != [] {
      assert all[|before|] == placed[0];
    } else if more != [] {
      assert all[|os|] == more[0];
    }
  }

  lemma SeenNext(os: seq<Organism>, next: nat, spores: seq<Founder>, groups: seq<seq<Organism>>, before: seq<Organism>,
      placed: seq<Organism>, more: seq<Organism>)
    requires Seen(os, next, spores, groups) && |groups| < |spores| && os == before + placed
    requires more != [] ==> more[0].genome == spores[|groups|].genome && more[0].id == next + |placed|
    requires placed != [] ==> placed[0].id == next
    ensures Seen(os + more, next, spores, groups + [more])
  {
    hide HasGenome, HasId;
    var all := groups + [more];
    HasIdStill(before, placed, more, next);
    forall k | 0 <= k < |all| && k < |spores| && all[k] != []
      ensures HasGenome(os + more, spores[k].genome) && HasId(os + more, next)
    {
      HasGenomeStill(os, more, spores[k].genome);
      if k < |groups| {
        assert groups[k] != [];
      }
    }
  }

  /** In a people nothing unsustainable has been placed. */
  lemma SeenIsSustainable(rules: Ruleset, os: seq<Organism>, next': nat, clades: map<nat, Clade>, nextClade: nat, next: nat,
      spores: seq<Founder>, groups: seq<seq<Organism>>)
    requires People(rules, os, next', clades, nextClade) && Seen(os, next, spores, groups)
    ensures Sustainable(rules, spores, next, groups)
  {
    hide People, IsValid;
    forall k | 0 <= k < |groups| && k < |spores| && groups[k] != []
      ensures next > 0 && IsValid(spores[k].genome, rules.traitBudget)
    {
      var i :| 0 <= i < |os| && os[i].genome == spores[k].genome;
      var j :| 0 <= j < |os| && os[j].id == next;
      PersonFacts(rules, os, next', clades, nextClade, i);
      PersonFacts(rules, os, next', clades, nextClade, j);
    }
  }

  lemma SustainableBefore(rules: Ruleset, spores: seq<Founder>, next: nat, groups: seq<seq<Organism>>, more: seq<Organism>)
    requires Sustainable(rules, spores, next, groups + [more]) && |groups| < |spores|
    ensures Sustainable(rules, spores, next, groups)
    ensures more == [] || (next > 0 && IsValid(spores[|groups|].genome, rules.traitBudget))
  {
    hide IsValid;
    var all := groups + [more];
    assert all[|groups|] == more;
    forall k | 0 <= k < |groups| && k < |spores| && groups[k] != []
      ensures next > 0 && IsValid(spores[k].genome, rules.traitBudget)
    {
      assert all[k] == groups[k];
    }
  }

  /** What the spore bank upholds after some of its genomes. */
  ghost predicate Upheld(rules: Ruleset, spores: seq<Founder>, first: Folk, groups: seq<seq<Organism>>, f: Folk) {
    && Numbered(f.clades, f.nextClade)
    && (Sustainable(rules, spores, first.next, groups) ==> People(rules, f.os, f.next, f.clades, f.nextClade))
    && (Cohesive(rules, first.os, first.clades) ==> Cohesive(rules, f.os, f.clades))
    && (ReferencesValid(rules, first.clades) && Sustainable(rules, spores, first.next, groups) ==>
          ReferencesValid(rules, f.clades))
  }

  lemma UpheldNext(rules: Ruleset, spores: seq<Founder>, first: Folk, groups: seq<seq<Organism>>, f: Folk,
      more: seq<Organism>, f': Folk)
    requires |groups| < |spores| && Upheld(rules, spores, first, groups, f) && first.next <= f.next
    requires Grew(rules, f, f', more, spores[|groups|].genome)
    ensures Upheld(rules, spores, first, groups + [more], f')
  {
    hide People, IsValid, Cohesive, ReferencesValid, Sustainable, Numbered;
    if Sustainable(rules, spores, first.next, groups + [more]) {
      SustainableBefore(rules, spores, first.next, groups, more);
    }
  }

  /** What the spore bank has placed after some of its genomes. */
  ghost predicate Seeded(rules: Ruleset, cells: seq<Cell>, spores: seq<Founder>, before: seq<Organism>, next: nat,
      placed: seq<Organism>, groups: seq<seq<Organism>>)
  {
    && Foundlings(cells, next, placed) && placed == Together(groups, |groups|)
    && InTurn(rules, cells, before, groups) && Seen(before + placed, next, spores, groups)
  }

  lemma SeededNext(rules: Ruleset, cells: seq<Cell>, spores: seq<Founder>, before: seq<Organism>, next: nat,
      placed: seq<Organism>, groups: seq<seq<Organism>>, more: seq<Organism>, lineage: nat, cladeId: nat)
    requires Seeded(rules, cells, spores, before, next, placed, groups) && |groups| < |spores|
    requires Sprouted(rules, cells, more, next + |placed|, lineage, cladeId, spores[|groups|].genome)
    requires more == [] <==> rules.revival.perGenome == 0 || Full(rules, cells, before + placed)
    ensures before + placed + more == before + (placed + more)
    ensures Seeded(rules, cells, spores, before, next, placed + more, groups + [more])
  {
    hide Sprouted, Foundlings, Full, Seen, InTurn;
    var genome := spores[|groups|].genome;
    SproutsAreFoundlings(rules, cells, more, next + |placed|, lineage, cladeId, genome);
    SproutFacts(rules, cells, more, next + |placed|, lineage, cladeId, genome);
    FirstFoundling(cells, next, placed);
    MoreFoundlings(cells, next, placed, more);
    assert before + placed + more == before + (placed + more);
    InTurnNext(rules, cells, before, groups, more);
    SeenNext(before + placed, next, spores, groups, before, placed, more);
  }

  /** Every genome of the spore bank in turn, whatever it is. The people remain one exactly when whoever was
      placed has a valid genome and an id above zero. */
  method Reseed(w: World, rules: Ruleset, rng: Rng) returns (placed: seq<Organism>, ghost groups: seq<seq<Organism>>, ghost folks: seq<Folk>)
    requires Peopled(w, rules) && CellsFine(rules, w.cells) && AllStand(w.cells, w.organisms)
    modifies w`organisms, w`nextOrganismId, w`clades, w`nextCladeId, w`births
    ensures w.births == Added(old(w.births), placed)
    ensures w.organisms == old(w.organisms) + placed && w.nextOrganismId == old(w.nextOrganismId) + |placed|
    ensures AllStand(w.cells, w.organisms) && Foundlings(w.cells, old(w.nextOrganismId), placed)
    ensures |groups| == |w.sporeBank| && placed == Together(groups, |groups|)
    ensures Reseeded(rules, rng, w.cells, w.epoch, w.sporeBank, groups, folks)
    ensures folks[0] == old(FolkOf(w)) && folks[|groups|] == FolkOf(w)
    ensures InTurn(rules, w.cells, old(w.organisms), groups)
    ensures Peopled(w, rules) <==> Sustainable(rules, w.sporeBank, old(w.nextOrganismId), groups)
    ensures old(Cohesive(rules, w.organisms, w.clades)) ==> Cohesive(rules, w.organisms, w.clades)
    ensures old(ReferencesValid(rules, w.clades)) && Sustainable(rules, w.sporeBank, old(w.nextOrganismId), groups) ==>
      ReferencesValid(rules, w.clades)
  {
    hide People, CellsFine, AllStand, Counted, Roomy, Sprouted, Germinated, IsValid, WithNewClade, Full, Upheld, Grew, Seeded, Added,
      Regrown, Reseeded;
    placed, groups, folks := [], [], [FolkOf(w)];
    NothingReseeded(rules, rng, w.cells, w.epoch, w.sporeBank, FolkOf(w));
    AddedNone(w.births);
    var before, next := w.organisms, w.nextOrganismId;
    ghost var first := FolkOf(w);
    assert before + placed == before;
    StandingInRange(w.cells, before);
    var occ := Occupancy(before, |w.cells|);
    RoomyAtFirst(w, rules, occ);
    NothingSeen(rules, w.cells, first, w.sporeBank);
    for k := 0 to |w.sporeBank|
      invariant Counted(occ, w.organisms, |w.cells|) && Roomy(rules, occ) && |w.organisms| <= rules.maxOrganisms
      invariant w.organisms == before + placed && w.nextOrganismId == next + |placed| && |groups| == k
      invariant Seeded(rules, w.cells, w.sporeBank, before, next, placed, groups)
      invariant Reseeded(rules, rng, w.cells, w.epoch, w.sporeBank, groups, folks)
      invariant |folks| == k + 1 && folks[0] == first && folks[k] == FolkOf(w)
      invariant Upheld(rules, w.sporeBank, first, groups, FolkOf(w)) && w.births == Added(old(w.births), placed)
    {
      ghost var f := FolkOf(w);
      var more;
      occ, more := Germinate(w, rules, rng, occ, k, w.sporeBank[k]);
      SeededNext(rules, w.cells, w.sporeBank, before, next, placed, groups, more, k + 1, f.nextClade);
      UpheldNext(rules, w.sporeBank, first, groups, f, more, FolkOf(w));
      AddedMore(old(w.births), placed, more);
      ReseededNext(rules, rng, w.cells, w.epoch, w.sporeBank, groups, folks, FolkOf(w), more);
      placed, groups, folks := placed + more, groups + [more], folks + [FolkOf(w)];
    }
    SeededIsUpheld(rules, w.cells, w.sporeBank, first, placed, groups, FolkOf(w));
    FoundlingsStand(w.cells, before, next, placed);
  }

  lemma SeededIsUpheld(rules: Ruleset, cells: seq<Cell>, spores: seq<Founder>, first: Folk, placed: seq<Organism>,
      groups: seq<seq<Organism>>, f: Folk)
    requires Seeded(rules, cells, spores, first.os, first.next, placed, groups) && Upheld(rules, spores, first, groups, f)
    requires f.os == first.os + placed
    ensures Foundlings(cells, first.next, placed) && placed == Together(groups, |groups|)
    ensures InTurn(rules, cells, first.os, groups)
    ensures People(rules, f.os, f.next, f.clades, f.nextClade) <==> Sustainable(rules, spores, first.next, groups)
    ensures Cohesive(rules, first.os, first.clades) ==> Cohesive(rules, f.os, f.clades)
    ensures ReferencesValid(rules, first.clades) && Sustainable(rules, spores, first.next, groups) ==>
      ReferencesValid(rules, f.clades)
  {
    hide People, Foundlings, InTurn, Seen, Sustainable, Cohesive, ReferencesValid, Numbered;
    if People(rules, f.os, f.next, f.clades, f.nextClade) {
      SeenIsSustainable(rules, f.os, f.next, f.clades, f.nextClade, first.next, spores, groups);
    }
  }

  lemma NothingSeen(rules: Ruleset, cells: seq<Cell>, first: Folk, spores: seq<Founder>)
    ensures Seeded(rules, cells, spores, first.os, first.next, [], []) && Foundlings(cells, first.next, [])
    ensures InTurn(rules, cells, first.os, []) && Sustainable(rules, spores, first.next, [])
    ensures People(rules, first.os, first.next, first.clades, first.nextClade) && Numbered(first.clades, first.nextClade) ==>
      Upheld(rules, spores, first, [], first)
  {
    hide People, Cohesive, ReferencesValid, Numbered;
  }

  lemma SproutFacts(rules: Ruleset, cells: seq<Cell>, placed: seq<Organism>, next: nat, lineage: nat, cladeId: nat,
      genome: Genome)
    requires Sprouted(rules, cells, placed, next, lineage, cladeId, genome)
    ensures placed != [] ==> placed[0].genome == genome && placed[0].id == next
  {
  }

  lemma FirstFoundling(cells: seq<Cell>, next: nat, placed: seq<Organism>)
    requires Foundlings(cells, next, placed)
    ensures placed != [] ==> placed[0].id == next
  {
  }

  /** When a revival keeps the invariants: the last one was in an earlier epoch, and whoever it places has a
      valid genome and an id above zero. */
  predicate RevivalHolds(rules: Ruleset, spores: seq<Founder>, revivals: seq<nat>, epoch: nat, next: nat,
      groups: seq<seq<Organism>>)
  {
    (revivals == [] || revivals[|revivals| - 1] < epoch) && Sustainable(rules, spores, next, groups)
  }

  /** From any state that check_invariants accepts: a world with too few organisms is revived from the spore
      bank, and too many revivals end the season. The world is accepted again exactly when nothing was needed
      or the revival holds. */
  method NaturalRevival(w: World, rules: Ruleset, rng: Rng)
    returns (ghost revived: bool, ghost placed: seq<Organism>, ghost groups: seq<seq<Organism>>, ghost folks: seq<Folk>)
    requires Steady(w, rules)
    modifies w`organisms, w`nextOrganismId, w`clades, w`nextCladeId, w`revivals, w`ended, w`births
    ensures w.births == Added(old(w.births), placed)
    ensures revived == old(NeedsRevival(w, rules))
    ensures Steady(w, rules) <==>
      (revived ==> RevivalHolds(rules, w.sporeBank, old(w.revivals), w.epoch, old(w.nextOrganismId), groups))
    ensures w.organisms == old(w.organisms) + placed && w.nextOrganismId == old(w.nextOrganismId) + |placed|
    ensures Foundlings(w.cells, old(w.nextOrganismId), placed) && AllStand(w.cells, w.organisms)
    ensures placed == Together(groups, |groups|) && InTurn(rules, w.cells, old(w.organisms), groups)
    ensures Reseeded(rules, rng, w.cells, w.epoch, w.sporeBank, groups, folks)
    ensures folks[0] == old(FolkOf(w)) && folks[|groups|] == FolkOf(w)
    ensures if revived
      then |groups| == |w.sporeBank| && w.revivals == old(w.revivals) + [w.epoch]
        && (w.ended <==> SeasonOver(rules, w.revivals, w.epoch))
      else (groups == [] && w.clades == old(w.clades) && w.revivals == old(w.revivals) && w.ended == old(w.ended))
    ensures old(Cohesive(rules, w.organisms, w.clades)) ==> Cohesive(rules, w.organisms, w.clades)
    ensures old(ReferencesValid(rules, w.clades)) && Sustainable(rules, w.sporeBank, old(w.nextOrganismId), groups) ==>
      ReferencesValid(rules, w.clades)
  {
    hide Steady, People, CellsFine, RiftsFine, AllStand, Foundlings, SeasonOver, Increasing, Cohesive, ReferencesValid,
      Sustainable, InTurn, Added, Reseeded;
    AddedNone(w.births);
    revived, placed, groups, folks := NeedsRevival(w, rules), [], [], [FolkOf(w)];
    NothingReseeded(rules, rng, w.cells, w.epoch, w.sporeBank, FolkOf(w));
    assert w.organisms + [] == w.organisms;
    SteadyIsPeopleOnGround(w, rules);
    NothingSeen(rules, w.cells, FolkOf(w), w.sporeBank);
    if NeedsRevival(w, rules) {
      placed, groups, folks := Reseed(w, rules, rng);
      RevivalOrder(w.revivals, w.epoch, rules.revival.cooldownEpochs);
      w.revivals := w.revivals + [w.epoch];
      if SeasonOver(rules, w.revivals, w.epoch) {
        w.ended := true;
      }
      SteadyIsPeopleOnGround(w, rules);
    }
  }
}
