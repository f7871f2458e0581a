/** World::check_invariants, core/src/state.rs:414-504: the loops that check what every epoch must keep. */
module Checking {
  import opened Genomes
  import opened Grid
  import opened Options
  import opened Plagues
  import opened Steadiness
  import opened WorldState

  datatype Violation = WrongSize | BadCell(cell: nat) | TooManyOrganisms | OutOfOrder(place: nat) | BadBody(place: nat)
    | Overfull(place: nat) | BadClade(id: nat) | MissingClade(id: nat) | BadRift(place: nat) | RiftMismatch(cell: nat)
    | MuseumOverfull | RevivalsOutOfOrder

  method CheckCells(cells: seq<Cell>, rules: Ruleset) returns (v: Option<Violation>)
    requires |rules.biomes| == BIOMES
    ensures v == None <==> forall c :: 0 <= c < |cells| ==> CellFine(rules, cells[c])
  {
    for c := 0 to |cells|
      invariant forall b :: 0 <= b < c ==> CellFine(rules, cells[b])
    {
      if cells[c].food > rules.biomes[BiomeCode(cells[c].biome)].foodMax || cells[c].moisture > 100 {
        assert !CellFine(rules, cells[c]);
        return Some(BadCell(c));
      }
    }
    v := None;
  }

  /** How many members each clade has among the organisms seen. */
  ghost predicate CladesCounted(counts: map<nat, nat>, os: seq<Organism>) {
    (forall id :: id in counts <==> Tally(os, OfClade(id)) > 0)
    && (forall id :: id in counts ==> counts[id] == Tally(os, OfClade(id)))
  }

  ghost predicate CellsCounted(counts: seq<nat>, os: seq<Organism>) {
    forall c :: 0 <= c < |counts| ==> counts[c] == Tally(os, InCell(c))
  }

  lemma CountNext(perCell: seq<nat>, perClade: map<nat, nat>, os: seq<Organism>, k: nat)
    requires k < |os| && os[k].cell < |perCell|
    requires CellsCounted(perCell, os[..k]) && CladesCounted(perClade, os[..k])
    ensures CellsCounted(perCell[os[k].cell := perCell[os[k].cell] + 1], os[..k + 1])
    ensures var id := os[k].cladeId;
      CladesCounted(perClade[id := (if id in perClade then perClade[id] else 0) + 1], os[..k + 1])
  {
    assert os[..k + 1][..k] == os[..k];
  }

  /** The organisms of the first k that are as they should be. */
  ghost predicate PassedUpTo(rules: Ruleset, cells: seq<Cell>, os: seq<Organism>, next: nat, k: nat, previous: nat)
    requires Sound(rules) && k <= |os|
  {
    && Ascending(os[..k], next) && (forall i :: 0 <= i < k ==> os[i].id <= previous)
    && (previous == 0 || exists i :: 0 <= i < k && os[i].id == previous)
    && (forall i :: 0 <= i < k ==> BodyFine(rules, cells, os[i]))
  }

  lemma PassedNext(rules: Ruleset, cells: seq<Cell>, os: seq<Organism>, next: nat, k: nat, previous: nat)
    requires Sound(rules) && k < |os| && PassedUpTo(rules, cells, os, next, k, previous)
    requires previous < os[k].id < next && BodyFine(rules, cells, os[k])
    ensures PassedUpTo(rules, cells, os, next, k + 1, os[k].id)
  {
    hide Sound, BodyFine;
  }

  lemma OutOfOrderFails(rules: Ruleset, cells: seq<Cell>, os: seq<Organism>, next: nat, k: nat, previous: nat)
    requires Sound(rules) && k < |os| && PassedUpTo(rules, cells, os, next, k, previous)
    requires os[k].id <= previous || os[k].id >= next
    ensures !Ascending(os, next)
  {
    hide Sound, BodyFine;
  }

  lemma OverfullFails(os: seq<Organism>, k: nat, limit: nat)
    requires k < |os| && Tally(os[..k + 1], InCell(os[k].cell)) > limit
    ensures Tally(os, InCell(os[k].cell)) > limit
  {
    TallyPrefix(os, k + 1, InCell(os[k].cell));
  }

  /** The organisms: their order, their bodies and how many stand in a cell; and the counts of the clades. */
  method CheckOrganisms(w: World, rules: Ruleset) returns (v: Option<Violation>, perClade: map<nat, nat>)
    requires Sound(rules)
    ensures v == None ==> CladesCounted(perClade, w.organisms)
    ensures v == None <==> (Ascending(w.organisms, w.nextOrganismId)
      && (forall i :: 0 <= i < |w.organisms| ==> BodyFine(rules, w.cells, w.organisms[i]))
      && (forall c :: 0 <= c < |w.cells| ==> Tally(w.organisms, InCell(c)) <= rules.maxPerCell))
  {
    hide Sound, Tally, Ascending, PassedUpTo, IsValid;
    var os := w.organisms;
    var perCell: seq<nat> := seq(|w.cells|, _ => 0);
    perClade := map[];
    var previous := 0;
    NothingCounted(perCell, os);
    NothingPassed(rules, w.cells, os, w.nextOrganismId);
    for k := 0 to |os|
      invariant |perCell| == |w.cells| && CellsCounted(perCell, os[..k]) && CladesCounted(perClade, os[..k])
      invariant forall c :: 0 <= c < |perCell| ==> perCell[c] <= rules.maxPerCell
      invariant PassedUpTo(rules, w.cells, os, w.nextOrganismId, k, previous)
    {
      var o := os[k];
      if o.id <= previous || o.id >= w.nextOrganismId {
        OutOfOrderFails(rules, w.cells, os, w.nextOrganismId, k, previous);
        return Some(OutOfOrder(k)), perClade;
      }
      BodyByRules(rules, w.cells, o);
      if !IsValid(o.genome, rules.traitBudget) || o.energy <= 0 || o.energy > rules.energyMax || o.cell >= |w.cells|
        || !rules.biomes[BiomeCode(w.cells[o.cell].biome)].passable {
        return Some(BadBody(k)), perClade;
      }
      CountNext(perCell, perClade, os, k);
      PassedNext(rules, w.cells, os, w.nextOrganismId, k, previous);
      previous := o.id;
      perCell := perCell[o.cell := perCell[o.cell] + 1];
      perClade := perClade[o.cladeId := (if o.cladeId in perClade then perClade[o.cladeId] else 0) + 1];
      if perCell[o.cell] > rules.maxPerCell {
        OverfullFails(os, k, rules.maxPerCell);
        return Some(Overfull(k)), perClade;
      }
    }
    assert os[..|os|] == os;
    AllPassed(rules, w.cells, os, w.nextOrganismId, previous);
    v := None;
  }

  lemma NothingCounted(perCell: seq<nat>, os: seq<Organism>)
    requires forall c :: 0 <= c < |perCell| ==> perCell[c] == 0
    ensures CellsCounted(perCell, os[..0]) && CladesCounted(map[], os[..0])
  {
  }

  lemma NothingPassed(rules: Ruleset, cells: seq<Cell>, os: seq<Organism>, next: nat)
    requires Sound(rules)
    ensures PassedUpTo(rules, cells, os, next, 0, 0)
  {
  }

  lemma AllPassed(rules: Ruleset, cells: seq<Cell>, os: seq<Organism>, next: nat, previous: nat)
    requires Sound(rules) && PassedUpTo(rules, cells, os, next, |os|, previous)
    ensures Ascending(os, next) && forall i :: 0 <= i < |os| ==> BodyFine(rules, cells, os[i])
  {
    hide Sound, BodyFine;
    assert os[..|os|] == os;
  }

  lemma BodyByRules(rules: Ruleset, cells: seq<Cell>, o: Organism)
    requires Sound(rules)
    ensures |rules.biomes| == BIOMES
    ensures BodyFine(rules, cells, o) <==> (IsValid(o.genome, rules.traitBudget) && 0 < o.energy <= rules.energyMax
      && o.cell < |cells| && rules.biomes[BiomeCode(cells[o.cell].biome)].passable)
  {
    hide IsValid, Validated;
    RulesListBiomes(rules);
  }

  lemma RulesListBiomes(rules: Ruleset)
    requires Sound(rules)
    ensures |rules.biomes| == BIOMES
  {
  }

  /** The clades: filed under their ids, with members, as many as are counted, and all of them known. */
  method CheckClades(w: World, perClade: map<nat, nat>) returns (v: Option<Violation>)
    requires CladesCounted(perClade, w.organisms)
    ensures v == None <==> (
      (forall id :: id in w.clades ==> CladeFine(id, w.clades[id], w.nextCladeId, w.organisms))
      && (forall i :: 0 <= i < |w.organisms| ==> w.organisms[i].cladeId in w.clades))
  {
    hide Tally;
    var todo := w.clades.Keys;
    while todo != {}
      invariant todo <= w.clades.Keys
      invariant forall id :: id in w.clades && id !in todo ==> CladeFine(id, w.clades[id], w.nextCladeId, w.organisms)
    {
      var id :| id in todo;
      var c := w.clades[id];
      if c.id != id || id >= w.nextCladeId || c.living == 0 || id !in perClade || perClade[id] != c.living
        || c.peakLiving < c.living {
        assert !CladeFine(id, c, w.nextCladeId, w.organisms);
        return Some(BadClade(id));
      }
      todo := todo - {id};
    }
    var counted := perClade.Keys;
    while counted != {}
      invariant counted <= perClade.Keys
      invariant forall id :: id in perClade && id !in counted ==> id in w.clades
    {
      var id :| id in counted;
      if id !in w.clades {
        CountedMember(w.organisms, id);
        return Some(MissingClade(id));
      }
      counted := counted - {id};
    }
    forall i | 0 <= i < |w.organisms|
      ensures w.organisms[i].cladeId in w.clades
    {
      TallyMember(w.organisms, i, OfClade(w.organisms[i].cladeId));
    }
    v := None;
  }

  lemma CountedMember(os: seq<Organism>, id: nat)
    requires Tally(os, OfClade(id)) > 0
    ensures exists i :: 0 <= i < |os| && os[i].cladeId == id
  {
    var i := SomeMember(os, OfClade(id));
  }

  /** The schedule: rift cells in order and on the map, phases in order; and the map agrees with it. */
  method CheckRifts(rifts: seq<Rift>, cells: seq<Cell>) returns (v: Option<Violation>)
    ensures v == None <==> RiftsFine(rifts, cells)
  {
    var onRift := seq(|cells|, _ => false);
    var previous := -1;
    for k := 0 to |rifts|
      invariant |onRift| == |cells| && previous == if k == 0 then -1 else rifts[k - 1].cell
      invariant forall j :: 0 <= j < k ==> rifts[j].cell < |cells| && rifts[j].cell <= previous
      invariant forall j :: 0 <= j < k ==> rifts[j].faultEpoch <= rifts[j].shallowsEpoch <= rifts[j].deepEpoch
      invariant forall i, j :: 0 <= i < j < k ==> rifts[i].cell < rifts[j].cell
      invariant forall c :: 0 <= c < |cells| ==> (onRift[c] <==> OnRift(rifts[..k], c))
    {
      var r := rifts[k];
      if previous >= r.cell || r.cell >= |cells| || !(r.faultEpoch <= r.shallowsEpoch <= r.deepEpoch) {
        return Some(BadRift(k));
      }
      assert rifts[..k + 1] == rifts[..k] + [r];
      RiftNext(rifts[..k], r);
      previous := r.cell;
      onRift := onRift[r.cell := true];
    }
    assert rifts[..|rifts|] == rifts;
    for c := 0 to |cells|
      invariant forall b :: 0 <= b < c ==> (OnRift(rifts, b) <==> cells[b].rift != NoRift)
    {
      if onRift[c] != (cells[c].rift != NoRift) {
        return Some(RiftMismatch(c));
      }
    }
    v := None;
  }

  method CheckRevivals(revivals: seq<nat>) returns (v: Option<Violation>)
    ensures v == None <==> Increasing(revivals)
  {
    var k := 1;
    while k < |revivals|
      invariant k >= 1 && (k == 1 || k <= |revivals|)
      invariant forall i, j :: 0 <= i < j < k && j < |revivals| ==> revivals[i] < revivals[j]
    {
      if revivals[k - 1] >= revivals[k] {
        return Some(RevivalsOutOfOrder);
      }
      k := k + 1;
    }
    v := None;
  }

  /** The check passes exactly on the states that keep the invariants. */
  method CheckInvariants(w: World, rules: Ruleset) returns (v: Option<Violation>)
    requires Sound(rules)
    ensures v == None <==> Invariants(w, rules)
  {
    hide Sound, CellFine, Ascending, BodyFine, Tally, CladeFine, RiftsFine, Increasing, CladesCounted;
    RulesListBiomes(rules);
    if |w.cells| != Cells(rules.size) || w.size != rules.size {
      return Some(WrongSize);
    }
    v := CheckCells(w.cells, rules);
    if v.Some? {
      return;
    }
    if |w.organisms| > rules.maxOrganisms {
      return Some(TooManyOrganisms);
    }
    var perClade;
    v, perClade := CheckOrganisms(w, rules);
    if v.Some? {
      return;
    }
    v := CheckClades(w, perClade);
    if v.Some? {
      return;
    }
    v := CheckRifts(w.rifts, w.cells);
    if v.Some? {
      return;
    }
    if |w.museum| > rules.museumCapacity {
      return Some(MuseumOverfull);
    }
    v := CheckRevivals(w.revivals);
  }
}
