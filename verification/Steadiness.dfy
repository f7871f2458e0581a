/** What holds between ticks, and its passage into a tick and out of it. */
module Steadiness {
  import opened Acts
  import opened Cohesion
  import opened Environment
  import opened Genomes
  import opened Grid
  import opened Herd
  import opened TickState
  import opened WorldState

  ghost predicate Steady(w: World, rules: Ruleset)
    reads w
  {
    Sound(rules) && Invariants(w, rules)
  }

  /** What holds of the organisms and the clades wherever they stand. */
  ghost predicate People(rules: Ruleset, os: seq<Organism>, next: nat, clades: map<nat, Clade>, nextClade: nat) {
    && Sound(rules) && |os| <= rules.maxOrganisms && Ascending(os, next)
    && (forall i :: 0 <= i < |os| ==> IsValid(os[i].genome, rules.traitBudget) && 0 < os[i].energy <= rules.energyMax)
    && (forall c :: 0 <= c < Cells(rules.size) ==> Tally(os, InCell(c)) <= rules.maxPerCell)
    && (forall id :: id in clades ==> CladeFine(id, clades[id], nextClade, os))
    && (forall i :: 0 <= i < |os| ==> os[i].cladeId in clades)
  }

  ghost predicate Peopled(w: World, rules: Ruleset)
    reads w`organisms, w`nextOrganismId, w`clades, w`nextCladeId, w`museum, w`revivals
  {
    && w.size == rules.size && |w.museum| <= rules.museumCapacity && Increasing(w.revivals)
    && People(rules, w.organisms, w.nextOrganismId, w.clades, w.nextCladeId)
  }

  predicate AllStand(cells: seq<Cell>, os: seq<Organism>) {
    forall i :: 0 <= i < |os| ==> Stands(cells, os[i])
  }

  /** A steady world is people on fine ground, and nothing more. */
  lemma SteadyIsPeopleOnGround(w: World, rules: Ruleset)
    ensures Steady(w, rules) <==> (Peopled(w, rules) && CellsFine(rules, w.cells) && AllStand(w.cells, w.organisms)
      && RiftsFine(w.rifts, w.cells))
  {
    hide CellFine, IsValid, RiftsFine, Ascending, Stands, Tally, Increasing, CladeFine, Sound;
    if Sound(rules) {
      BiomesListed(rules);
    }
    if Steady(w, rules) {
      forall i | 0 <= i < |w.organisms|
        ensures Stands(w.cells, w.organisms[i]) && IsValid(w.organisms[i].genome, rules.traitBudget)
        ensures 0 < w.organisms[i].energy <= rules.energyMax
      {
        assert BodyFine(rules, w.cells, w.organisms[i]);
      }
    }
  }

  lemma EveryoneBelongs(w: World, rules: Ruleset)
    requires Steady(w, rules)
    ensures forall i :: 0 <= i < |w.organisms| ==> w.organisms[i].cladeId in w.clades
  {
  }

  lemma SameGroundStands(cells: seq<Cell>, cells': seq<Cell>, os: seq<Organism>)
    requires SameGround(cells, cells') && AllStand(cells, os)
    ensures AllStand(cells', os)
  {
  }

  lemma SameGroundRifts(rifts: seq<Rift>, cells: seq<Cell>, cells': seq<Cell>)
    requires SameGround(cells, cells') && RiftsFine(rifts, cells)
    ensures RiftsFine(rifts, cells')
  {
    hide OnRift;
  }

  // ---- Into a tick ----

  /** A prefix has no more in a cell than the whole. */
  lemma {:induction false} TallyPrefix(os: seq<Organism>, k: nat, key: Key)
    requires k <= |os|
    ensures Tally(os[..k], key) <= Tally(os, key)
    decreases |os|
  {
    if k < |os| {
      TallyPrefix(os[..|os| - 1], k, key);
      assert os[..|os| - 1][..k] == os[..k];
    } else {
      assert os[..k] == os;
    }
  }

  function AllAlive(n: nat): (alive: seq<bool>)
    ensures |alive| == n && forall i :: 0 <= i < n ==> alive[i]
  {
    seq(n, _ => true)
  }

  lemma EmptyCrowd(ix: Index, cells: nat, limit: nat)
    requires |ix.occ| == |ix.members| == cells && forall c :: 0 <= c < cells ==> ix.occ[c] == 0
    ensures Crowd(ix, cells, limit, [], [])
  {
  }

  /** Room for the next organism to be listed. */
  lemma RoomForNext(ix: Index, cells: nat, limit: nat, os: seq<Organism>, k: nat)
    requires k < |os| && Crowd(ix, cells, limit, os[..k], AllAlive(k)) && os[k].cell < cells
    requires Tally(os, InCell(os[k].cell)) <= limit
    ensures ix.occ[os[k].cell] < limit
    ensures os[..k + 1] == os[..k] + [os[k]] && AllAlive(k + 1) == AllAlive(k) + [true]
  {
    hide Listed, Lists, Tally;
    var c := os[k].cell;
    assert Lists(Listed(ix, c), os[..k], AllAlive(k), c);
    OccupiedByListed(ix, os[..k], AllAlive(k), c);
    TallyPrefix(os, k + 1, InCell(c));
    NextTallied(os, k);
  }

  lemma OccupiedByListed(ix: Index, os: seq<Organism>, alive: seq<bool>, c: nat)
    requires |os| == |alive| && c < |ix.occ| == |ix.members| && ix.occ[c] <= 4
    requires Lists(Listed(ix, c), os, alive, c) && forall i :: 0 <= i < |alive| ==> alive[i]
    ensures ix.occ[c] == Tally(os, InCell(c))
  {
    CountAllAlive(os, alive, InCell(c));
  }

  lemma NextTallied(os: seq<Organism>, k: nat)
    requires k < |os|
    ensures os[..k + 1] == os[..k] + [os[k]] && AllAlive(k + 1) == AllAlive(k) + [true]
    ensures Tally(os[..k + 1], InCell(os[k].cell)) == Tally(os[..k], InCell(os[k].cell)) + 1
  {
    assert os[..k + 1][..k] == os[..k];
  }

  lemma ClansFromSteady(w: World, rules: Ruleset, alive: seq<bool>)
    requires Peopled(w, rules) && alive == AllAlive(|w.organisms|)
    ensures ClansFine(w.organisms, alive, w.clades, w.nextCladeId)
    ensures Count(w.organisms, alive, Anyone) == |w.organisms|
  {
    hide Sound, IsValid, RiftsFine, CellFine, Ascending, BodyFine;
    forall id | id in w.clades
      ensures ClanFine(id, w.clades[id], w.nextCladeId)
        && w.clades[id].living == Count(w.organisms, alive, OfClade(id))
    {
      assert CladeFine(id, w.clades[id], w.nextCladeId, w.organisms);
      CountAllAlive(w.organisms, alive, OfClade(id));
    }
    CountAllAlive(w.organisms, alive, Anyone);
    TallyAnyone(w.organisms);
  }

  lemma {:induction false} TallyAnyone(os: seq<Organism>)
    ensures Tally(os, Anyone) == |os|
  {
    if os != [] {
      TallyAnyone(os[..|os| - 1]);
    }
  }

  lemma HerdFromSteady(w: World, rules: Ruleset)
    requires Steady(w, rules)
    ensures HerdFine(rules, w.cells, w.organisms, w.nextOrganismId) && CellsFine(rules, w.cells)
    ensures |w.organisms| <= rules.maxOrganisms && 1 <= rules.maxPerCell <= 4
  {
    hide IsValid, RiftsFine, CellFine, Ascending, Stands;
    forall i | 0 <= i < |w.organisms|
      ensures Stands(w.cells, w.organisms[i]) && IsValid(w.organisms[i].genome, rules.traitBudget)
        && w.organisms[i].energy <= rules.energyMax
    {
      assert BodyFine(rules, w.cells, w.organisms[i]);
    }
  }

  // ---- Out of a tick ----

  /** Whoever is retained was alive. */
  lemma {:induction false} RetainedFrom(os: seq<Organism>, alive: seq<bool>, j: nat) returns (i: nat)
    requires |os| == |alive| && j < |Retained(os, alive)|
    ensures i < |os| && alive[i] && Retained(os, alive)[j] == os[i]
  {
    var n := |os| - 1;
    var before := Retained(os[..n], alive[..n]);
    if j < |before| {
      i := RetainedFrom(os[..n], alive[..n], j);
    } else {
      i := n;
    }
  }

  /** Whoever is alive is retained. */
  lemma {:induction false} RetainedHas(os: seq<Organism>, alive: seq<bool>, i: nat) returns (j: nat)
    requires |os| == |alive| && i < |os| && alive[i]
    ensures j < |Retained(os, alive)| && Retained(os, alive)[j] == os[i]
  {
    var n := |os| - 1;
    if i < n {
      j := RetainedHas(os[..n], alive[..n], i);
    } else {
      j := |Retained(os[..n], alive[..n])|;
    }
  }

  lemma {:induction false} RetainedAscends(os: seq<Organism>, alive: seq<bool>, next: nat)
    requires |os| == |alive| && Ascending(os, next)
    ensures Ascending(Retained(os, alive), next)
  {
    if os != [] {
      var n := |os| - 1;
      assert Ascending(os[..n], next);
      RetainedAscends(os[..n], alive[..n], next);
      var before := Retained(os[..n], alive[..n]);
      forall j | 0 <= j < |before|
        ensures before[j].id < os[n].id
      {
        var i := RetainedFrom(os[..n], alive[..n], j);
      }
    }
  }

  /** The invariants but for clades without members, which are about to be closed. */
  ghost predicate Gathered(rules: Ruleset, cells: seq<Cell>, os: seq<Organism>, next: nat, clades: map<nat, Clade>,
      nextClade: nat)
  {
    && Sound(rules) && CellsFine(rules, cells)
    && |os| <= rules.maxOrganisms && Ascending(os, next)
    && (forall i :: 0 <= i < |os| ==> BodyFine(rules, cells, os[i]))
    && (forall c :: 0 <= c < |cells| ==> Tally(os, InCell(c)) <= rules.maxPerCell)
    && (forall id :: id in clades ==> ClanFine(id, clades[id], nextClade))
    && (forall id :: id in clades ==> clades[id].living == Tally(os, OfClade(id)))
    && (forall i :: 0 <= i < |os| ==> os[i].cladeId in clades)
  }

  /** Dropping the dead leaves the living, in their order and in their clades. */
  lemma RetainedGathers(rules: Ruleset, cells: seq<Cell>, os: seq<Organism>, alive: seq<bool>, next: nat,
      clades: map<nat, Clade>, nextClade: nat)
    requires Sound(rules) && CellsFine(rules, cells) && |os| == |alive| && Ascending(os, next)
    requires forall i :: 0 <= i < |os| && alive[i] ==> BodyFine(rules, cells, os[i])
    requires forall c :: 0 <= c < |cells| ==> Count(os, alive, InCell(c)) <= rules.maxPerCell
    requires Count(os, alive, Anyone) <= rules.maxOrganisms && ClansFine(os, alive, clades, nextClade)
    ensures Gathered(rules, cells, Retained(os, alive), next, clades, nextClade)
  {
    hide Sound, CellsFine, IsValid, Ascending, BodyFine, ClanFine;
    var kept := Retained(os, alive);
    RetainedAscends(os, alive, next);
    forall j | 0 <= j < |kept|
      ensures BodyFine(rules, cells, kept[j])
      ensures kept[j].cladeId in clades
    {
      var i := RetainedFrom(os, alive, j);
    }
    forall c | 0 <= c < |cells|
      ensures Tally(kept, InCell(c)) <= rules.maxPerCell
    {
      TallyRetained(os, alive, InCell(c));
    }
    forall id | id in clades
      ensures clades[id].living == Tally(kept, OfClade(id))
    {
      TallyRetained(os, alive, OfClade(id));
    }
    TallyRetained(os, alive, Anyone);
    TallyAnyone(kept);
  }

  /** The organisms marked alive, in their order. */
  method Keep(os: seq<Organism>, alive: seq<bool>) returns (kept: seq<Organism>)
    requires |os| == |alive|
    ensures kept == Retained(os, alive)
  {
    kept := [];
    for k := 0 to |os|
      invariant kept == Retained(os[..k], alive[..k])
    {
      assert os[..k + 1][..k] == os[..k] && alive[..k + 1][..k] == alive[..k];
      if alive[k] {
        kept := kept + [os[k]];
      } else {
        assert kept + [] == kept;
      }
    }
    assert os[..|os|] == os && alive[..|os|] == alive;
  }

  /** Dropping the dead at the end of a tick. */
  method DropDead(w: World, s: Scratch, rules: Ruleset)
    requires Ticking(w, s, rules) && |w.organisms| == |s.alive| && AllFed(w.organisms, s.alive)
    modifies w`organisms
    ensures Gathered(rules, w.cells, w.organisms, w.nextOrganismId, w.clades, w.nextCladeId)
    ensures w.organisms == Retained(old(w.organisms), s.alive)
  {
    hide Sound, CellsFine, IsValid, TablesFine, SpentFine, ActingFine, Ascending, Lists, Stands, ClansFine, Gathered;
    ghost var os, alive := w.organisms, s.alive;
    forall c | 0 <= c < |w.cells|
      ensures Count(os, alive, InCell(c)) <= rules.maxPerCell
    {
      ListedCount(s.Ix(), os, alive, c);
    }
    RetainedGathers(rules, w.cells, os, alive, w.nextOrganismId, w.clades, w.nextCladeId);
    w.organisms := Keep(w.organisms, s.alive);
  }

  lemma ListedCount(ix: Index, os: seq<Organism>, alive: seq<bool>, c: nat)
    requires |os| == |alive| && c < |ix.occ| == |ix.members| && ix.occ[c] <= 4
    requires Lists(Listed(ix, c), os, alive, c)
    ensures ix.occ[c] == Count(os, alive, InCell(c))
  {
  }

  // ---- Closing clades without members ----

  function Entry(c: Clade, epoch: nat): MuseumEntry {
    MuseumEntry(c.id, c.parentId, c.secondParentId, c.reference, c.foundedEpoch, epoch, c.peakLiving)
  }

  /** A named clade goes to the museum; when that is full, the oldest entry leaves. */
  function Archived(rules: Ruleset, museum: seq<MuseumEntry>, c: Clade, epoch: nat): seq<MuseumEntry> {
    if c.peakLiving >= rules.cladeNameThreshold && rules.museumCapacity > 0 then
      (if |museum| >= rules.museumCapacity && museum != [] then museum[1..] else museum) + [Entry(c, epoch)]
    else museum
  }

  /** A clade that was ever large enough to have a name comes last, and when the museum is full the first entry goes; other
      clades leave no entry. */
  lemma ArchivedExactly(rules: Ruleset, museum: seq<MuseumEntry>, c: Clade, epoch: nat)
    requires |museum| <= rules.museumCapacity
    ensures var after := Archived(rules, museum, c, epoch);
      if c.peakLiving < rules.cladeNameThreshold || rules.museumCapacity == 0 then after == museum
      else
        && |after| == (if |museum| < rules.museumCapacity then |museum| + 1 else |museum|)
        && after[|after| - 1]
          == MuseumEntry(c.id, c.parentId, c.secondParentId, c.reference, c.foundedEpoch, epoch, c.peakLiving)
        && forall k :: 0 <= k < |after| - 1 ==> after[k] == museum[|museum| - (|after| - 1) + k]
  {
  }

  /** The museum after the extinct clades among the first k ids. */
  function ArchivedUpTo(rules: Ruleset, museum: seq<MuseumEntry>, clades: map<nat, Clade>, epoch: nat, k: nat): seq<MuseumEntry> {
    if k == 0 then museum
    else
      var before := ArchivedUpTo(rules, museum, clades, epoch, k - 1);
      if k - 1 in clades && clades[k - 1].living == 0 then Archived(rules, before, clades[k - 1], epoch) else before
  }

  /** The living clades. */
  function Living(clades: map<nat, Clade>): map<nat, Clade> {
    map id | id in clades && clades[id].living > 0 :: clades[id]
  }

  /** Removes clades whose last member died, in order of id; named ones go to the museum. */
  method CloseExtinctClades(w: World, rules: Ruleset)
    requires Gathered(rules, w.cells, w.organisms, w.nextOrganismId, w.clades, w.nextCladeId)
    requires |w.museum| <= rules.museumCapacity
    modifies w`clades, w`museum
    ensures w.clades == Living(old(w.clades))
    ensures w.museum == ArchivedUpTo(rules, old(w.museum), old(w.clades), w.epoch, w.nextCladeId)
    ensures |w.museum| <= rules.museumCapacity
  {
    hide Sound, CellsFine, BodyFine, IsValid, Tally, Ascending;
    ghost var clades, museum := w.clades, w.museum;
    for id := 0 to w.nextCladeId
      invariant forall k :: k in w.clades <==> (k in clades && (k >= id || clades[k].living > 0))
      invariant forall k :: k in w.clades ==> w.clades[k] == clades[k]
      invariant w.museum == ArchivedUpTo(rules, museum, clades, w.epoch, id)
      invariant |w.museum| <= rules.museumCapacity
    {
      if id in w.clades && w.clades[id].living == 0 {
        var c := w.clades[id];
        assert ClanFine(id, c, w.nextCladeId);
        w.clades := map k | k in w.clades && k != id :: w.clades[k];
        w.museum := Archived(rules, w.museum, c, w.epoch);
      }
    }
    forall k | k in clades
      ensures k < w.nextCladeId
    {
      assert ClanFine(k, clades[k], w.nextCladeId);
    }
  }

  /** With the empty clades closed, everything holds again. */
  lemma ClosedIsSteady(w: World, rules: Ruleset, clades: map<nat, Clade>)
    requires w.clades == Living(clades)
    requires w.size == rules.size && Gathered(rules, w.cells, w.organisms, w.nextOrganismId, clades, w.nextCladeId)
    requires RiftsFine(w.rifts, w.cells) && |w.museum| <= rules.museumCapacity && Increasing(w.revivals)
    ensures Steady(w, rules)
  {
    hide IsValid, Ascending, CellFine, BodyFine, Sound, RiftsFine, Increasing;
    forall i | 0 <= i < |w.organisms|
      ensures w.organisms[i].cladeId in w.clades
    {
      TallyMember(w.organisms, i, OfClade(w.organisms[i].cladeId));
    }
    forall id | id in w.clades
      ensures CladeFine(id, w.clades[id], w.nextCladeId, w.organisms)
    {
      assert ClanFine(id, clades[id], w.nextCladeId);
    }
  }

  lemma {:induction false} TallyMember(os: seq<Organism>, i: nat, key: Key)
    requires i < |os| && Matches(os[i], key)
    ensures Tally(os, key) > 0
  {
    if i < |os| - 1 {
      TallyMember(os[..|os| - 1], i, key);
    }
  }

  // ---- What closing clades keeps ----

  /** Dropping the dead and closing their clades: clades hold together as before, and whatever enters the
      museum was a living clade's reference. */
  lemma CulledCohere(rules: Ruleset, os: seq<Organism>, alive: seq<bool>, clades: map<nat, Clade>, os': seq<Organism>,
      clades': map<nat, Clade>)
    requires |os| == |alive| && os' == Retained(os, alive) && clades' == Living(clades)
    requires forall j :: 0 <= j < |os'| ==> os'[j].cladeId in clades'
    ensures Cohesive(rules, os, clades) ==> Cohesive(rules, os', clades')
  {
    hide Close;
    forall j | 0 <= j < |os'|
      ensures exists i :: 0 <= i < |os| && os'[j] == os[i]
    {
      var i := RetainedFrom(os, alive, j);
    }
  }

  lemma {:induction false} ArchivedValid(rules: Ruleset, museum: seq<MuseumEntry>, clades: map<nat, Clade>, epoch: nat, k: nat)
    requires StockValid(rules, clades, museum)
    ensures MuseumValid(rules, ArchivedUpTo(rules, museum, clades, epoch, k))
  {
    hide IsValid;
    if k > 0 {
      ArchivedValid(rules, museum, clades, epoch, k - 1);
    }
  }

  lemma CulledStock(rules: Ruleset, museum: seq<MuseumEntry>, clades: map<nat, Clade>, epoch: nat, k: nat)
    ensures StockValid(rules, clades, museum) ==>
      StockValid(rules, Living(clades), ArchivedUpTo(rules, museum, clades, epoch, k))
  {
    hide IsValid;
    if StockValid(rules, clades, museum) {
      ArchivedValid(rules, museum, clades, epoch, k);
    }
  }
}
