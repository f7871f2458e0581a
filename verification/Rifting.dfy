/** The rifts move along their schedule at the epoch boundary, core/src/sim.rs:153-240: cells sink, and
    whoever stood on them is carried to the nearest land with room. */
module Rifting {
  import opened Cohesion
  import opened Genomes
  import opened Grid
  import opened Herd
  import opened Kinship
  import opened Options
  import opened Sorting
  import opened Steadiness
  import opened TickState
  import opened WorldState

  // ---- Phases ----

  /** A cell moved along to a phase; it never moves back. */
  function Shifted(c: Cell, phase: RiftPhase): (c': Cell)
    ensures Rank(c'.rift) == if Rank(phase) <= Rank(c.rift) then Rank(c.rift) else Rank(phase)
    ensures c'.biome != c.biome ==> c'.biome == DeepWater || (c'.biome == Shallows && IsLand(c.biome))
  {
    if Rank(phase) <= Rank(c.rift) then c
    else if phase == Sunk && IsLand(c.biome) then c.(rift := phase, biome := Shallows, food := 0)
    else if phase == Deep then Cell(DeepWater, 0, 0, 100, phase)
    else c.(rift := phase)
  }

  /** A rift cracks, faults, sinks and is deep in the order of its schedule, and never comes back. */
  lemma PhasesInTurn(r: Rift, epoch: nat, later: nat)
    requires r.faultEpoch <= r.shallowsEpoch <= r.deepEpoch && epoch <= later
    ensures PhaseAt(r, epoch) != NoRift && Rank(PhaseAt(r, epoch)) <= Rank(PhaseAt(r, later))
    ensures PhaseAt(r, epoch) == Deep <==> r.deepEpoch <= epoch
    ensures PhaseAt(r, epoch) == Sunk <==> r.shallowsEpoch <= epoch < r.deepEpoch
    ensures PhaseAt(r, epoch) == Fault <==> r.faultEpoch <= epoch < r.shallowsEpoch
    ensures PhaseAt(r, epoch) == Crack <==> epoch < r.faultEpoch
  {
  }

  /** What a phase makes of a cell that has not reached it: land becomes shallows without food, anything becomes bare deep
      water in the end, and before that nothing else changes. */
  lemma ShiftedExactly(c: Cell, phase: RiftPhase)
    requires c.rift != phase && c.rift != Deep && phase != NoRift && phase != Crack
    requires c.rift == Sunk ==> phase == Deep
    requires c.rift == Fault ==> phase == Deep || phase == Sunk
    ensures var after := Shifted(c, phase);
      && after.rift == phase
      && (phase == Deep ==> after.biome == DeepWater && after.food == after.detritus == 0 && after.moisture == 100)
      && (phase != Deep ==> after.detritus == c.detritus && after.moisture == c.moisture)
      && (phase == Sunk && c.biome != DeepWater && c.biome != Shallows ==> after.biome == Shallows && after.food == 0)
      && (phase == Fault || (phase == Sunk && (c.biome == DeepWater || c.biome == Shallows)) ==>
            after.biome == c.biome && after.food == c.food)
  {
  }

  predicate Sinks(c: Cell, phase: RiftPhase) {
    Rank(c.rift) < Rank(phase) && phase == Deep
  }

  /** Whatever is deep in the schedule is deep water on the map. */
  predicate DeepIsWater(cells: seq<Cell>) {
    forall c :: 0 <= c < |cells| && cells[c].rift == Deep ==> cells[c].biome == DeepWater
  }

  /** Every rift cell has reached the phase that its schedule gives for an epoch. */
  predicate CaughtUp(rifts: seq<Rift>, cells: seq<Cell>, epoch: nat) {
    forall k :: 0 <= k < |rifts| ==> rifts[k].cell < |cells| && Rank(cells[rifts[k].cell].rift) >= Rank(PhaseAt(rifts[k], epoch))
  }

  /** The ground never rises: land may become shallows, and anything deep water. */
  predicate Lowered(ground: seq<Biome>, ground': seq<Biome>) {
    |ground'| == |ground| && forall c :: 0 <= c < |ground| && ground'[c] != ground[c] ==>
      ground'[c] == DeepWater || (ground'[c] == Shallows && IsLand(ground[c]))
  }

  /** The cells after the first k rifts have moved. */
  ghost predicate ShiftedUpTo(rifts: seq<Rift>, epoch: nat, before: seq<Cell>, cells: seq<Cell>, k: nat) {
    && |cells| == |before| && k <= |rifts| && (forall j :: 0 <= j < |rifts| ==> rifts[j].cell < |cells|)
    && (forall j :: 0 <= j < k ==>
          cells[rifts[j].cell] == Shifted(before[rifts[j].cell], PhaseAt(rifts[j], epoch)))
    && (forall c :: 0 <= c < |cells| && (forall j :: 0 <= j < k ==> rifts[j].cell != c) ==> cells[c] == before[c])
  }

  method ShiftRifts(w: World, rules: Ruleset) returns (sank: bool)
    requires Sound(rules) && CellsFine(rules, w.cells) && RiftsFine(w.rifts, w.cells)
    modifies w`cells
    ensures CellsFine(rules, w.cells) && RiftsFine(w.rifts, w.cells)
    ensures ShiftedUpTo(w.rifts, w.epoch, old(w.cells), w.cells, |w.rifts|)
    ensures sank <==> exists k :: 0 <= k < |w.rifts| && Sinks(old(w.cells)[w.rifts[k].cell], PhaseAt(w.rifts[k], w.epoch))
  {
    hide Sound, CellFine, OnRift, Shifted, PhaseAt;
    var before, rifts, epoch := w.cells, w.rifts, w.epoch;
    sank := false;
    for k := 0 to |rifts|
      invariant w.rifts == rifts && w.epoch == epoch && CellsFine(rules, w.cells)
      invariant ShiftedUpTo(rifts, epoch, before, w.cells, k)
      invariant sank <==> exists j :: 0 <= j < k && Sinks(before[rifts[j].cell], PhaseAt(rifts[j], epoch))
    {
      var c, phase := rifts[k].cell, PhaseAt(rifts[k], epoch);
      assert w.cells[c] == before[c];
      if Sinks(w.cells[c], phase) {
        sank := true;
      }
      ShiftedFine(rules, w.cells[c], phase);
      w.cells := w.cells[c := Shifted(w.cells[c], phase)];
    }
    ShiftedRiftsFine(rifts, epoch, before, w.cells);
  }

  lemma ShiftedFine(rules: Ruleset, c: Cell, phase: RiftPhase)
    requires |rules.biomes| == BIOMES && CellFine(rules, c)
    ensures CellFine(rules, Shifted(c, phase))
  {
  }

  lemma ShiftedRiftsFine(rifts: seq<Rift>, epoch: nat, before: seq<Cell>, cells: seq<Cell>)
    requires RiftsFine(rifts, before) && ShiftedUpTo(rifts, epoch, before, cells, |rifts|)
    ensures RiftsFine(rifts, cells)
  {
    hide Shifted;
    forall c | 0 <= c < |cells|
      ensures OnRift(rifts, c) <==> cells[c].rift != NoRift
    {
      if OnRift(rifts, c) {
        var k :| 0 <= k < |rifts| && rifts[k].cell == c;
        var moved := Shifted(before[c], PhaseAt(rifts[k], epoch));
        assert Rank(moved.rift) >= Rank(before[c].rift) >= 1;
      }
    }
  }

  /** What a move along the schedule does to the whole map. */
  lemma ShiftedGround(rifts: seq<Rift>, epoch: nat, before: seq<Cell>, cells: seq<Cell>)
    requires RiftsFine(rifts, before) && ShiftedUpTo(rifts, epoch, before, cells, |rifts|)
    ensures CaughtUp(rifts, cells, epoch) && Lowered(Ground(before), Ground(cells))
    ensures DeepIsWater(before) ==> DeepIsWater(cells)
  {
    hide PhaseAt;
    forall c | 0 <= c < |cells|
      ensures cells[c] == before[c] || exists phase :: cells[c] == Shifted(before[c], phase)
    {
      if k :| 0 <= k < |rifts| && rifts[k].cell == c {
        assert cells[c] == Shifted(before[c], PhaseAt(rifts[k], epoch));
      }
    }
  }

  /** Unless something sank, everyone still stands. */
  lemma NothingSank(rifts: seq<Rift>, epoch: nat, before: seq<Cell>, cells: seq<Cell>, os: seq<Organism>)
    requires ShiftedUpTo(rifts, epoch, before, cells, |rifts|) && AllStand(before, os)
    requires forall k :: 0 <= k < |rifts| ==> !Sinks(before[rifts[k].cell], PhaseAt(rifts[k], epoch))
    ensures AllStand(cells, os)
  {
    hide PhaseAt;
    forall i | 0 <= i < |os|
      ensures Stands(cells, os[i])
    {
      assert Stands(before, os[i]);
      if k :| 0 <= k < |rifts| && rifts[k].cell == os[i].cell {
        assert cells[os[i].cell] == Shifted(before[os[i].cell], PhaseAt(rifts[k], epoch));
      }
    }
  }

  // ---- How many stand where ----

  /** Organisms per cell. */
  ghost predicate Occupied(occ: seq<nat>, os: seq<Organism>, alive: seq<bool>) {
    |os| == |alive| && forall c :: 0 <= c < |occ| ==> occ[c] == Count(os, alive, InCell(c))
  }

  method Occupancy(os: seq<Organism>, cells: nat) returns (occ: seq<nat>)
    requires forall i :: 0 <= i < |os| ==> os[i].cell < cells
    ensures |occ| == cells && Occupied(occ, os, AllAlive(|os|))
    ensures forall c :: 0 <= c < cells ==> occ[c] == Tally(os, InCell(c))
  {
    occ := seq(cells, _ => 0);
    for i := 0 to |os|
      invariant |occ| == cells && forall c :: 0 <= c < cells ==> occ[c] == Tally(os[..i], InCell(c))
    {
      assert os[..i + 1][..i] == os[..i];
      occ := occ[os[i].cell := occ[os[i].cell] + 1];
    }
    assert os[..|os|] == os;
    forall c | 0 <= c < cells
      ensures occ[c] == Count(os, AllAlive(|os|), InCell(c))
    {
      CountAllAlive(os, AllAlive(|os|), InCell(c));
    }
  }

  /** Organism i leaves its cell. */
  lemma VacateKeeps(occ: seq<nat>, os: seq<Organism>, alive: seq<bool>, i: nat)
    requires Occupied(occ, os, alive) && i < |os| && alive[i] && os[i].cell < |occ|
    ensures occ[os[i].cell] >= 1
    ensures Occupied(occ[os[i].cell := occ[os[i].cell] - 1], os, alive[i := false])
  {
    CountSome(os, alive, i, InCell(os[i].cell));
    forall c | 0 <= c < |occ|
      ensures Count(os, alive[i := false], InCell(c)) == if c == os[i].cell then occ[c] - 1 else occ[c]
    {
      CountWithout(os, alive, i, InCell(c));
    }
  }

  /** Organism i, which stood nowhere, settles in a cell. */
  lemma SettleKeeps(occ: seq<nat>, os: seq<Organism>, alive: seq<bool>, i: nat, to: nat)
    requires Occupied(occ, os, alive) && i < |os| && !alive[i] && to < |occ|
    ensures Occupied(occ[to := occ[to] + 1], os[i := os[i].(cell := to)], alive[i := true])
  {
    var os', alive' := os[i := os[i].(cell := to)], alive[i := true];
    assert alive'[i := false] == alive;
    forall c | 0 <= c < |occ|
      ensures Count(os', alive', InCell(c)) == if c == to then occ[c] + 1 else occ[c]
    {
      CountSame(os, os', alive, InCell(c));
      CountWithout(os', alive', i, InCell(c));
    }
  }

  // ---- The nearest land with room ----

  datatype Offset = Offset(dx: int, dy: int)

  function Square(o: Offset): int {
    o.dx * o.dx + o.dy * o.dy
  }

  /** Nearer in a straight line; then by row, then by column. */
  predicate Nearer(a: Offset, b: Offset) {
    Square(a) < Square(b) || (Square(a) == Square(b) && (a.dy < b.dy || (a.dy == b.dy && a.dx <= b.dx)))
  }

  predicate Wanted(reach: int, o: Offset) {
    -reach <= o.dx <= reach && -reach <= o.dy <= reach && o != Offset(0, 0)
  }

  lemma NearerOrders(offsets: seq<Offset>)
    ensures Orders(Nearer, offsets)
  {
    hide Square;
  }

  method Offsets(reach: nat) returns (offsets: seq<Offset>)
    ensures forall o :: o in offsets <==> Wanted(reach, o)
    ensures Sorted(Nearer, offsets)
  {
    hide Nearer, Sorted, Orders;
    var r: int := reach;
    var list := [];
    for dy := -r to r + 1
      invariant forall o :: o in list <==> Wanted(reach, o) && o.dy < dy
    {
      for dx := -r to r + 1
        invariant forall o :: o in list <==> Wanted(reach, o) && (o.dy < dy || (o.dy == dy && o.dx < dx))
      {
        if Offset(dx, dy) != Offset(0, 0) {
          list := list + [Offset(dx, dy)];
        }
      }
    }
    offsets := Sort(list, Nearer);
    NearerOrders(list);
    SortPermutes(list, Nearer);
    SortSorts(list, Nearer);
    SameElements(offsets, list);
  }

  function OffsetTo(size: Size, from: nat, c: nat): Offset {
    Offset(X(size, c) - X(size, from), Y(size, c) - Y(size, from))
  }

  predicate FreeLand(rules: Ruleset, cells: seq<Cell>, occ: seq<nat>, c: nat) {
    c < |cells| && c < |occ| && IsLand(cells[c].biome) && occ[c] < rules.maxPerCell
  }

  predicate Reachable(rules: Ruleset, from: nat, c: nat) {
    c != from && Chebyshev(rules.size, from, c) <= rules.rifts.rescueRadius
  }

  /** The nearest cell of land with room within reach, if there is one. */
  ghost predicate NearestFree(rules: Ruleset, cells: seq<Cell>, occ: seq<nat>, from: nat, site: Option<nat>) {
    match site
    case None => forall c: nat :: c < |cells| && Reachable(rules, from, c) ==> !FreeLand(rules, cells, occ, c)
    case Some(s) =>
      && FreeLand(rules, cells, occ, s) && Reachable(rules, from, s)
      && (forall c: nat :: c < |cells| && Reachable(rules, from, c) && FreeLand(rules, cells, occ, c) ==>
            Nearer(OffsetTo(rules.size, from, s), OffsetTo(rules.size, from, c)))
  }

  /** The square of a straight distance on the map. */
  ghost function Far(size: Size, a: nat, b: nat): int {
    (X(size, a) - X(size, b)) * (X(size, a) - X(size, b)) + (Y(size, a) - Y(size, b)) * (Y(size, a) - Y(size, b))
  }

  /** The one that is carried lands in the nearest dry cell with room, and of those as near in the first on the map. */
  lemma NearestExactly(rules: Ruleset, cells: seq<Cell>, occ: seq<nat>, from: nat, s: nat, c: nat)
    requires |cells| == |occ| == Cells(rules.size) && NearestFree(rules, cells, occ, from, Some(s))
    requires c < |cells| && c != from && Chebyshev(rules.size, from, c) <= rules.rifts.rescueRadius
    requires cells[c].biome != DeepWater && cells[c].biome != Shallows && occ[c] < rules.maxPerCell
    ensures s < |cells| && cells[s].biome != DeepWater && cells[s].biome != Shallows && occ[s] < rules.maxPerCell
    ensures Far(rules.size, from, s) < Far(rules.size, from, c)
      || (Far(rules.size, from, s) == Far(rules.size, from, c) && s <= c)
  {
    hide Chebyshev;
    SquareIsFar(rules.size, from, s);
    SquareIsFar(rules.size, from, c);
    assert Nearer(OffsetTo(rules.size, from, s), OffsetTo(rules.size, from, c));
    hide Far, X, Y, Square;
    if Far(rules.size, from, s) == Far(rules.size, from, c) {
      RowMajorOrder(rules.size, s, c);
    }
  }

  lemma SquareIsFar(size: Size, from: nat, c: nat)
    ensures Square(OffsetTo(size, from, c)) == Far(size, from, c)
  {
  }

  lemma RowMajorOrder(size: Size, a: nat, b: nat)
    requires a < Cells(size) && b < Cells(size)
    requires Y(size, a) < Y(size, b) || (Y(size, a) == Y(size, b) && X(size, a) <= X(size, b))
    ensures a <= b
  {
    if Y(size, a) < Y(size, b) || X(size, a) < X(size, b) {
      EarlierRow(size, a, b);
    } else {
      CellInside(size, a);
      CellInside(size, b);
    }
  }

  function Landing(size: Size, from: nat, o: Offset): Option<nat> {
    At(size, X(size, from) + o.dx, Y(size, from) + o.dy)
  }

  lemma LandingInverts(rules: Ruleset, from: nat, c: nat)
    requires from < Cells(rules.size) && c < Cells(rules.size)
    ensures Landing(rules.size, from, OffsetTo(rules.size, from, c)) == Some(c)
    ensures Reachable(rules, from, c) <==> Wanted(rules.rifts.rescueRadius, OffsetTo(rules.size, from, c))
  {
    CellInside(rules.size, c);
    CellInside(rules.size, from);
    if OffsetTo(rules.size, from, c) == Offset(0, 0) {
      SamePlace(rules.size, from, c);
    }
  }

  lemma LandingReaches(rules: Ruleset, from: nat, o: Offset)
    requires from < Cells(rules.size) && Landing(rules.size, from, o).Some?
    ensures Landing(rules.size, from, o).value < Cells(rules.size)
    ensures OffsetTo(rules.size, from, Landing(rules.size, from, o).value) == o
  {
  }

  method FindSite(w: World, rules: Ruleset, occ: seq<nat>, from: nat, offsets: seq<Offset>) returns (site: Option<nat>)
    requires |w.cells| == |occ| == Cells(rules.size) && from < |w.cells|
    requires Sorted(Nearer, offsets) && forall o :: o in offsets <==> Wanted(rules.rifts.rescueRadius, o)
    ensures NearestFree(rules, w.cells, occ, from, site)
  {
    hide Landing, FreeLand, Reachable, Nearer, Wanted, OffsetTo;
    for k := 0 to |offsets|
      invariant forall j :: (0 <= j < k && Landing(rules.size, from, offsets[j]).Some?) ==>
        !FreeLand(rules, w.cells, occ, Landing(rules.size, from, offsets[j]).value)
    {
      var c := Landing(rules.size, from, offsets[k]);
      if c.Some? && FreeLand(rules, w.cells, occ, c.value) {
        LandingReaches(rules, from, offsets[k]);
        assert offsets[k] in offsets;
        LandingInverts(rules, from, c.value);
        forall d: nat | d < |w.cells| && Reachable(rules, from, d) && FreeLand(rules, w.cells, occ, d)
          ensures Nearer(OffsetTo(rules.size, from, c.value), OffsetTo(rules.size, from, d))
        {
          LandingInverts(rules, from, d);
          var j :| 0 <= j < |offsets| && offsets[j] == OffsetTo(rules.size, from, d);
          NearerHere(offsets[k]);
        }
        return c;
      }
    }
    forall d: nat | d < |w.cells| && Reachable(rules, from, d)
      ensures !FreeLand(rules, w.cells, occ, d)
    {
      LandingInverts(rules, from, d);
      var j :| 0 <= j < |offsets| && offsets[j] == OffsetTo(rules.size, from, d);
    }
    site := None;
  }

  lemma NearerHere(o: Offset)
    ensures Nearer(o, o)
  {
  }

  // ---- Rescue ----

  /** The organisms and who lives when it is organism j's turn to be carried. */
  function Meanwhile(before: seq<Organism>, moved: seq<Organism>, j: nat): seq<Organism>
    requires j <= |before| == |moved|
  {
    moved[..j] + before[j..]
  }

  function StillAlive(alive: seq<bool>, j: nat): seq<bool>
    requires j <= |alive|
  {
    alive[..j] + AllAlive(|alive| - j)
  }

  /** What becomes of organism j: nothing on ground that is not deep water; otherwise it goes to the nearest
      land with room as others then stand, and drowns when there is none. */
  ghost predicate Carried(rules: Ruleset, cells: seq<Cell>, before: seq<Organism>, moved: seq<Organism>, alive: seq<bool>,
      j: nat)
    requires j < |before| == |moved| == |alive|
  {
    && moved[j] == before[j].(cell := moved[j].cell)
    && if Stands(cells, before[j]) then moved[j] == before[j] && alive[j]
       else
         && (!alive[j] ==> moved[j] == before[j])
         && (exists occ :: |occ| == |cells| && Occupied(occ, Meanwhile(before, moved, j), StillAlive(alive, j)[j := false])
               && NearestFree(rules, cells, occ, before[j].cell, if alive[j] then Some(moved[j].cell) else None))
  }

  /** Everyone before k has been carried, everyone else waits. */
  ghost predicate CarriedUpTo(rules: Ruleset, cells: seq<Cell>, before: seq<Organism>, moved: seq<Organism>,
      alive: seq<bool>, k: nat)
  {
    && k <= |before| == |moved| == |alive|
    && (forall j :: k <= j < |before| ==> moved[j] == before[j] && alive[j])
    && (forall j :: 0 <= j < k ==> Carried(rules, cells, before, moved, alive, j))
  }

  lemma CarriedNext(rules: Ruleset, cells: seq<Cell>, before: seq<Organism>, moved: seq<Organism>, alive: seq<bool>,
      k: nat, moved': seq<Organism>, alive': seq<bool>, occ: seq<nat>, site: Option<nat>)
    requires CarriedUpTo(rules, cells, before, moved, alive, k) && k < |before| && !Stands(cells, before[k])
    requires |occ| == |cells| && Occupied(occ, moved, alive[k := false])
    requires NearestFree(rules, cells, occ, before[k].cell, site)
    requires moved' == if site == None then moved else moved[k := moved[k].(cell := site.value)]
    requires alive' == if site == None then alive[k := false] else alive
    ensures CarriedUpTo(rules, cells, before, moved', alive', k + 1)
  {
    hide Stands, NearestFree, Occupied;
    assert Meanwhile(before, moved', k) == moved;
    assert StillAlive(alive', k)[k := false] == alive[k := false];
    assert Carried(rules, cells, before, moved', alive', k);
    forall j | 0 <= j < k
      ensures Carried(rules, cells, before, moved', alive', j)
    {
      assert Carried(rules, cells, before, moved, alive, j);
      assert Meanwhile(before, moved', j) == Meanwhile(before, moved, j) && StillAlive(alive', j) == StillAlive(alive, j);
    }
  }

  lemma CarriedNobody(rules: Ruleset, cells: seq<Cell>, before: seq<Organism>, moved: seq<Organism>, alive: seq<bool>, k: nat)
    requires CarriedUpTo(rules, cells, before, moved, alive, k) && k < |before| && Stands(cells, before[k])
    ensures CarriedUpTo(rules, cells, before, moved, alive, k + 1)
  {
    hide Stands, NearestFree, Occupied, Meanwhile, StillAlive;
  }

  /** The counts that hold while organisms are carried. */
  ghost predicate Boarded(rules: Ruleset, cells: seq<Cell>, os: seq<Organism>, alive: seq<bool>, occ: seq<nat>,
      clades: map<nat, Clade>, nextClade: nat)
  {
    && |os| == |alive| && |occ| == |cells| && Occupied(occ, os, alive)
    && (forall c :: 0 <= c < |occ| ==> occ[c] <= rules.maxPerCell)
    && (forall j :: 0 <= j < |os| ==> os[j].cell < |cells|)
    && ClansFine(os, alive, clades, nextClade) && Count(os, alive, Anyone) <= rules.maxOrganisms
  }

  /** Organism k goes ashore. */
  lemma AshoreKeeps(rules: Ruleset, cells: seq<Cell>, os: seq<Organism>, alive: seq<bool>, occ: seq<nat>,
      clades: map<nat, Clade>, nextClade: nat, k: nat, to: nat)
    requires Boarded(rules, cells, os, alive, occ, clades, nextClade) && k < |os| && alive[k]
    requires occ[os[k].cell] >= 1 && to < |occ|
    requires occ[os[k].cell := occ[os[k].cell] - 1][to] < rules.maxPerCell
    ensures var left := occ[os[k].cell := occ[os[k].cell] - 1];
      Boarded(rules, cells, os[k := os[k].(cell := to)], alive, left[to := left[to] + 1], clades, nextClade)
  {
    hide ClansFine, Count;
    var os' := os[k := os[k].(cell := to)];
    VacateKeeps(occ, os, alive, k);
    SettleKeeps(occ[os[k].cell := occ[os[k].cell] - 1], os, alive[k := false], k, to);
    assert alive[k := false][k := true] == alive;
    SameClansKeepClans(os, os', alive, clades, nextClade);
    CountSame(os, os', alive, Anyone);
  }

  /** Organism k drowns. */
  lemma DrownKeeps(rules: Ruleset, cells: seq<Cell>, os: seq<Organism>, alive: seq<bool>, occ: seq<nat>,
      clades: map<nat, Clade>, nextClade: nat, k: nat)
    requires Boarded(rules, cells, os, alive, occ, clades, nextClade) && k < |os| && alive[k]
    ensures occ[os[k].cell] >= 1 && os[k].cladeId in clades && clades[os[k].cladeId].living > 0
    ensures Boarded(rules, cells, os, alive[k := false], occ[os[k].cell := occ[os[k].cell] - 1],
      Fewer(clades, os[k].cladeId), nextClade)
  {
    hide ClansFine, Count;
    VacateKeeps(occ, os, alive, k);
    DeathKeepsClans(os, alive, clades, nextClade, k);
    CountWithout(os, alive, k, Anyone);
  }

  lemma BoardedAtFirst(w: World, rules: Ruleset, occ: seq<nat>)
    requires Peopled(w, rules) && |occ| == |w.cells| == Cells(rules.size)
    requires Occupied(occ, w.organisms, AllAlive(|w.organisms|))
    requires forall c :: 0 <= c < |occ| ==> occ[c] == Tally(w.organisms, InCell(c))
    requires forall j :: 0 <= j < |w.organisms| ==> w.organisms[j].cell < |w.cells|
    ensures Boarded(rules, w.cells, w.organisms, AllAlive(|w.organisms|), occ, w.clades, w.nextCladeId)
    ensures CarriedUpTo(rules, w.cells, w.organisms, w.organisms, AllAlive(|w.organisms|), 0)
  {
    hide ClansFine, Count, Tally, CladeFine, IsValid, Sound, Ascending, Occupied;
    ClansFromSteady(w, rules, AllAlive(|w.organisms|));
  }

  lemma CarriedStand(rules: Ruleset, cells: seq<Cell>, before: seq<Organism>, moved: seq<Organism>, alive: seq<bool>)
    requires CarriedUpTo(rules, cells, before, moved, alive, |before|)
    ensures forall j :: 0 <= j < |moved| && alive[j] ==> Stands(cells, moved[j])
    ensures forall j :: 0 <= j < |moved| ==> moved[j] == before[j].(cell := moved[j].cell)
  {
    hide Reachable, Occupied, Nearer, OffsetTo;
    forall j | 0 <= j < |moved|
      ensures alive[j] ==> Stands(cells, moved[j])
      ensures moved[j] == before[j].(cell := moved[j].cell)
    {
      assert Carried(rules, cells, before, moved, alive, j);
    }
  }

  lemma CarriedGather(w: World, rules: Ruleset, before: seq<Organism>, alive: seq<bool>, occ: seq<nat>)
    requires Sound(rules) && CellsFine(rules, w.cells) && Ascending(before, w.nextOrganismId)
    requires forall i :: 0 <= i < |before| ==>
      IsValid(before[i].genome, rules.traitBudget) && 0 < before[i].energy <= rules.energyMax
    requires CarriedUpTo(rules, w.cells, before, w.organisms, alive, |before|)
    requires Boarded(rules, w.cells, w.organisms, alive, occ, w.clades, w.nextCladeId)
    ensures Gathered(rules, w.cells, Retained(w.organisms, alive), w.nextOrganismId, w.clades, w.nextCladeId)
  {
    hide Sound, CellsFine, IsValid, ClansFine, Count, Carried;
    CarriedStand(rules, w.cells, before, w.organisms, alive);
    RetainedGathers(rules, w.cells, w.organisms, alive, w.nextOrganismId, w.clades, w.nextCladeId);
  }

  lemma {:induction false} NobodyDropped(os: seq<Organism>, alive: seq<bool>)
    requires |os| == |alive| && forall i :: 0 <= i < |alive| ==> alive[i]
    ensures Retained(os, alive) == os
  {
    if os != [] {
      NobodyDropped(os[..|os| - 1], alive[..|os| - 1]);
    }
  }

  lemma NobodyClosed(w: World, rules: Ruleset)
    requires Peopled(w, rules)
    ensures Living(w.clades) == w.clades
  {
    hide Tally, Sound, IsValid;
    forall id | id in w.clades
      ensures w.clades[id].living > 0
    {
      assert CladeFine(id, w.clades[id], w.nextCladeId, w.organisms);
    }
  }

  lemma PassableStands(rules: Ruleset, cells: seq<Cell>, o: Organism)
    requires Sound(rules) && o.cell < |cells|
    ensures Stands(cells, o) <==> rules.biomes[BiomeCode(cells[o.cell].biome)].passable
  {
  }

  lemma BoardedFacts(rules: Ruleset, cells: seq<Cell>, os: seq<Organism>, alive: seq<bool>, occ: seq<nat>,
      clades: map<nat, Clade>, nextClade: nat, i: nat)
    requires Boarded(rules, cells, os, alive, occ, clades, nextClade) && i < |os| && alive[i]
    ensures |os| == |alive| && |occ| == |cells| && os[i].cell < |cells| && occ[os[i].cell] >= 1
    ensures Occupied(occ[os[i].cell := occ[os[i].cell] - 1], os, alive[i := false])
  {
    hide ClansFine, Count;
    VacateKeeps(occ, os, alive, i);
  }

  /** Organism i's turn to be carried. */
  method CarryOne(w: World, rules: Ruleset, occ: seq<nat>, living: seq<bool>, offsets: seq<Offset>, i: nat,
      ghost before: seq<Organism>) returns (occ': seq<nat>, living': seq<bool>)
    requires Sound(rules) && |rules.biomes| == BIOMES && |w.cells| == Cells(rules.size) && i < |before|
    requires CarriedUpTo(rules, w.cells, before, w.organisms, living, i) && |w.organisms| == |living| == |before|
    requires Boarded(rules, w.cells, w.organisms, living, occ, w.clades, w.nextCladeId)
    requires w.organisms[i] == before[i] && living[i]
    requires Sorted(Nearer, offsets) && forall o :: o in offsets <==> Wanted(rules.rifts.rescueRadius, o)
    modifies w`organisms, w`clades
    ensures |w.organisms| == |living'| == |before|
    ensures CarriedUpTo(rules, w.cells, before, w.organisms, living', i + 1) && SameRefs(old(w.clades), w.clades)
    ensures Boarded(rules, w.cells, w.organisms, living', occ', w.clades, w.nextCladeId)
    ensures living' == living || living' == living[i := false]
    ensures living' == living ==> w.clades == old(w.clades)
  {
    hide Boarded, Carried, CarriedUpTo, Occupied, NearestFree, Sound, Nearer, Sorted, Count, Stands, Wanted, SameRefs;
    occ', living' := occ, living;
    SameRefsHere(w.clades);
    var from := w.organisms[i].cell;
    BoardedFacts(rules, w.cells, w.organisms, living, occ, w.clades, w.nextCladeId, i);
    PassableStands(rules, w.cells, before[i]);
    if rules.biomes[BiomeCode(w.cells[from].biome)].passable {
      CarriedNobody(rules, w.cells, before, w.organisms, living, i);
      return;
    }
    occ' := occ[from := occ[from] - 1];
    var site := FindSite(w, rules, occ', from, offsets);
    if site.Some? {
      SiteHasRoom(rules, w.cells, occ', from, site.value);
      AshoreKeeps(rules, w.cells, w.organisms, living, occ, w.clades, w.nextCladeId, i, site.value);
      CarriedNext(rules, w.cells, before, w.organisms, living, i, w.organisms[i := w.organisms[i].(cell := site.value)],
        living, occ', site);
      w.organisms := w.organisms[i := w.organisms[i].(cell := site.value)];
      occ' := occ'[site.value := occ'[site.value] + 1];
    } else {
      DrownKeeps(rules, w.cells, w.organisms, living, occ, w.clades, w.nextCladeId, i);
      CarriedNext(rules, w.cells, before, w.organisms, living, i, w.organisms, living[i := false], occ', site);
      living' := living[i := false];
      FewerSameRefs(w.clades, w.organisms[i].cladeId);
      w.clades := Fewer(w.clades, w.organisms[i].cladeId);
    }
  }

  lemma SiteHasRoom(rules: Ruleset, cells: seq<Cell>, occ: seq<nat>, from: nat, site: nat)
    requires NearestFree(rules, cells, occ, from, Some(site))
    ensures site < |occ| && site < |cells| && occ[site] < rules.maxPerCell
  {
  }

  lemma WaitingForCarriage(rules: Ruleset, cells: seq<Cell>, before: seq<Organism>, moved: seq<Organism>,
      alive: seq<bool>, i: nat)
    requires CarriedUpTo(rules, cells, before, moved, alive, i) && i < |before|
    ensures |before| == |moved| == |alive| && moved[i] == before[i] && alive[i]
  {
  }

  /** The clades and the museum after some deaths: references stay, clades without members are closed, and
      named ones are in the museum. */
  ghost predicate Culled(rules: Ruleset, clades: map<nat, Clade>, museum: seq<MuseumEntry>, epoch: nat, nextClade: nat,
      left: map<nat, Clade>, os: seq<Organism>, alive: seq<bool>, clades': map<nat, Clade>, museum': seq<MuseumEntry>)
  {
    && |os| == |alive| && SameRefs(clades, left) && ClansFine(os, alive, left, nextClade)
    && clades' == Living(left) && museum' == ArchivedUpTo(rules, museum, left, epoch, nextClade)
  }

  lemma NobodyCulled(w: World, rules: Ruleset)
    requires Peopled(w, rules)
    ensures Culled(rules, w.clades, w.museum, w.epoch, w.nextCladeId, w.clades, w.organisms, AllAlive(|w.organisms|),
      w.clades, w.museum)
  {
    hide ClansFine;
    NobodyClosed(w, rules);
    NobodyArchived(rules, w.museum, w.clades, w.epoch, w.nextCladeId);
    ClansFromSteady(w, rules, AllAlive(|w.organisms|));
  }

  lemma {:induction false} NobodyArchived(rules: Ruleset, museum: seq<MuseumEntry>, clades: map<nat, Clade>, epoch: nat, k: nat)
    requires forall id :: id in clades ==> clades[id].living > 0
    ensures ArchivedUpTo(rules, museum, clades, epoch, k) == museum
  {
    if k > 0 {
      NobodyArchived(rules, museum, clades, epoch, k - 1);
    }
  }

  /** Deaths leave clades that held together so, and valid references valid. */
  lemma CulledKeep(rules: Ruleset, os: seq<Organism>, clades: map<nat, Clade>, museum: seq<MuseumEntry>, epoch: nat,
      nextClade: nat, left: map<nat, Clade>, moved: seq<Organism>, alive: seq<bool>, os': seq<Organism>,
      clades': map<nat, Clade>, museum': seq<MuseumEntry>)
    requires Culled(rules, clades, museum, epoch, nextClade, left, moved, alive, clades', museum')
    requires SameKin(os, moved) && os' == Retained(moved, alive)
    requires forall j :: 0 <= j < |os'| ==> os'[j].cladeId in clades'
    ensures Cohesive(rules, os, clades) ==> Cohesive(rules, os', clades')
    ensures StockValid(rules, clades, museum) ==> StockValid(rules, clades', museum')
  {
    hide ClansFine, Cohesive, Retained, Living, ArchivedUpTo, SameRefs, SameKin;
    SameKinCohere(rules, os, clades, moved, left);
    CulledCohere(rules, moved, alive, left, os', clades');
    CulledStock(rules, museum, left, epoch, nextClade);
  }

  lemma CarriedSameKin(rules: Ruleset, cells: seq<Cell>, before: seq<Organism>, moved: seq<Organism>, alive: seq<bool>)
    requires CarriedUpTo(rules, cells, before, moved, alive, |before|)
    ensures SameKin(before, moved)
  {
    hide Carried;
    CarriedStand(rules, cells, before, moved, alive);
  }

  /** Carries organisms off cells that sank, in order of id. */
  method Rescue(w: World, rules: Ruleset)
    returns (ghost moved: seq<Organism>, ghost alive: seq<bool>, ghost left: map<nat, Clade>)
    requires Peopled(w, rules) && CellsFine(rules, w.cells) && RiftsFine(w.rifts, w.cells)
    requires |w.cells| == Cells(rules.size)
    requires forall i :: 0 <= i < |w.organisms| ==> w.organisms[i].cell < |w.cells|
    modifies w`organisms, w`clades, w`museum
    ensures Steady(w, rules)
    ensures CarriedUpTo(rules, w.cells, old(w.organisms), moved, alive, |old(w.organisms)|)
    ensures w.organisms == Retained(moved, alive)
    ensures Culled(rules, old(w.clades), old(w.museum), w.epoch, w.nextCladeId, left, moved, alive, w.clades, w.museum)
  {
    hide Peopled, CellsFine, RiftsFine, ClansFine, Count, Carried, CarriedUpTo, Occupied, NearestFree, Steady,
      Gathered, IsValid, Ascending, Nearer, Sorted, Sound, Boarded, Wanted, Living, Increasing, Retained, Tally,
      SameRefs, ArchivedUpTo;
    SameRefsHere(w.clades);
    var before := w.organisms;
    var living := AllAlive(|before|);
    PeopledFacts(w, rules);
    NobodyCulled(w, rules);
    var occ := Occupancy(before, |w.cells|);
    var offsets := Offsets(rules.rifts.rescueRadius);
    BoardedAtFirst(w, rules, occ);
    var any := false;
    for i := 0 to |before|
      invariant |w.organisms| == |living| == |before| && w.museum == old(w.museum) && SameRefs(old(w.clades), w.clades)
      invariant CarriedUpTo(rules, w.cells, before, w.organisms, living, i)
      invariant Boarded(rules, w.cells, w.organisms, living, occ, w.clades, w.nextCladeId)
      invariant !any ==> w.clades == old(w.clades) && forall k :: 0 <= k < |living| ==> living[k]
    {
      WaitingForCarriage(rules, w.cells, before, w.organisms, living, i);
      ghost var clades := w.clades;
      occ, living := CarryOne(w, rules, occ, living, offsets, i, before);
      SameRefsThrough(old(w.clades), clades, w.clades);
      any := any || !living[i];
    }
    moved, alive, left := w.organisms, living, w.clades;
    CarriedGather(w, rules, before, living, occ);
    BoardedClans(rules, w.cells, moved, alive, occ, left, w.nextCladeId);
    if any {
      w.organisms := Keep(w.organisms, living);
      CloseExtinctClades(w, rules);
    } else {
      NobodyDropped(w.organisms, living);
    }
    ClosedIsSteady(w, rules, left);
  }

  lemma PeopledFacts(w: World, rules: Ruleset)
    requires Peopled(w, rules)
    ensures Sound(rules) && w.size == rules.size && Ascending(w.organisms, w.nextOrganismId)
    ensures |rules.biomes| == BIOMES
    ensures forall i :: 0 <= i < |w.organisms| ==>
      IsValid(w.organisms[i].genome, rules.traitBudget) && 0 < w.organisms[i].energy <= rules.energyMax
    ensures |w.museum| <= rules.museumCapacity && Increasing(w.revivals)
  {
  }

  lemma BoardedClans(rules: Ruleset, cells: seq<Cell>, os: seq<Organism>, alive: seq<bool>, occ: seq<nat>,
      clades: map<nat, Clade>, nextClade: nat)
    requires Boarded(rules, cells, os, alive, occ, clades, nextClade)
    ensures |os| == |alive| && ClansFine(os, alive, clades, nextClade)
  {
  }

  /** Step 1 of the epoch boundary: every rift cell reaches its phase and nobody is left on deep water.
      Where nothing sank, nobody moves. */
  method RiftChanges(w: World, rules: Ruleset)
    returns (ghost moved: seq<Organism>, ghost alive: seq<bool>, ghost left: map<nat, Clade>)
    requires Steady(w, rules)
    modifies w`cells, w`organisms, w`clades, w`museum
    ensures Steady(w, rules)
    ensures ShiftedUpTo(w.rifts, w.epoch, old(w.cells), w.cells, |w.rifts|)
    ensures CaughtUp(w.rifts, w.cells, w.epoch) && Lowered(Ground(old(w.cells)), Ground(w.cells))
    ensures DeepIsWater(old(w.cells)) ==> DeepIsWater(w.cells)
    ensures CarriedUpTo(rules, w.cells, old(w.organisms), moved, alive, |old(w.organisms)|)
    ensures w.organisms == Retained(moved, alive)
    ensures Culled(rules, old(w.clades), old(w.museum), w.epoch, w.nextCladeId, left, moved, alive, w.clades, w.museum)
    ensures old(Cohesive(rules, w.organisms, w.clades)) ==> Cohesive(rules, w.organisms, w.clades)
    ensures old(StockValid(rules, w.clades, w.museum)) ==> StockValid(rules, w.clades, w.museum)
  {
    hide Steady, Peopled, CellsFine, RiftsFine, Sound, ShiftedUpTo, AllStand, CaughtUp, Lowered, DeepIsWater,
      CarriedUpTo, Retained, PhaseAt, Culled, Cohesive, StockValid;
    SteadyIsPeopleOnGround(w, rules);
    PeopledFacts(w, rules);
    AllInRange(rules, w.cells, w.organisms);
    ghost var before := w.cells;
    var sank := ShiftRifts(w, rules);
    ShiftedGround(w.rifts, w.epoch, before, w.cells);
    ShiftedLength(w.rifts, w.epoch, before, w.cells);
    if sank {
      moved, alive, left := Rescue(w, rules);
    } else {
      NothingSank(w.rifts, w.epoch, before, w.cells, w.organisms);
      SteadyIsPeopleOnGround(w, rules);
      moved, alive, left := w.organisms, AllAlive(|w.organisms|), w.clades;
      NobodyCulled(w, rules);
      NobodyDropped(w.organisms, alive);
      NobodyCarried(rules, w.cells, w.organisms);
    }
    CarriedSameKin(rules, w.cells, old(w.organisms), moved, alive);
    EveryoneBelongs(w, rules);
    CulledKeep(rules, old(w.organisms), old(w.clades), old(w.museum), w.epoch, w.nextCladeId, left, moved, alive,
      w.organisms, w.clades, w.museum);
  }

  lemma AllInRange(rules: Ruleset, cells: seq<Cell>, os: seq<Organism>)
    requires CellsFine(rules, cells) && AllStand(cells, os)
    ensures |cells| == Cells(rules.size) && forall i :: 0 <= i < |os| ==> os[i].cell < |cells|
  {
  }

  lemma ShiftedLength(rifts: seq<Rift>, epoch: nat, before: seq<Cell>, cells: seq<Cell>)
    requires ShiftedUpTo(rifts, epoch, before, cells, |rifts|)
    ensures |cells| == |before|
  {
  }

  lemma NobodyCarried(rules: Ruleset, cells: seq<Cell>, os: seq<Organism>)
    requires AllStand(cells, os)
    ensures CarriedUpTo(rules, cells, os, os, AllAlive(|os|), |os|)
  {
    forall j | 0 <= j < |os|
      ensures Carried(rules, cells, os, os, AllAlive(|os|), j)
    {
      assert os[j].(cell := os[j].cell) == os[j];
    }
  }
}
