/** When a miracle is possible, core/src/miracle.rs:351-470, in counts of organisms and distances on the map. */
module Possible {
  import opened Genomes
  import opened Grid
  import opened Hashing
  import opened Miracles
  import opened Options
  import opened WorldState

  /** At most r columns and r rows apart. */
  ghost predicate InSquare(size: Size, a: nat, b: nat, r: int) {
    -r <= X(size, a) - X(size, b) <= r && -r <= Y(size, a) - Y(size, b) <= r
  }

  ghost function PeopleNear(size: Size, os: seq<Organism>, center: nat, r: nat): set<nat> {
    set i | 0 <= i < |os| && InSquare(size, os[i].cell, center, r)
  }

  ghost function MembersNear(size: Size, os: seq<Organism>, id: nat, center: nat, r: nat): set<nat> {
    set i | 0 <= i < |os| && os[i].cladeId == id && InSquare(size, os[i].cell, center, r)
  }

  ghost function PeopleIn(os: seq<Organism>, c: nat): set<nat> {
    set i | 0 <= i < |os| && os[i].cell == c
  }

  /** Something a miracle demands, and the refusal if it is not met. */
  datatype Demand = Demand(met: bool, why: Refusal)

  /** Nothing stands in the way exactly when every demand is met; otherwise the first one that is not decides. */
  ghost predicate Decides(demands: seq<Demand>, r: Option<Refusal>) {
    match r
    case None => forall k :: 0 <= k < |demands| ==> demands[k].met
    case Some(why) => exists k :: 0 <= k < |demands| && demands[k].why == why && FirstNotMet(demands, k)
  }

  ghost predicate FirstNotMet(demands: seq<Demand>, k: nat) {
    k < |demands| && !demands[k].met && forall j :: 0 <= j < k ==> demands[j].met
  }

  /** Every cooldown of a kind that concerns these keys has run out. */
  ghost predicate RunOut(cooldowns: seq<Cooldown>, epoch: nat, kind: u8, keys: iset<nat>) {
    forall k :: 0 <= k < |cooldowns| && cooldowns[k].kind == kind && cooldowns[k].key in keys ==> cooldowns[k].until <= epoch
  }

  // ---- Weather ----

  ghost function WeatherDemands(rules: Ruleset, s: Situation, center: nat): seq<Demand> {
    var reach := rules.miracles.weatherRadius;
    [Demand(center < |s.cells|, OutsideMap),
     Demand(forall k :: 0 <= k < |s.effects| ==>
         !InSquare(rules.size, s.effects[k].center, center, s.effects[k].radius + reach), Overlaps),
     Demand(RunOut(s.cooldowns, s.epoch, 0, iset c: nat | InSquare(rules.size, c, center, 2 * reach)), RegionCooling)]
  }

  /** Weather is possible exactly on the map, clear of every running effect, where no weather was bought of late. */
  lemma WeatherExactly(rules: Ruleset, s: Situation, center: nat, rain: bool)
    ensures Decides(WeatherDemands(rules, s, center), Check(rules, s, Weather(center, rain)))
  {
    hide X, Y;
    var demands := WeatherDemands(rules, s, center);
    assert demands[0].why == OutsideMap && demands[1].why == Overlaps && demands[2].why == RegionCooling;
  }

  // ---- Relocations ----

  ghost predicate RoomNear(rules: Ruleset, cells: seq<Cell>, os: seq<Organism>, center: nat) {
    exists c: nat :: c < |cells| && InSquare(rules.size, c, center, 1) && IsLand(cells[c].biome)
      && |PeopleIn(os, c)| < rules.maxPerCell
  }

  ghost function MigrateDemands(rules: Ruleset, s: Situation, id: nat, from: nat, to: nat): seq<Demand> {
    [Demand(from < |s.cells| && to < |s.cells|, OutsideMap),
     Demand(id in s.clades && s.clades[id].living > 0, NoSuchClade),
     Demand(rules.miracles.migrateMin <= |MembersNear(rules.size, s.organisms, id, from, rules.miracles.migrateRadius)|, TooFew),
     Demand(RunOut(s.cooldowns, s.epoch, 1, iset{id}), CladeCooling),
     Demand(RoomNear(rules, s.cells, s.organisms, to), NoFreeLand)]
  }

  /** A relocation is possible exactly when the clade lives, enough of it stands around the source, it was not relocated of
      late, and some land by the target has room. */
  lemma MigrateExactly(rules: Ruleset, s: Situation, id: nat, from: nat, to: nat)
    ensures Decides(MigrateDemands(rules, s, id, from, to), Check(rules, s, Migrate(id, from, to)))
  {
    NearbyCounts(rules.size, s.organisms, Some(id), from, rules.miracles.migrateRadius);
    SameRoom(rules, s.cells, s.organisms, to);
    hide X, Y, Nearby, RoomNear, RoomAround, Chebyshev;
    assert MembersNear(rules.size, s.organisms, id, from, rules.miracles.migrateRadius)
      == NearOnes(rules.size, s.organisms, Some(id), from, rules.miracles.migrateRadius);
    var demands := MigrateDemands(rules, s, id, from, to);
    assert demands[0].why == OutsideMap && demands[1].why == NoSuchClade && demands[2].why == TooFew;
    assert demands[3].why == CladeCooling && demands[4].why == NoFreeLand;
  }

  ghost function NearOnes(size: Size, os: seq<Organism>, clade: Option<nat>, center: nat, r: nat): set<nat> {
    set i | 0 <= i < |os| && (clade == None || os[i].cladeId == clade.value) && InSquare(size, os[i].cell, center, r)
  }

  lemma {:induction false} NearbyCounts(size: Size, os: seq<Organism>, clade: Option<nat>, center: nat, r: nat)
    ensures Nearby(size, os, clade, center, r) == |NearOnes(size, os, clade, center, r)|
  {
    if os != [] {
      var n := |os| - 1;
      NearbyCounts(size, os[..n], clade, center, r);
      var before := NearOnes(size, os[..n], clade, center, r);
      assert NearOnes(size, os, clade, center, r) == before + if IsNear(size, os[n], clade, center, r) then {n} else {};
      assert n !in before;
    }
  }

  lemma {:induction false} TallyCounts(os: seq<Organism>, c: nat)
    ensures Tally(os, InCell(c)) == |PeopleIn(os, c)|
  {
    if os != [] {
      var n := |os| - 1;
      TallyCounts(os[..n], c);
      assert PeopleIn(os, c) == PeopleIn(os[..n], c) + if os[n].cell == c then {n} else {};
      assert n !in PeopleIn(os[..n], c);
    }
  }

  lemma SameRoom(rules: Ruleset, cells: seq<Cell>, os: seq<Organism>, center: nat)
    ensures RoomAround(rules, cells, os, center) <==> RoomNear(rules, cells, os, center)
  {
    hide Tally, PeopleIn, X, Y;
    forall c: nat
      ensures Tally(os, InCell(c)) == |PeopleIn(os, c)|
    {
      TallyCounts(os, c);
    }
    if RoomAround(rules, cells, os, center) {
      var c: nat :| c < |cells| && Chebyshev(rules.size, center, c) <= 1 && IsLand(cells[c].biome)
        && Tally(os, InCell(c)) < rules.maxPerCell;
      assert InSquare(rules.size, c, center, 1);
    }
    if RoomNear(rules, cells, os, center) {
      var c: nat :| c < |cells| && InSquare(rules.size, c, center, 1) && IsLand(cells[c].biome)
        && |PeopleIn(os, c)| < rules.maxPerCell;
      assert Chebyshev(rules.size, center, c) <= 1;
    }
  }

  // ---- Revivals ----

  /** The first museum entry of a clade. */
  ghost predicate Oldest(museum: seq<MuseumEntry>, id: nat, k: nat) {
    k < |museum| && museum[k].cladeId == id && forall j :: 0 <= j < k ==> museum[j].cladeId != id
  }

  /** Gone for less than the time a clade must be extinct before it is revived. */
  ghost predicate IsRecent(rules: Ruleset, e: MuseumEntry, epoch: nat) {
    epoch - e.extinctEpoch < rules.miracles.reviveExtinctEpochs
  }

  /** The genome a revival starts from. */
  ghost predicate StartsFrom(s: Situation, fromMuseum: bool, id: nat, g: Genome) {
    if fromMuseum then exists k: nat :: Oldest(s.museum, id, k) && s.museum[k].reference == g
    else id < |s.sporeBank| && s.sporeBank[id].genome == g
  }

  /** A point can go from the first trait of a step, which has one, to the second, which is not full; only six traits
      are edited. */
  ghost predicate CanStep(t: Lanes, step: (nat, nat)) {
    step.0 < 6 && step.1 < 6 && step.0 != step.1 && t[step.0] >= 1 && t[step.1] <= 7
  }

  /** At most two steps, the second possible after the first. */
  ghost predicate StepsPossible(g: Genome, steps: seq<(nat, nat)>) {
    && |steps| <= 2
    && (|steps| >= 1 ==> CanStep(g.lanes, steps[0]))
    && (|steps| == 2 ==> forall after: Lanes :: IsAfter(g.lanes, steps[0], after) ==> CanStep(after, steps[1]))
  }

  /** One point less, one point more, the rest as it was. */
  ghost predicate IsAfter(t: Lanes, step: (nat, nat), after: Lanes) {
    forall lane :: 0 <= lane < LANES ==>
      after[lane] + (if lane == step.0 then 1 else 0) == t[lane] + (if lane == step.1 then 1 else 0)
  }

  ghost function ReviveDemands(rules: Ruleset, s: Situation, fromMuseum: bool, id: nat, steps: seq<(nat, nat)>, at: nat)
    : seq<Demand>
  {
    [Demand(at < |s.cells| && IsLand(s.cells[at].biome), NotLand),
     Demand(exists g :: StartsFrom(s, fromMuseum, id, g), NoSuchEntry),
     Demand(fromMuseum ==> forall k: nat :: Oldest(s.museum, id, k) ==>
         !IsRecent(rules, s.museum[k], s.epoch), TooRecent),
     Demand(forall g :: StartsFrom(s, fromMuseum, id, g) ==> StepsPossible(g, steps), NotEditable),
     Demand(RunOut(s.cooldowns, s.epoch, if fromMuseum then 2 else 3, iset{id}), EntryCooling),
     Demand(|PeopleNear(rules.size, s.organisms, at, rules.miracles.reviveRadius)| <= rules.miracles.reviveMaxNearby, TooCrowded)]
  }

  lemma {:induction false} EntryIsOldest(museum: seq<MuseumEntry>, id: nat, k: nat)
    requires Oldest(museum, id, k)
    ensures EntryOf(museum, id) == Some(museum[k])
  {
    if k > 0 {
      assert museum[1..][k - 1] == museum[k];
      EntryIsOldest(museum[1..], id, k - 1);
    }
  }

  lemma {:induction false} NoOldest(museum: seq<MuseumEntry>, id: nat) returns (k: nat)
    ensures EntryOf(museum, id).Some? ==> Oldest(museum, id, k)
  {
    k := 0;
    if museum != [] && museum[0].cladeId != id {
      k := NoOldest(museum[1..], id);
      k := k + 1;
    }
  }

  /** The specified start is the genome found. */
  lemma OriginExactly(rules: Ruleset, s: Situation, fromMuseum: bool, id: nat)
    ensures match OriginOf(rules, s.epoch, s.museum, s.sporeBank, fromMuseum, id)
      case Found(o) => forall g :: StartsFrom(s, fromMuseum, id, g) <==> g == o.genome
      case Missing(why) =>
        && (why == NoSuchEntry || why == TooRecent)
        && (why == NoSuchEntry <==> forall g :: !StartsFrom(s, fromMuseum, id, g))
    ensures OriginOf(rules, s.epoch, s.museum, s.sporeBank, fromMuseum, id) == Missing(TooRecent) <==>
      fromMuseum && exists k: nat :: Oldest(s.museum, id, k) && IsRecent(rules, s.museum[k], s.epoch)
  {
    if fromMuseum {
      hide EntryOf;
      forall k: nat | Oldest(s.museum, id, k)
        ensures EntryOf(s.museum, id) == Some(s.museum[k])
      {
        EntryIsOldest(s.museum, id, k);
      }
      var k := NoOldest(s.museum, id);
      if EntryOf(s.museum, id).Some? {
        assert StartsFrom(s, fromMuseum, id, s.museum[k].reference);
      }
    }
  }

  /** A revived clade descends from the one in the museum; from the spore bank it descends from none. */
  lemma ParentExactly(rules: Ruleset, s: Situation, fromMuseum: bool, id: nat)
    requires OriginOf(rules, s.epoch, s.museum, s.sporeBank, fromMuseum, id).Found?
    ensures OriginOf(rules, s.epoch, s.museum, s.sporeBank, fromMuseum, id).origin.parent == if fromMuseum then id else 0
  {
    if fromMuseum {
      hide EntryOf;
      var k := NoOldest(s.museum, id);
      EntryIsOldest(s.museum, id, k);
    }
  }

  lemma StepsExactly(g: Genome, steps: seq<(nat, nat)>)
    ensures EditedGenome(g, steps).Edited? <==> StepsPossible(g, steps)
  {
    if |steps| == 1 {
      assert steps[..0] == [];
    } else if |steps| == 2 {
      var one := steps[..1];
      assert one[..0] == [];
      assert EditSteps(g, one)
        == if CanStep(g.lanes, one[0]) then Edited(g.(lanes := Moved(g.lanes, one[0].1, one[0].0))) else NotPossible;
      if CanStep(g.lanes, steps[0]) {
        var after := Moved(g.lanes, steps[0].1, steps[0].0);
        assert IsAfter(g.lanes, steps[0], after);
        forall other: Lanes | IsAfter(g.lanes, steps[0], other)
          ensures other == after
          ensures CanStep(other, steps[1]) <==> CanEdit(after, steps[1])
        {
          assert forall lane :: 0 <= lane < LANES ==> other[lane] == after[lane];
        }
      }
    }
  }

  lemma EditsExactly(rules: Ruleset, s: Situation, fromMuseum: bool, id: nat, steps: seq<(nat, nat)>)
    ensures var start := OriginOf(rules, s.epoch, s.museum, s.sporeBank, fromMuseum, id);
      var possible := forall g :: StartsFrom(s, fromMuseum, id, g) ==> StepsPossible(g, steps);
      start.Found? ==> (EditedGenome(start.origin.genome, steps).Edited? <==> possible)
  {
    OriginExactly(rules, s, fromMuseum, id);
    var start := OriginOf(rules, s.epoch, s.museum, s.sporeBank, fromMuseum, id);
    if start.Found? {
      StepsExactly(start.origin.genome, steps);
    }
    hide OriginOf, StartsFrom, EditedGenome, StepsPossible;
  }

  lemma PeopleNearCounts(size: Size, os: seq<Organism>, center: nat, r: nat)
    ensures Nearby(size, os, None, center, r) == |PeopleNear(size, os, center, r)|
  {
    NearbyCounts(size, os, None, center, r);
    hide X, Y, Nearby;
    assert PeopleNear(size, os, center, r) == NearOnes(size, os, None, center, r);
  }

  lemma EntryCools(cooldowns: seq<Cooldown>, epoch: nat, kind: u8, id: nat)
    ensures KeyCools(epoch, cooldowns, kind, id) <==> !RunOut(cooldowns, epoch, kind, iset{id})
  {
  }

  /** A revival is possible exactly on land, of an entry there is and that has been gone for long enough, edited by at most
      two possible steps, not revived of late, and with few enough around. */
  lemma ReviveExactly(rules: Ruleset, s: Situation, fromMuseum: bool, id: nat, steps: seq<(nat, nat)>, at: nat)
    ensures Decides(ReviveDemands(rules, s, fromMuseum, id, steps, at), Check(rules, s, Revive(fromMuseum, id, steps, at)))
  {
    OriginExactly(rules, s, fromMuseum, id);
    EditsExactly(rules, s, fromMuseum, id, steps);
    PeopleNearCounts(rules.size, s.organisms, at, rules.miracles.reviveRadius);
    EntryCools(s.cooldowns, s.epoch, KindOf(fromMuseum), id);
    hide Nearby, OriginOf, EditedGenome, StepsPossible, StartsFrom, PeopleNear, KeyCools, RunOut, Oldest, IsRecent, Decides;
    var demands := ReviveDemands(rules, s, fromMuseum, id, steps, at);
    var start := OriginOf(rules, s.epoch, s.museum, s.sporeBank, fromMuseum, id);
    assert start.Found? ==> StartsFrom(s, fromMuseum, id, start.origin.genome);
    assert demands[1].met <==> start != Missing(NoSuchEntry);
    assert demands[2].met <==> start != Missing(TooRecent);
    assert start.Found? ==> (demands[3].met <==> EditedGenome(start.origin.genome, steps).Edited?);
    assert demands[4].met <==> !KeyCools(s.epoch, s.cooldowns, KindOf(fromMuseum), id);
    FirstDecides(demands);
  }

  /** The first of six demands that is not met decides. */
  lemma FirstDecides(demands: seq<Demand>)
    requires |demands| == 6
    ensures Decides(demands,
      if !demands[0].met then Some(demands[0].why) else if !demands[1].met then Some(demands[1].why)
      else if !demands[2].met then Some(demands[2].why) else if !demands[3].met then Some(demands[3].why)
      else if !demands[4].met then Some(demands[4].why) else if !demands[5].met then Some(demands[5].why) else None)
  {
    if !demands[0].met {
      assert FirstNotMet(demands, 0);
    } else if !demands[1].met {
      assert FirstNotMet(demands, 1);
    } else if !demands[2].met {
      assert FirstNotMet(demands, 2);
    } else if !demands[3].met {
      assert FirstNotMet(demands, 3);
    } else if !demands[4].met {
      assert FirstNotMet(demands, 4);
    } else if !demands[5].met {
      assert FirstNotMet(demands, 5);
    }
  }

  // ---- Every miracle ----

  ghost function Demands(rules: Ruleset, s: Situation, m: Miracle): seq<Demand> {
    match m
    case Weather(center, _) => WeatherDemands(rules, s, center)
    case Migrate(id, from, to) => MigrateDemands(rules, s, id, from, to)
    case Revive(fromMuseum, id, steps, at) => ReviveDemands(rules, s, fromMuseum, id, steps, at)
  }

  /** The check answers what the demands decide, and nothing else. */
  lemma CheckExactly(rules: Ruleset, s: Situation, m: Miracle)
    ensures forall r :: Decides(Demands(rules, s, m), r) <==> r == Check(rules, s, m)
  {
    hide Check, WeatherDemands, MigrateDemands, ReviveDemands, Decides;
    match m {
      case Weather(center, rain) => WeatherExactly(rules, s, center, rain);
      case Migrate(id, from, to) => MigrateExactly(rules, s, id, from, to);
      case Revive(fromMuseum, id, steps, at) => ReviveExactly(rules, s, fromMuseum, id, steps, at);
    }
    forall r | Decides(Demands(rules, s, m), r)
      ensures r == Check(rules, s, m)
    {
      DecidedOnce(Demands(rules, s, m), r, Check(rules, s, m));
    }
  }

  lemma DecidedOnce(demands: seq<Demand>, r: Option<Refusal>, r': Option<Refusal>)
    requires Decides(demands, r) && Decides(demands, r')
    ensures r == r'
  {
    if r.Some? && r'.Some? {
      var k :| 0 <= k < |demands| && demands[k].why == r.value && FirstNotMet(demands, k);
      var k' :| 0 <= k' < |demands| && demands[k'].why == r'.value && FirstNotMet(demands, k');
      assert k == k';
    }
  }
}
