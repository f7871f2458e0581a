/** Who descends from whom and over which ground: what a tick, an epoch and a run say about the places of
    organisms. */
module Kinship {
  import opened Grid
  import opened WorldState

  function Ground(cells: seq<Cell>): (ground: seq<Biome>)
    ensures |ground| == |cells| && forall c :: 0 <= c < |cells| ==> ground[c] == cells[c].biome
  {
    seq(|cells|, c requires 0 <= c < |cells| => cells[c].biome)
  }

  /** A way over neighbouring cells that are not deep water. */
  ghost predicate DryWay(size: Size, ground: seq<Biome>, way: seq<nat>) {
    && |way| > 0
    && (forall k :: 0 <= k < |way| ==> way[k] < |ground| && ground[way[k]] != DeepWater)
    && (forall k :: 0 < k < |way| ==> Chebyshev(size, way[k - 1], way[k]) <= 1)
  }

  ghost predicate WayBetween(size: Size, ground: seq<Biome>, a: nat, b: nat, way: seq<nat>) {
    DryWay(size, ground, way) && way[0] == a && way[|way| - 1] == b
  }

  /** A way leads from a to b. */
  ghost predicate Linked(size: Size, ground: seq<Biome>, a: nat, b: nat) {
    exists way :: WayBetween(size, ground, a, b, way)
  }

  lemma LinkedHere(size: Size, ground: seq<Biome>, a: nat)
    requires a < |ground| && ground[a] != DeepWater
    ensures Linked(size, ground, a, a)
  {
    assert WayBetween(size, ground, a, a, [a]);
  }

  lemma LinkedThrough(size: Size, ground: seq<Biome>, a: nat, b: nat, c: nat)
    requires Linked(size, ground, a, b) && Linked(size, ground, b, c)
    ensures Linked(size, ground, a, c)
  {
    hide Chebyshev;
    var p :| WayBetween(size, ground, a, b, p);
    var q :| WayBetween(size, ground, b, c, q);
    var way := p + q[1..];
    assert WayBetween(size, ground, a, c, way) by {
      forall k | 0 < k < |way|
        ensures Chebyshev(size, way[k - 1], way[k]) <= 1
      {
        if k >= |p| {
          assert way[k] == q[k - |p| + 1] && way[k - 1] == q[k - |p|];
        }
      }
    }
  }

  lemma LinkedStep(size: Size, ground: seq<Biome>, a: nat, b: nat)
    requires a < |ground| && b < |ground| && ground[a] != DeepWater && ground[b] != DeepWater
    requires Chebyshev(size, a, b) <= 1
    ensures Linked(size, ground, a, b)
  {
    assert WayBetween(size, ground, a, b, [a, b]);
  }

  // ---- Isolation ----

  /** No two neighbouring cells of different plates are both passable. */
  predicate Isolated(size: Size, ground: seq<Biome>, plates: seq<nat>) {
    |plates| == |ground| && forall a, b :: (0 <= a < |ground| && 0 <= b < |ground| && Chebyshev(size, a, b) <= 1
      && ground[a] != DeepWater && ground[b] != DeepWater) ==> plates[a] == plates[b]
  }

  predicate SamePlate(plates: seq<nat>, a: nat, b: nat) {
    a < |plates| && b < |plates| && plates[a] == plates[b]
  }

  /** Once the plates are isolated, no way leads from one to another. */
  lemma LinkedOnOnePlate(size: Size, ground: seq<Biome>, plates: seq<nat>, a: nat, b: nat)
    requires Isolated(size, ground, plates) && Linked(size, ground, a, b)
    ensures SamePlate(plates, a, b)
  {
    hide Chebyshev;
    var way :| WayBetween(size, ground, a, b, way);
    for k := 1 to |way|
      invariant plates[way[k - 1]] == plates[a]
    {
      assert Chebyshev(size, way[k - 1], way[k]) <= 1;
    }
  }

  // ---- Descent ----

  predicate HasId(os: seq<Organism>, id: nat) {
    exists j :: 0 <= j < |os| && os[j].id == id
  }

  /** o is p later on: it could walk from where p stood to where it stands. */
  ghost predicate Stays(size: Size, ground: seq<Biome>, p: Organism, o: Organism) {
    o.id == p.id && o.parentId == p.parentId && o.lineageId == p.lineageId && Linked(size, ground, p.cell, o.cell)
  }

  ghost predicate Continues(size: Size, ground: seq<Biome>, os: seq<Organism>, o: Organism) {
    exists i :: 0 <= i < |os| && Stays(size, ground, os[i], o)
  }

  /** o is a child of p, on ground linked to where p stood. */
  ghost predicate BornOf(size: Size, ground: seq<Biome>, p: Organism, o: Organism) {
    o.parentId == p.id && o.lineageId == p.lineageId && Linked(size, ground, p.cell, o.cell)
  }

  ghost predicate HasParent(size: Size, ground: seq<Biome>, os: seq<Organism>, o: Organism) {
    exists i :: 0 <= i < |os| && BornOf(size, ground, os[i], o)
  }

  /** o has no parent and stands on land. */
  predicate Founded(ground: seq<Biome>, o: Organism) {
    o.parentId == 0 && o.cell < |ground| && IsLand(ground[o.cell])
  }

  /** Ids below `next` belong to organisms of before; each id from `next` to `next'` belongs to a newborn that
      is there, either born of someone of before or founded. */
  ghost predicate Succeeds(size: Size, ground: seq<Biome>, os: seq<Organism>, next: nat, os': seq<Organism>, next': nat,
      born: bool)
  {
    && next <= next'
    && (forall j :: 0 <= j < |os'| && os'[j].id < next ==> Continues(size, ground, os, os'[j]))
    && (forall j :: 0 <= j < |os'| && os'[j].id >= next ==>
          if born then HasParent(size, ground, os, os'[j]) else Founded(ground, os'[j]))
    && (forall id: nat :: next <= id < next' ==> HasId(os', id))
  }

  // ---- The register of births ----

  ghost function WithId(os: seq<Organism>, id: nat): (o: Organism)
    requires HasId(os, id)
    ensures o in os && o.id == id
  {
    var j :| 0 <= j < |os| && os[j].id == id;
    os[j]
  }

  /** The register after these have been put on the list. */
  function Added(births: map<nat, Birth>, list: seq<Organism>): map<nat, Birth> {
    if list == [] then births
    else
      var n := |list| - 1;
      Added(births, list[..n])[list[n].id := BirthOf(list[n])]
  }

  lemma AddedNone(births: map<nat, Birth>)
    ensures Added(births, []) == births
  {
  }

  lemma AddedOne(births: map<nat, Birth>, list: seq<Organism>, o: Organism)
    ensures Added(births, list + [o]) == Added(births, list)[o.id := BirthOf(o)]
  {
    assert (list + [o])[..|list|] == list;
  }

  lemma {:induction false} AddedMore(births: map<nat, Birth>, a: seq<Organism>, b: seq<Organism>)
    ensures Added(births, a + b) == Added(Added(births, a), b)
  {
    if b == [] {
      assert a + b == a;
    } else {
      var n := |b| - 1;
      AddedMore(births, a, b[..n]);
      assert (a + b)[..|a + b| - 1] == a + b[..n];
    }
  }

  /** With consecutive numbers everyone has an entry of its own. */
  lemma {:induction false} AddedHas(births: map<nat, Birth>, list: seq<Organism>, next: nat)
    requires forall k :: 0 <= k < |list| ==> list[k].id == next + k
    ensures forall k :: 0 <= k < |list| ==> list[k].id in Added(births, list) && Added(births, list)[list[k].id] == BirthOf(list[k])
    ensures forall id: nat :: !(next <= id < next + |list|) ==> (id in Added(births, list) <==> id in births)
    ensures forall id: nat :: !(next <= id < next + |list|) && id in births ==> Added(births, list)[id] == births[id]
  {
    if list != [] {
      AddedHas(births, list[..|list| - 1], next);
    }
  }

  /** The register goes on: each new number has an entry, that of the newborn with this number, and the other
      entries are what they were. */
  ghost predicate Registers(births: map<nat, Birth>, births': map<nat, Birth>, os': seq<Organism>, next: nat, next': nat) {
    && (forall id: nat :: !(next <= id < next') ==> (id in births' <==> id in births))
    && (forall id: nat :: !(next <= id < next') && id in births ==> births'[id] == births[id])
    && (forall id: nat :: next <= id < next' ==> id in births')
    && (forall j :: 0 <= j < |os'| && next <= os'[j].id < next' ==>
          os'[j].id in births' && births'[os'[j].id] == BirthOf(os'[j]))
  }

  /** Newborns at the end of the list. */
  lemma AddedRegisters(births: map<nat, Birth>, list: seq<Organism>, os': seq<Organism>, next: nat)
    requires forall k :: 0 <= k < |list| ==> list[k].id == next + k
    requires forall j :: 0 <= j < |os'| && next <= os'[j].id < next + |list| ==> os'[j] == list[os'[j].id - next]
    ensures Registers(births, Added(births, list), os', next, next + |list|)
  {
    AddedHas(births, list, next);
    var births' := Added(births, list);
    forall id: nat | next <= id < next + |list|
      ensures id in births'
    {
      assert list[id - next].id == id;
    }
  }

  /** The part of the register that tells of those alive at a time and everyone since: `first` were alive then, and
      ids below `from` had been given out. */
  ghost function Since(first: seq<Organism>, from: nat, births: map<nat, Birth>, next: nat): (reg: map<nat, Birth>)
    ensures forall id: nat :: id in reg <==> HasId(first, id) || (from <= id < next && id in births)
    ensures forall id: nat :: id in reg ==> reg[id] == if HasId(first, id) then BirthOf(WithId(first, id)) else births[id]
  {
    var alive := set i | 0 <= i < |first| :: first[i].id;
    var later := set id | id in births && from <= id < next;
    map id | id in alive + later :: if HasId(first, id) then BirthOf(WithId(first, id)) else births[id]
  }

  /** Someone born was founded on land, or has a registered parent, born before, and was born on ground linked
      to where its parent was. */
  ghost predicate Traced(size: Size, ground: seq<Biome>, reg: map<nat, Birth>, id: nat)
    requires id in reg
  {
    var b := reg[id];
    if b.parentId == 0 then b.cell < |ground| && IsLand(ground[b.cell])
    else (b.parentId < id && b.parentId in reg && reg[b.parentId].lineageId == b.lineageId
      && Linked(size, ground, reg[b.parentId].cell, b.cell))
  }

  /** Whoever lives has not left the ground linked to where it was first seen. */
  ghost predicate Tracked(size: Size, ground: seq<Biome>, b: Birth, o: Organism) {
    o.parentId == b.parentId && o.lineageId == b.lineageId && Linked(size, ground, b.cell, o.cell)
  }

  /** The register of a stretch of time that began with `first` alive and ids below `from` given out: it has
      those and everyone born since, and everyone alive is on it. */
  ghost predicate Recorded(size: Size, ground: seq<Biome>, first: seq<Organism>, from: nat, reg: map<nat, Birth>,
      os: seq<Organism>, next: nat)
  {
    && from <= next
    && (forall i :: 0 <= i < |first| ==>
          first[i].id < from && first[i].id in reg && reg[first[i].id] == BirthOf(first[i]))
    && (forall id: nat :: from <= id < next ==> id in reg && Traced(size, ground, reg, id))
    && (forall id: nat :: id in reg ==> id < next && (id < from ==> HasId(first, id)))
    && (forall i :: 0 <= i < |os| ==> os[i].id in reg && Tracked(size, ground, reg[os[i].id], os[i]))
  }

  /** The register when a stretch of time begins. */
  lemma RecordFirst(size: Size, ground: seq<Biome>, first: seq<Organism>, from: nat, births: map<nat, Birth>)
    requires Ascending(first, from)
    requires forall i :: 0 <= i < |first| ==> first[i].cell < |ground| && ground[first[i].cell] != DeepWater
    ensures Recorded(size, ground, first, from, Since(first, from, births, from), first, from)
  {
    var reg := Since(first, from, births, from);
    forall i | 0 <= i < |first|
      ensures first[i].id in reg && reg[first[i].id] == BirthOf(first[i])
      ensures Tracked(size, ground, reg[first[i].id], first[i])
    {
      OneOfEach(first, from, i);
      LinkedHere(size, ground, first[i].cell);
    }
    forall id: nat | id in reg
      ensures id < from && HasId(first, id)
    {
      assert HasId(first, id);
      var i :| 0 <= i < |first| && first[i].id == id;
    }
  }

  lemma OneOfEach(os: seq<Organism>, next: nat, i: nat)
    requires Ascending(os, next) && i < |os|
    ensures HasId(os, os[i].id) && WithId(os, os[i].id) == os[i]
  {
  }

  lemma LinkedEnds(size: Size, ground: seq<Biome>, a: nat, b: nat)
    requires Linked(size, ground, a, b)
    ensures Linked(size, ground, b, b)
  {
    var way :| WayBetween(size, ground, a, b, way);
    LinkedHere(size, ground, b);
  }

  /** Someone who was there before is on the register as it was. */
  lemma StillTracked(size: Size, ground: seq<Biome>, first: seq<Organism>, from: nat, reg: map<nat, Birth>,
      os: seq<Organism>, next: nat, o: Organism)
    requires Recorded(size, ground, first, from, reg, os, next) && Continues(size, ground, os, o)
    ensures o.id in reg && Tracked(size, ground, reg[o.id], o)
  {
    hide Linked, Traced;
    var i :| 0 <= i < |os| && Stays(size, ground, os[i], o);
    LinkedThrough(size, ground, reg[o.id].cell, os[i].cell, o.cell);
  }

  /** A newborn of a recorded herd can be traced. */
  lemma NewbornTraced(size: Size, ground: seq<Biome>, first: seq<Organism>, from: nat, reg: map<nat, Birth>,
      os: seq<Organism>, next: nat, o: Organism, born: bool, reg': map<nat, Birth>)
    requires Recorded(size, ground, first, from, reg, os, next) && Ascending(os, next) && next <= o.id
    requires if born then HasParent(size, ground, os, o) else Founded(ground, o)
    requires forall id :: id in reg ==> id in reg' && reg'[id] == reg[id]
    requires o.id in reg' && reg'[o.id] == BirthOf(o)
    ensures Traced(size, ground, reg', o.id) && Tracked(size, ground, reg'[o.id], o)
  {
    hide Linked;
    if born {
      var i :| 0 <= i < |os| && BornOf(size, ground, os[i], o);
      LinkedThrough(size, ground, reg[os[i].id].cell, os[i].cell, o.cell);
      LinkedEnds(size, ground, os[i].cell, o.cell);
    } else {
      LinkedHere(size, ground, o.cell);
    }
  }

  lemma StillTraced(size: Size, ground: seq<Biome>, reg: map<nat, Birth>, reg': map<nat, Birth>, id: nat)
    requires id in reg && Traced(size, ground, reg, id)
    requires forall k :: k in reg ==> k in reg' && reg'[k] == reg[k]
    ensures Traced(size, ground, reg', id)
  {
  }

  lemma SinceKeeps(first: seq<Organism>, from: nat, births: map<nat, Birth>, births': map<nat, Birth>, os': seq<Organism>,
      next: nat, next': nat)
    requires Registers(births, births', os', next, next') && from <= next <= next'
    requires forall i :: 0 <= i < |first| ==> first[i].id < from
    ensures forall id: nat :: id in Since(first, from, births, next) ==> (id in Since(first, from, births', next')
      && Since(first, from, births', next')[id] == Since(first, from, births, next)[id])
    ensures forall j :: 0 <= j < |os'| && next <= os'[j].id < next' ==> (os'[j].id in Since(first, from, births', next')
      && Since(first, from, births', next')[os'[j].id] == BirthOf(os'[j]))
  {
    forall id: nat | id >= from
      ensures !HasId(first, id)
    {
    }
  }

  /** The register goes on through births and foundings. */
  lemma Record(size: Size, ground: seq<Biome>, first: seq<Organism>, from: nat, births: map<nat, Birth>, os: seq<Organism>,
      next: nat, births': map<nat, Birth>, os': seq<Organism>, next': nat, born: bool)
    requires Recorded(size, ground, first, from, Since(first, from, births, next), os, next)
    requires Ascending(os, next) && Ascending(os', next') && Succeeds(size, ground, os, next, os', next', born)
    requires Registers(births, births', os', next, next')
    ensures Recorded(size, ground, first, from, Since(first, from, births', next'), os', next')
  {
    hide Linked, Traced, Tracked, Founded, HasParent, Continues, Registers;
    var reg, reg' := Since(first, from, births, next), Since(first, from, births', next');
    SinceKeeps(first, from, births, births', os', next, next');
    forall j | 0 <= j < |os'|
      ensures os'[j].id in reg' && Tracked(size, ground, reg'[os'[j].id], os'[j])
      ensures os'[j].id >= next ==> Traced(size, ground, reg', os'[j].id)
    {
      if os'[j].id < next {
        StillTracked(size, ground, first, from, reg, os, next, os'[j]);
      } else {
        NewbornTraced(size, ground, first, from, reg, os, next, os'[j], born, reg');
      }
    }
    forall id: nat | from <= id < next'
      ensures id in reg' && Traced(size, ground, reg', id)
    {
      if id < next {
        StillTraced(size, ground, reg, reg', id);
      } else {
        assert HasId(os', id);
      }
    }
    forall id: nat | id in reg'
      ensures id < next' && (id < from ==> HasId(first, id))
    {
      if HasId(first, id) {
        var i :| 0 <= i < |first| && first[i].id == id;
      }
    }
  }

  /** The one from whom someone on the register descends: alive at the beginning, or founded since. */
  ghost function Root(reg: map<nat, Birth>, from: nat, id: nat): nat {
    if id in reg && id >= from && 0 < reg[id].parentId < id then Root(reg, from, reg[id].parentId) else id
  }

  lemma {:induction false} RootIsLinked(size: Size, ground: seq<Biome>, first: seq<Organism>, from: nat,
      reg: map<nat, Birth>, os: seq<Organism>, next: nat, id: nat)
    requires Recorded(size, ground, first, from, reg, os, next) && id in reg
    ensures Root(reg, from, id) in reg
    ensures reg[Root(reg, from, id)].lineageId == reg[id].lineageId
    ensures Root(reg, from, id) < from || reg[Root(reg, from, id)].parentId == 0
    ensures Linked(size, ground, reg[Root(reg, from, id)].cell, reg[id].cell) || Root(reg, from, id) == id
    decreases id
  {
    hide Linked;
    if id >= from {
      assert Traced(size, ground, reg, id);
      if reg[id].parentId != 0 {
        RootIsLinked(size, ground, first, from, reg, os, next, reg[id].parentId);
        if Root(reg, from, id) != reg[id].parentId {
          LinkedThrough(size, ground, reg[Root(reg, from, id)].cell, reg[reg[id].parentId].cell, reg[id].cell);
        }
      }
    }
  }

  /** On isolated plates: whoever was born was born on its parent's plate. */
  lemma BirthOnPlate(size: Size, ground: seq<Biome>, plates: seq<nat>, first: seq<Organism>, from: nat,
      reg: map<nat, Birth>, os: seq<Organism>, next: nat, id: nat)
    requires Isolated(size, ground, plates) && Recorded(size, ground, first, from, reg, os, next)
    requires from <= id < next && id in reg && reg[id].parentId != 0
    ensures reg[id].parentId in reg && SamePlate(plates, reg[reg[id].parentId].cell, reg[id].cell)
  {
    hide Isolated, Linked;
    assert Traced(size, ground, reg, id);
    LinkedOnOnePlate(size, ground, plates, reg[reg[id].parentId].cell, reg[id].cell);
  }

  /** On isolated plates: whoever lives is on the plate where it was first seen, and on the plate of the one
      it descends from, who was alive at the beginning or has been founded since. */
  lemma LifeOnPlate(size: Size, ground: seq<Biome>, plates: seq<nat>, first: seq<Organism>, from: nat,
      reg: map<nat, Birth>, os: seq<Organism>, next: nat, i: nat)
    requires Isolated(size, ground, plates) && Recorded(size, ground, first, from, reg, os, next) && i < |os|
    ensures os[i].id in reg && SamePlate(plates, reg[os[i].id].cell, os[i].cell)
    ensures Root(reg, from, os[i].id) in reg && SamePlate(plates, reg[Root(reg, from, os[i].id)].cell, os[i].cell)
    ensures if Root(reg, from, os[i].id) < from then HasId(first, Root(reg, from, os[i].id))
      else reg[Root(reg, from, os[i].id)].parentId == 0
  {
    hide Isolated, Linked, Root;
    LinkedOnOnePlate(size, ground, plates, reg[os[i].id].cell, os[i].cell);
    RootIsLinked(size, ground, first, from, reg, os, next, os[i].id);
    if Root(reg, from, os[i].id) != os[i].id {
      LinkedOnOnePlate(size, ground, plates, reg[Root(reg, from, os[i].id)].cell, reg[os[i].id].cell);
    }
  }
}
