/** The leaves of the world state, core/src/state.rs:519-548 and 629-731: how each entity is written, and
    that no two are written alike. */
module Leaves {
  import opened Bytes
  import opened Genomes
  import opened Hashing
  import opened WorldState

  /** A patron's effect on the members of one clade. */
  datatype CladeEffect = CladeEffect(kind: u8, cladeId: u32, center: u16, radius: u8, remainingTicks: u32)

  // ---- The integers of the source ----

  predicate Is8(x: int) { 0 <= x < 0x100 }

  predicate Is16(x: int) { 0 <= x < 0x1_0000 }

  predicate Is32(x: int) { 0 <= x < 0x1_0000_0000 }

  predicate Is64(x: int) { 0 <= x < 0x1_0000_0000_0000_0000 }

  predicate GenomeFits(g: Genome) {
    (forall k :: 0 <= k < LANES ==> Is8(g.lanes[k]))
    && Is8(g.habitat) && Is8(g.dispersal) && Is8(g.boldness) && Is16(g.hue) && Is8(g.gifts)
  }

  predicate OrganismFits(o: Organism) {
    Is64(o.id) && Is64(o.parentId) && Is32(o.lineageId) && Is32(o.cladeId) && Is16(o.cell) && Is32(o.age)
    && -0x8000_0000 <= o.energy < 0x8000_0000 && GenomeFits(o.genome)
  }

  predicate CladeFits(c: Clade) {
    Is32(c.id) && Is32(c.parentId) && Is32(c.secondParentId) && Is64(c.foundedEpoch) && Is32(c.living) && Is32(c.peakLiving)
    && GenomeFits(c.reference)
  }

  predicate EntryFits(m: MuseumEntry) {
    Is32(m.cladeId) && Is32(m.parentId) && Is32(m.secondParentId) && Is64(m.foundedEpoch) && Is64(m.extinctEpoch)
    && Is32(m.peakLiving) && GenomeFits(m.reference)
  }

  predicate CellFits(c: Cell) { Is32(c.food) && Is32(c.detritus) && Is8(c.moisture) }

  predicate EffectFits(e: Effect) { Is16(e.center) && Is8(e.radius) && Is32(e.remainingTicks) }

  predicate RiftFits(r: Rift) {
    Is16(r.cell) && Is8(r.bridge) && Is64(r.faultEpoch) && Is64(r.shallowsEpoch) && Is64(r.deepEpoch)
  }

  predicate CooldownFits(c: Cooldown) { Is32(c.key) && Is64(c.until) }

  // ---- Joining and splitting ----

  /** An integer in front tells itself and leaves the rest. */
  lemma LeFront(x: nat, y: nat, width: nat, a: seq<u8>, b: seq<u8>)
    requires x < Span(width) && y < Span(width) && Le(x, width) + a == Le(y, width) + b
    ensures x == y && a == b
  {
    SplitEqual(Le(x, width), a, Le(y, width), b);
    LeInjective(x, y, width);
  }

  function SmallBytes(xs: seq<nat>): (bytes: seq<u8>)
    ensures |bytes| == |xs|
  {
    if xs == [] then [] else Le(xs[0], 1) + SmallBytes(xs[1..])
  }

  lemma {:induction false} SmallBytesInjective(a: seq<nat>, b: seq<nat>)
    requires (forall k :: 0 <= k < |a| ==> Is8(a[k])) && (forall k :: 0 <= k < |b| ==> Is8(b[k]))
    requires SmallBytes(a) == SmallBytes(b)
    ensures a == b
  {
    if a != [] {
      Spans();
      LeFront(a[0], b[0], 1, SmallBytes(a[1..]), SmallBytes(b[1..]));
      SmallBytesInjective(a[1..], b[1..]);
      assert a == [a[0]] + a[1..] && b == [b[0]] + b[1..];
    }
  }

  // ---- Genomes ----

  function GiftPart(g: Genome): seq<u8> {
    if g.gifts != 0 then Le(g.gifts, 1) else []
  }

  /** The two lanes of later rules. */
  function ExtraPart(g: Genome): seq<u8> {
    if g.lanes[6] != 0 || g.lanes[7] != 0 then SmallBytes(g.lanes[6..]) else []
  }

  function GenomeBase(g: Genome): (bytes: seq<u8>)
    ensures |bytes| == 11
  {
    SmallBytes(g.lanes[..6]) + (Le(g.habitat, 1) + (Le(g.dispersal, 1) + (Le(g.boldness, 1) + Le(g.hue, 2))))
  }

  /** Gifts and extra lanes are written only when there are any, without a mark: the length tells. */
  function GenomeBytes(g: Genome): (bytes: seq<u8>)
    ensures |bytes| == 11 + (if g.gifts != 0 then 1 else 0) + (if g.lanes[6] != 0 || g.lanes[7] != 0 then 2 else 0)
    ensures 11 <= |bytes| <= 14
  {
    GenomeBase(g) + (GiftPart(g) + ExtraPart(g))
  }

  lemma GenomeBaseInjective(g: Genome, h: Genome)
    requires GenomeFits(g) && GenomeFits(h) && GenomeBase(g) == GenomeBase(h)
    ensures g.lanes[..6] == h.lanes[..6] && g.habitat == h.habitat && g.dispersal == h.dispersal
    ensures g.boldness == h.boldness && g.hue == h.hue
  {
    hide SmallBytes, Le;
    Spans();
    SplitEqual(SmallBytes(g.lanes[..6]), Le(g.habitat, 1) + (Le(g.dispersal, 1) + (Le(g.boldness, 1) + Le(g.hue, 2))),
      SmallBytes(h.lanes[..6]), Le(h.habitat, 1) + (Le(h.dispersal, 1) + (Le(h.boldness, 1) + Le(h.hue, 2))));
    SmallBytesInjective(g.lanes[..6], h.lanes[..6]);
    LeFront(g.habitat, h.habitat, 1, Le(g.dispersal, 1) + (Le(g.boldness, 1) + Le(g.hue, 2)),
      Le(h.dispersal, 1) + (Le(h.boldness, 1) + Le(h.hue, 2)));
    LeFront(g.dispersal, h.dispersal, 1, Le(g.boldness, 1) + Le(g.hue, 2), Le(h.boldness, 1) + Le(h.hue, 2));
    LeFront(g.boldness, h.boldness, 1, Le(g.hue, 2), Le(h.hue, 2));
    LeInjective(g.hue, h.hue, 2);
  }

  lemma GenomeTailInjective(g: Genome, h: Genome)
    requires GenomeFits(g) && GenomeFits(h) && GiftPart(g) + ExtraPart(g) == GiftPart(h) + ExtraPart(h)
    ensures g.gifts == h.gifts && g.lanes[6..] == h.lanes[6..]
  {
    hide SmallBytes, Le;
    Spans();
    assert |GiftPart(g)| == |GiftPart(h)|;
    SplitEqual(GiftPart(g), ExtraPart(g), GiftPart(h), ExtraPart(h));
    if g.gifts != 0 {
      LeInjective(g.gifts, h.gifts, 1);
    }
    if g.lanes[6] != 0 || g.lanes[7] != 0 {
      SmallBytesInjective(g.lanes[6..], h.lanes[6..]);
    }
  }

  lemma GenomeInjective(g: Genome, h: Genome)
    requires GenomeFits(g) && GenomeFits(h) && GenomeBytes(g) == GenomeBytes(h)
    ensures g == h
  {
    hide GenomeBase, GiftPart, ExtraPart;
    SplitEqual(GenomeBase(g), GiftPart(g) + ExtraPart(g), GenomeBase(h), GiftPart(h) + ExtraPart(h));
    GenomeBaseInjective(g, h);
    GenomeTailInjective(g, h);
    assert g.lanes == g.lanes[..6] + g.lanes[6..] && h.lanes == h.lanes[..6] + h.lanes[6..];
  }

  // ---- Organisms and cells ----

  /** A signed integer as its two's complement. */
  function Unsigned32(x: int): nat {
    x % 0x1_0000_0000
  }

  function OrganismBytes(o: Organism): seq<u8> {
    Le(o.id, 8) + (Le(o.parentId, 8) + (Le(o.lineageId, 4) + (Le(o.cladeId, 4) + (Le(o.cell, 2) + (Le(o.age, 4)
      + (Le(Unsigned32(o.energy), 4) + GenomeBytes(o.genome)))))))
  }

  lemma OrganismInjective(o: Organism, p: Organism)
    requires OrganismFits(o) && OrganismFits(p) && OrganismBytes(o) == OrganismBytes(p)
    ensures o == p
  {
    hide Le, GenomeBytes;
    Spans();
    var o7, p7 := Le(Unsigned32(o.energy), 4) + GenomeBytes(o.genome), Le(Unsigned32(p.energy), 4) + GenomeBytes(p.genome);
    var o6, p6 := Le(o.age, 4) + o7, Le(p.age, 4) + p7;
    var o5, p5 := Le(o.cell, 2) + o6, Le(p.cell, 2) + p6;
    var o4, p4 := Le(o.cladeId, 4) + o5, Le(p.cladeId, 4) + p5;
    var o3, p3 := Le(o.lineageId, 4) + o4, Le(p.lineageId, 4) + p4;
    LeFront(o.id, p.id, 8, Le(o.parentId, 8) + o3, Le(p.parentId, 8) + p3);
    LeFront(o.parentId, p.parentId, 8, o3, p3);
    LeFront(o.lineageId, p.lineageId, 4, o4, p4);
    LeFront(o.cladeId, p.cladeId, 4, o5, p5);
    LeFront(o.cell, p.cell, 2, o6, p6);
    LeFront(o.age, p.age, 4, o7, p7);
    LeFront(Unsigned32(o.energy), Unsigned32(p.energy), 4, GenomeBytes(o.genome), GenomeBytes(p.genome));
    GenomeInjective(o.genome, p.genome);
  }

  function CellBytes(index: nat, c: Cell): seq<u8> {
    Le(index, 4) + (Le(BiomeCode(c.biome), 1) + (Le(c.food, 4) + (Le(c.detritus, 4) + (Le(c.moisture, 1) + Le(Rank(c.rift), 1)))))
  }

  lemma CodesAreInjective(a: Biome, b: Biome, p: RiftPhase, q: RiftPhase)
    ensures BiomeCode(a) == BiomeCode(b) ==> a == b
    ensures Rank(p) == Rank(q) ==> p == q
    ensures BiomeCode(a) < 0x100 && Rank(p) < 0x100
  {
  }

  lemma CellInjective(i: nat, c: Cell, j: nat, d: Cell)
    requires Is32(i) && Is32(j) && CellFits(c) && CellFits(d) && CellBytes(i, c) == CellBytes(j, d)
    ensures i == j && c == d
  {
    hide Le, BiomeCode, Rank;
    Spans();
    CodesAreInjective(c.biome, d.biome, c.rift, d.rift);
    CodesAreInjective(d.biome, c.biome, d.rift, c.rift);
    var c4, d4 := Le(c.moisture, 1) + Le(Rank(c.rift), 1), Le(d.moisture, 1) + Le(Rank(d.rift), 1);
    var c2, d2 := Le(c.food, 4) + (Le(c.detritus, 4) + c4), Le(d.food, 4) + (Le(d.detritus, 4) + d4);
    LeFront(i, j, 4, Le(BiomeCode(c.biome), 1) + c2, Le(BiomeCode(d.biome), 1) + d2);
    LeFront(BiomeCode(c.biome), BiomeCode(d.biome), 1, c2, d2);
    LeFront(c.food, d.food, 4, Le(c.detritus, 4) + c4, Le(d.detritus, 4) + d4);
    LeFront(c.detritus, d.detritus, 4, c4, d4);
    LeFront(c.moisture, d.moisture, 1, Le(Rank(c.rift), 1), Le(Rank(d.rift), 1));
    LeInjective(Rank(c.rift), Rank(d.rift), 1);
  }

  // ---- Clades and museum entries ----

  /** The second parent of a hybrid, written only when there is one. */
  function SecondPart(id: nat): (bytes: seq<u8>)
    ensures |bytes| == if id != 0 then 4 else 0
  {
    if id != 0 then Le(id, 4) else []
  }

  lemma SecondInjective(a: nat, b: nat)
    requires Is32(a) && Is32(b) && SecondPart(a) == SecondPart(b)
    ensures a == b
  {
    hide Le;
    Spans();
    if a != 0 {
      LeInjective(a, b, 4);
    }
  }

  function CladeBytes(c: Clade): seq<u8> {
    Le(c.id, 4) + (Le(c.parentId, 4) + (GenomeBytes(c.reference) + (Le(c.foundedEpoch, 8) + (Le(c.living, 4)
      + (Le(c.peakLiving, 4) + SecondPart(c.secondParentId))))))
  }

  /** A genome of unknown length before a part of known length and an optional one: the whole length tells
      both, since a genome takes eleven to fourteen bytes and the option four. */
  lemma GenomeThenOption(g: Genome, h: Genome, a: seq<u8>, b: seq<u8>, x: nat, y: nat)
    requires GenomeFits(g) && GenomeFits(h) && Is32(x) && Is32(y) && |a| == |b|
    requires GenomeBytes(g) + (a + SecondPart(x)) == GenomeBytes(h) + (b + SecondPart(y))
    ensures g == h && a == b && x == y
  {
    hide GenomeBytes, SecondPart;
    assert |GenomeBytes(g) + (a + SecondPart(x))| == |GenomeBytes(h) + (b + SecondPart(y))|;
    SplitEqual(GenomeBytes(g), a + SecondPart(x), GenomeBytes(h), b + SecondPart(y));
    SplitEqual(a, SecondPart(x), b, SecondPart(y));
    GenomeInjective(g, h);
    SecondInjective(x, y);
  }

  lemma CladeInjective(c: Clade, d: Clade)
    requires CladeFits(c) && CladeFits(d) && CladeBytes(c) == CladeBytes(d)
    ensures c == d
  {
    hide Le, GenomeBytes, SecondPart;
    Spans();
    var a, b := Le(c.foundedEpoch, 8) + (Le(c.living, 4) + Le(c.peakLiving, 4)),
      Le(d.foundedEpoch, 8) + (Le(d.living, 4) + Le(d.peakLiving, 4));
    var s, t := SecondPart(c.secondParentId), SecondPart(d.secondParentId);
    assert Le(c.foundedEpoch, 8) + (Le(c.living, 4) + (Le(c.peakLiving, 4) + s)) == a + s;
    assert Le(d.foundedEpoch, 8) + (Le(d.living, 4) + (Le(d.peakLiving, 4) + t)) == b + t;
    LeFront(c.id, d.id, 4, Le(c.parentId, 4) + (GenomeBytes(c.reference) + (a + s)),
      Le(d.parentId, 4) + (GenomeBytes(d.reference) + (b + t)));
    LeFront(c.parentId, d.parentId, 4, GenomeBytes(c.reference) + (a + s), GenomeBytes(d.reference) + (b + t));
    GenomeThenOption(c.reference, d.reference, a, b, c.secondParentId, d.secondParentId);
    LeFront(c.foundedEpoch, d.foundedEpoch, 8, Le(c.living, 4) + Le(c.peakLiving, 4), Le(d.living, 4) + Le(d.peakLiving, 4));
    LeFront(c.living, d.living, 4, Le(c.peakLiving, 4), Le(d.peakLiving, 4));
    LeInjective(c.peakLiving, d.peakLiving, 4);
  }

  function EntryBytes(m: MuseumEntry): seq<u8> {
    Le(m.cladeId, 4) + (Le(m.parentId, 4) + (GenomeBytes(m.reference) + (Le(m.foundedEpoch, 8) + (Le(m.extinctEpoch, 8)
      + (Le(m.peakLiving, 4) + SecondPart(m.secondParentId))))))
  }

  lemma EntryInjective(m: MuseumEntry, n: MuseumEntry)
    requires EntryFits(m) && EntryFits(n) && EntryBytes(m) == EntryBytes(n)
    ensures m == n
  {
    hide Le, GenomeBytes, SecondPart;
    Spans();
    var a, b := Le(m.foundedEpoch, 8) + (Le(m.extinctEpoch, 8) + Le(m.peakLiving, 4)),
      Le(n.foundedEpoch, 8) + (Le(n.extinctEpoch, 8) + Le(n.peakLiving, 4));
    var s, t := SecondPart(m.secondParentId), SecondPart(n.secondParentId);
    assert Le(m.foundedEpoch, 8) + (Le(m.extinctEpoch, 8) + (Le(m.peakLiving, 4) + s)) == a + s;
    assert Le(n.foundedEpoch, 8) + (Le(n.extinctEpoch, 8) + (Le(n.peakLiving, 4) + t)) == b + t;
    LeFront(m.cladeId, n.cladeId, 4, Le(m.parentId, 4) + (GenomeBytes(m.reference) + (a + s)),
      Le(n.parentId, 4) + (GenomeBytes(n.reference) + (b + t)));
    LeFront(m.parentId, n.parentId, 4, GenomeBytes(m.reference) + (a + s), GenomeBytes(n.reference) + (b + t));
    GenomeThenOption(m.reference, n.reference, a, b, m.secondParentId, n.secondParentId);
    LeFront(m.foundedEpoch, n.foundedEpoch, 8, Le(m.extinctEpoch, 8) + Le(m.peakLiving, 4),
      Le(n.extinctEpoch, 8) + Le(n.peakLiving, 4));
    LeFront(m.extinctEpoch, n.extinctEpoch, 8, Le(m.peakLiving, 4), Le(n.peakLiving, 4));
    LeInjective(m.peakLiving, n.peakLiving, 4);
  }

  // ---- The other leaves ----

  function EffectCode(kind: EffectKind): nat {
    match kind case Ash => 1 case Drought => 2 case Flood => 3 case Rain => 4 case Dry => 5
  }

  function EffectBytes(e: Effect): seq<u8> {
    Le(EffectCode(e.kind), 1) + (Le(e.center, 2) + (Le(e.radius, 1) + Le(e.remainingTicks, 4)))
  }

  lemma EffectInjective(e: Effect, f: Effect)
    requires EffectFits(e) && EffectFits(f) && EffectBytes(e) == EffectBytes(f)
    ensures e == f
  {
    hide Le;
    Spans();
    LeFront(EffectCode(e.kind), EffectCode(f.kind), 1, Le(e.center, 2) + (Le(e.radius, 1) + Le(e.remainingTicks, 4)),
      Le(f.center, 2) + (Le(f.radius, 1) + Le(f.remainingTicks, 4)));
    LeFront(e.center, f.center, 2, Le(e.radius, 1) + Le(e.remainingTicks, 4), Le(f.radius, 1) + Le(f.remainingTicks, 4));
    LeFront(e.radius, f.radius, 1, Le(e.remainingTicks, 4), Le(f.remainingTicks, 4));
    LeInjective(e.remainingTicks, f.remainingTicks, 4);
  }

  function RiftBytes(r: Rift): seq<u8> {
    Le(r.cell, 2) + (Le(r.bridge, 1) + (Le(r.faultEpoch, 8) + (Le(r.shallowsEpoch, 8) + Le(r.deepEpoch, 8))))
  }

  lemma RiftInjective(r: Rift, s: Rift)
    requires RiftFits(r) && RiftFits(s) && RiftBytes(r) == RiftBytes(s)
    ensures r == s
  {
    hide Le;
    Spans();
    var r2, s2 := Le(r.faultEpoch, 8) + (Le(r.shallowsEpoch, 8) + Le(r.deepEpoch, 8)),
      Le(s.faultEpoch, 8) + (Le(s.shallowsEpoch, 8) + Le(s.deepEpoch, 8));
    LeFront(r.cell, s.cell, 2, Le(r.bridge, 1) + r2, Le(s.bridge, 1) + s2);
    LeFront(r.bridge, s.bridge, 1, r2, s2);
    LeFront(r.faultEpoch, s.faultEpoch, 8, Le(r.shallowsEpoch, 8) + Le(r.deepEpoch, 8),
      Le(s.shallowsEpoch, 8) + Le(s.deepEpoch, 8));
    LeFront(r.shallowsEpoch, s.shallowsEpoch, 8, Le(r.deepEpoch, 8), Le(s.deepEpoch, 8));
    LeInjective(r.deepEpoch, s.deepEpoch, 8);
  }

  function SporeBytes(s: Founder): seq<u8> {
    GenomeBytes(s.genome) + Le(BiomeCode(s.biome), 1)
  }

  lemma SporeInjective(s: Founder, t: Founder)
    requires GenomeFits(s.genome) && GenomeFits(t.genome) && SporeBytes(s) == SporeBytes(t)
    ensures s == t
  {
    hide Le, BiomeCode, GenomeBytes;
    Spans();
    assert |SporeBytes(s)| == |GenomeBytes(s.genome)| + 1 && |SporeBytes(t)| == |GenomeBytes(t.genome)| + 1;
    SplitEqual(GenomeBytes(s.genome), Le(BiomeCode(s.biome), 1), GenomeBytes(t.genome), Le(BiomeCode(t.biome), 1));
    GenomeInjective(s.genome, t.genome);
    CodesAreInjective(s.biome, t.biome, NoRift, NoRift);
    CodesAreInjective(t.biome, s.biome, NoRift, NoRift);
    LeInjective(BiomeCode(s.biome), BiomeCode(t.biome), 1);
  }

  function CooldownBytes(c: Cooldown): seq<u8> {
    Le(c.kind, 1) + (Le(c.key, 4) + Le(c.until, 8))
  }

  lemma CooldownInjective(c: Cooldown, d: Cooldown)
    requires CooldownFits(c) && CooldownFits(d) && CooldownBytes(c) == CooldownBytes(d)
    ensures c == d
  {
    hide Le;
    Spans();
    LeFront(c.kind, d.kind, 1, Le(c.key, 4) + Le(c.until, 8), Le(d.key, 4) + Le(d.until, 8));
    LeFront(c.key, d.key, 4, Le(c.until, 8), Le(d.until, 8));
    LeInjective(c.until, d.until, 8);
  }

  function CladeEffectBytes(e: CladeEffect): seq<u8> {
    Le(e.kind, 1) + (Le(e.cladeId, 4) + (Le(e.center, 2) + (Le(e.radius, 1) + Le(e.remainingTicks, 4))))
  }

  lemma CladeEffectInjective(e: CladeEffect, f: CladeEffect)
    requires CladeEffectBytes(e) == CladeEffectBytes(f)
    ensures e == f
  {
    hide Le;
    Spans();
    var e3, f3 := Le(e.radius, 1) + Le(e.remainingTicks, 4), Le(f.radius, 1) + Le(f.remainingTicks, 4);
    LeFront(e.kind, f.kind, 1, Le(e.cladeId, 4) + (Le(e.center, 2) + e3), Le(f.cladeId, 4) + (Le(f.center, 2) + f3));
    LeFront(e.cladeId, f.cladeId, 4, Le(e.center, 2) + e3, Le(f.center, 2) + f3);
    LeFront(e.center, f.center, 2, e3, f3);
    LeFront(e.radius, f.radius, 1, Le(e.remainingTicks, 4), Le(f.remainingTicks, 4));
    LeInjective(e.remainingTicks, f.remainingTicks, 4);
  }
}
