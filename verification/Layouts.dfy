/** Where every field of a leaf is found, core/src/state.rs:519-548 and 629-731 and protocol/src/spark.rs: what a reader gets
    who takes integers of the widths of the format, lowest byte first. */
module Layouts {
  import opened Bytes
  import opened Genomes
  import opened Hashing
  import opened Leaves
  import opened Sparks
  import opened WorldState

  // ---- The leaves of a state ----

  /** An organism; its genome comes last. */
  lemma OrganismLayout(o: Organism)
    requires OrganismFits(o)
    ensures var energy := if o.energy < 0 then o.energy + 0x1_0000_0000 else o.energy;
      Reads(OrganismBytes(o), Field(8, o.id, Field(8, o.parentId, Field(4, o.lineageId, Field(4, o.cladeId,
        Field(2, o.cell, Field(4, o.age, Field(4, energy, Rest))))))))
    ensures OrganismBytes(o)[34..] == GenomeBytes(o.genome)
  {
    hide Le, GenomeBytes, Reads;
    Spans();
    var genome := GenomeBytes(o.genome);
    NothingRead(genome);
    ReadsNext(Unsigned32(o.energy), 4, genome, Rest);
    var energy := Le(Unsigned32(o.energy), 4) + genome;
    var fs := Field(4, Unsigned32(o.energy), Rest);
    ReadsNext(o.age, 4, energy, fs);
    ReadsNext(o.cell, 2, Le(o.age, 4) + energy, Field(4, o.age, fs));
    var cell, fs' := Le(o.cell, 2) + (Le(o.age, 4) + energy), Field(2, o.cell, Field(4, o.age, fs));
    ReadsNext(o.cladeId, 4, cell, fs');
    ReadsNext(o.lineageId, 4, Le(o.cladeId, 4) + cell, Field(4, o.cladeId, fs'));
    var lineage, fs'' := Le(o.lineageId, 4) + (Le(o.cladeId, 4) + cell), Field(4, o.lineageId, Field(4, o.cladeId, fs'));
    ReadsNext(o.parentId, 8, lineage, fs'');
    ReadsNext(o.id, 8, Le(o.parentId, 8) + lineage, Field(8, o.parentId, fs''));
  }

  lemma NothingRead(bytes: seq<u8>)
    ensures Reads(bytes, Rest)
  {
  }

  lemma CellLayout(index: nat, c: Cell)
    requires Is32(index) && CellFits(c)
    ensures Reads(CellBytes(index, c), Field(4, index, Field(1, BiomeCode(c.biome), Field(4, c.food, Field(4, c.detritus,
      Field(1, c.moisture, Field(1, Rank(c.rift), Rest)))))))
  {
    hide Le, BiomeCode, Rank, Reads;
    Spans();
    CodesAreInjective(c.biome, c.biome, c.rift, c.rift);
    ReadsLast(Rank(c.rift), 1);
    ReadsNext(c.moisture, 1, Le(Rank(c.rift), 1), Field(1, Rank(c.rift), Rest));
    var moisture, fs := Le(c.moisture, 1) + Le(Rank(c.rift), 1), Field(1, c.moisture, Field(1, Rank(c.rift), Rest));
    ReadsNext(c.detritus, 4, moisture, fs);
    ReadsNext(c.food, 4, Le(c.detritus, 4) + moisture, Field(4, c.detritus, fs));
    var food, fs' := Le(c.food, 4) + (Le(c.detritus, 4) + moisture), Field(4, c.food, Field(4, c.detritus, fs));
    ReadsNext(BiomeCode(c.biome), 1, food, fs');
    ReadsNext(index, 4, Le(BiomeCode(c.biome), 1) + food, Field(1, BiomeCode(c.biome), fs'));
  }

  /** The optional part of a clade and of a museum entry: a second parent, if there is one. */
  lemma SecondLayout(id: nat)
    requires Is32(id)
    ensures if id == 0 then SecondPart(id) == [] else |SecondPart(id)| == 4 && Reads(SecondPart(id), Field(4, id, Rest))
  {
    hide Le, Reads;
    Spans();
    if id != 0 {
      ReadsLast(id, 4);
    }
  }

  /** A clade: its reference stands between its ids and its numbers. */
  lemma CladeLayout(c: Clade)
    requires CladeFits(c)
    ensures var bytes, n := CladeBytes(c), 8 + |GenomeBytes(c.reference)|;
      && Reads(bytes, Field(4, c.id, Field(4, c.parentId, Rest)))
      && n + 16 <= |bytes| && bytes[8..n] == GenomeBytes(c.reference)
      && Reads(bytes[n..], Field(8, c.foundedEpoch, Field(4, c.living, Field(4, c.peakLiving, Rest))))
      && bytes[n + 16..] == SecondPart(c.secondParentId)
  {
    hide Le, GenomeBytes, Reads, SecondPart;
    Spans();
    var second := SecondPart(c.secondParentId);
    NothingRead(second);
    ReadsNext(c.peakLiving, 4, second, Rest);
    ReadsNext(c.living, 4, Le(c.peakLiving, 4) + second, Field(4, c.peakLiving, Rest));
    var living := Le(c.living, 4) + (Le(c.peakLiving, 4) + second);
    ReadsNext(c.foundedEpoch, 8, living, Field(4, c.living, Field(4, c.peakLiving, Rest)));
    var founded := Le(c.foundedEpoch, 8) + living;
    var reference := GenomeBytes(c.reference) + founded;
    NothingRead(reference);
    ReadsNext(c.parentId, 4, reference, Rest);
    ReadsNext(c.id, 4, Le(c.parentId, 4) + reference, Field(4, c.parentId, Rest));
    InTheMiddle(Le(c.id, 4) + Le(c.parentId, 4), GenomeBytes(c.reference), founded, CladeBytes(c));
    assert founded[16..] == second;
  }

  lemma InTheMiddle(a: seq<u8>, b: seq<u8>, c: seq<u8>, all: seq<u8>)
    requires all == a + (b + c)
    ensures |all| == |a| + |b| + |c| && all[|a|..|a| + |b|] == b && all[|a| + |b|..] == c
  {
  }

  lemma EntryLayout(m: MuseumEntry)
    requires EntryFits(m)
    ensures var bytes, n := EntryBytes(m), 8 + |GenomeBytes(m.reference)|;
      && Reads(bytes, Field(4, m.cladeId, Field(4, m.parentId, Rest)))
      && n + 20 <= |bytes| && bytes[8..n] == GenomeBytes(m.reference)
      && Reads(bytes[n..], Field(8, m.foundedEpoch, Field(8, m.extinctEpoch, Field(4, m.peakLiving, Rest))))
      && bytes[n + 20..] == SecondPart(m.secondParentId)
  {
    hide Le, GenomeBytes, Reads, SecondPart;
    Spans();
    var second := SecondPart(m.secondParentId);
    NothingRead(second);
    ReadsNext(m.peakLiving, 4, second, Rest);
    ReadsNext(m.extinctEpoch, 8, Le(m.peakLiving, 4) + second, Field(4, m.peakLiving, Rest));
    var extinct := Le(m.extinctEpoch, 8) + (Le(m.peakLiving, 4) + second);
    ReadsNext(m.foundedEpoch, 8, extinct, Field(8, m.extinctEpoch, Field(4, m.peakLiving, Rest)));
    var founded := Le(m.foundedEpoch, 8) + extinct;
    var reference := GenomeBytes(m.reference) + founded;
    NothingRead(reference);
    ReadsNext(m.parentId, 4, reference, Rest);
    ReadsNext(m.cladeId, 4, Le(m.parentId, 4) + reference, Field(4, m.parentId, Rest));
    InTheMiddle(Le(m.cladeId, 4) + Le(m.parentId, 4), GenomeBytes(m.reference), founded, EntryBytes(m));
    assert founded[20..] == second;
  }

  lemma EffectLayout(e: Effect)
    requires EffectFits(e)
    ensures Reads(EffectBytes(e), Field(1, EffectCode(e.kind), Field(2, e.center, Field(1, e.radius,
      Field(4, e.remainingTicks, Rest)))))
    ensures 1 <= EffectCode(e.kind) <= 5
  {
    assert 1 <= EffectCode(e.kind) <= 5;
    hide Le, EffectCode, Reads;
    Spans();
    ReadsLast(e.remainingTicks, 4);
    ReadsNext(e.radius, 1, Le(e.remainingTicks, 4), Field(4, e.remainingTicks, Rest));
    var radius, fs := Le(e.radius, 1) + Le(e.remainingTicks, 4), Field(1, e.radius, Field(4, e.remainingTicks, Rest));
    ReadsNext(e.center, 2, radius, fs);
    ReadsNext(EffectCode(e.kind), 1, Le(e.center, 2) + radius, Field(2, e.center, fs));
  }

  lemma RiftLayout(r: Rift)
    requires RiftFits(r)
    ensures Reads(RiftBytes(r), Field(2, r.cell, Field(1, r.bridge, Field(8, r.faultEpoch, Field(8, r.shallowsEpoch,
      Field(8, r.deepEpoch, Rest))))))
  {
    hide Le, Reads;
    Spans();
    ReadsLast(r.deepEpoch, 8);
    ReadsNext(r.shallowsEpoch, 8, Le(r.deepEpoch, 8), Field(8, r.deepEpoch, Rest));
    var shallows, fs := Le(r.shallowsEpoch, 8) + Le(r.deepEpoch, 8), Field(8, r.shallowsEpoch, Field(8, r.deepEpoch, Rest));
    ReadsNext(r.faultEpoch, 8, shallows, fs);
    ReadsNext(r.bridge, 1, Le(r.faultEpoch, 8) + shallows, Field(8, r.faultEpoch, fs));
    ReadsNext(r.cell, 2, Le(r.bridge, 1) + (Le(r.faultEpoch, 8) + shallows), Field(1, r.bridge, Field(8, r.faultEpoch, fs)));
  }

  lemma CooldownLayout(c: Cooldown)
    requires CooldownFits(c)
    ensures Reads(CooldownBytes(c), Field(1, c.kind, Field(4, c.key, Field(8, c.until, Rest))))
  {
    hide Le, Reads;
    Spans();
    ReadsLast(c.until, 8);
    ReadsNext(c.key, 4, Le(c.until, 8), Field(8, c.until, Rest));
    ReadsNext(c.kind, 1, Le(c.key, 4) + Le(c.until, 8), Field(4, c.key, Field(8, c.until, Rest)));
  }

  lemma CladeEffectLayout(e: CladeEffect)
    ensures Reads(CladeEffectBytes(e), Field(1, e.kind, Field(4, e.cladeId, Field(2, e.center, Field(1, e.radius,
      Field(4, e.remainingTicks, Rest))))))
  {
    hide Le, Reads;
    Spans();
    ReadsLast(e.remainingTicks, 4);
    ReadsNext(e.radius, 1, Le(e.remainingTicks, 4), Field(4, e.remainingTicks, Rest));
    var radius, fs := Le(e.radius, 1) + Le(e.remainingTicks, 4), Field(1, e.radius, Field(4, e.remainingTicks, Rest));
    ReadsNext(e.center, 2, radius, fs);
    ReadsNext(e.cladeId, 4, Le(e.center, 2) + radius, Field(2, e.center, fs));
    ReadsNext(e.kind, 1, Le(e.cladeId, 4) + (Le(e.center, 2) + radius), Field(4, e.cladeId, Field(2, e.center, fs)));
  }

  lemma SporeLayout(s: Founder)
    ensures var bytes, n := SporeBytes(s), |GenomeBytes(s.genome)|;
      n <= |bytes| && bytes[..n] == GenomeBytes(s.genome) && Reads(bytes[n..], Field(1, BiomeCode(s.biome), Rest))
  {
    hide Le, BiomeCode, GenomeBytes, Reads;
    Spans();
    CodesAreInjective(s.biome, s.biome, NoRift, NoRift);
    Behind(GenomeBytes(s.genome), Le(BiomeCode(s.biome), 1));
    ReadsLast(BiomeCode(s.biome), 1);
  }

  /** A genome: the six traits, the behavioral genes and the hue; then the gifts, if there are any, and the two lanes of later
      rules, if either is in use. */
  lemma GenomeLayout(g: Genome)
    requires GenomeFits(g)
    ensures var t := g.lanes;
      Reads(GenomeBytes(g), Field(1, t[0], Field(1, t[1], Field(1, t[2], Field(1, t[3], Field(1, t[4], Field(1, t[5],
        Field(1, g.habitat, Field(1, g.dispersal, Field(1, g.boldness, Field(2, g.hue, Rest)))))))))))
    ensures GenomeBytes(g)[11..] == GiftPart(g) + ExtraPart(g)
    ensures if g.gifts == 0 then GiftPart(g) == [] else Reads(GiftPart(g), Field(1, g.gifts, Rest)) && |GiftPart(g)| == 1
    ensures if g.lanes[6] == 0 && g.lanes[7] == 0 then ExtraPart(g) == []
      else Reads(ExtraPart(g), Field(1, g.lanes[6], Field(1, g.lanes[7], Rest))) && |ExtraPart(g)| == 2
  {
    OptionalLayout(g);
    hide Le, Reads, GiftPart, ExtraPart, SmallBytes;
    var more, t := GiftPart(g) + ExtraPart(g), g.lanes;
    var behavior := Le(g.habitat, 1) + (Le(g.dispersal, 1) + (Le(g.boldness, 1) + (Le(g.hue, 2) + more)));
    BehaviorLayout(g, more, behavior);
    SixRead(t[..6], behavior,
      Field(1, g.habitat, Field(1, g.dispersal, Field(1, g.boldness, Field(2, g.hue, Rest)))));
    assert GenomeBytes(g) == SmallBytes(t[..6]) + behavior;
  }

  lemma BehaviorLayout(g: Genome, more: seq<u8>, bytes: seq<u8>)
    requires GenomeFits(g)
    requires bytes == Le(g.habitat, 1) + (Le(g.dispersal, 1) + (Le(g.boldness, 1) + (Le(g.hue, 2) + more)))
    ensures Reads(bytes, Field(1, g.habitat, Field(1, g.dispersal, Field(1, g.boldness, Field(2, g.hue, Rest)))))
  {
    hide Le, Reads;
    Spans();
    NothingRead(more);
    ReadsNext(g.hue, 2, more, Rest);
    ReadsNext(g.boldness, 1, Le(g.hue, 2) + more, Field(2, g.hue, Rest));
    var boldness, fs := Le(g.boldness, 1) + (Le(g.hue, 2) + more), Field(1, g.boldness, Field(2, g.hue, Rest));
    ReadsNext(g.dispersal, 1, boldness, fs);
    ReadsNext(g.habitat, 1, Le(g.dispersal, 1) + boldness, Field(1, g.dispersal, fs));
  }

  lemma SixRead(t: seq<nat>, rest: seq<u8>, more: Fields)
    requires |t| == 6 && (forall k :: 0 <= k < 6 ==> Is8(t[k])) && Reads(rest, more)
    ensures Reads(SmallBytes(t) + rest, Field(1, t[0], Field(1, t[1], Field(1, t[2], Field(1, t[3], Field(1, t[4],
      Field(1, t[5], more)))))))
  {
    hide Le, Reads;
    assert SmallBytes(t[6..]) + rest == rest;
    SmallRead(t, 5, rest, more);
    var fs := Field(1, t[5], more);
    SmallRead(t, 4, rest, fs);
    SmallRead(t, 3, rest, Field(1, t[4], fs));
    var fs' := Field(1, t[3], Field(1, t[4], fs));
    SmallRead(t, 2, rest, fs');
    SmallRead(t, 1, rest, Field(1, t[2], fs'));
    SmallRead(t, 0, rest, Field(1, t[1], Field(1, t[2], fs')));
    assert t[0..] == t;
  }

  lemma SmallRead(t: seq<nat>, k: nat, rest: seq<u8>, more: Fields)
    requires k < |t| && Is8(t[k]) && Reads(SmallBytes(t[k + 1..]) + rest, more)
    ensures Reads(SmallBytes(t[k..]) + rest, Field(1, t[k], more))
  {
    Spans();
    assert t[k..][1..] == t[k + 1..];
    assert SmallBytes(t[k..]) + rest == Le(t[k], 1) + (SmallBytes(t[k + 1..]) + rest);
    ReadsNext(t[k], 1, SmallBytes(t[k + 1..]) + rest, more);
  }

  lemma OptionalLayout(g: Genome)
    requires GenomeFits(g)
    ensures if g.gifts == 0 then GiftPart(g) == [] else Reads(GiftPart(g), Field(1, g.gifts, Rest)) && |GiftPart(g)| == 1
    ensures if g.lanes[6] == 0 && g.lanes[7] == 0 then ExtraPart(g) == []
      else Reads(ExtraPart(g), Field(1, g.lanes[6], Field(1, g.lanes[7], Rest))) && |ExtraPart(g)| == 2
  {
    hide Le, Reads;
    Spans();
    if g.gifts != 0 {
      ReadsLast(g.gifts, 1);
    }
    if g.lanes[6] != 0 || g.lanes[7] != 0 {
      var t := g.lanes[6..];
      NothingRead(SmallBytes(t[2..]) + []);
      SmallRead(t, 1, [], Rest);
      SmallRead(t, 0, [], Field(1, t[1], Rest));
      assert t[0..] == t && SmallBytes(t) + [] == SmallBytes(t);
    }
  }

  // ---- The leaves of the spark log ----

  lemma SparkLayout(epoch: u64, s: Spark)
    ensures var bytes := Sparks.LeafBytes(epoch, s);
      && Reads(bytes, Field(8, epoch, Rest)) && bytes[8..40] == s.proposalId && bytes[40..72] == s.miner
      && Reads(bytes[72..], Field(8, s.nonce, Rest))
  {
    hide Le, Reads;
    Spans();
    var bytes := Sparks.LeafBytes(epoch, s);
    NothingRead(s.proposalId + (s.miner + Le(s.nonce, 8)));
    ReadsNext(epoch, 8, s.proposalId + (s.miner + Le(s.nonce, 8)), Rest);
    assert bytes[72..] == Le(s.nonce, 8);
    ReadsLast(s.nonce, 8);
  }
}
