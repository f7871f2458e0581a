/** The root over the whole world state, core/src/state.rs:280-303, 331-412 and 550-627, and proofs that an
    organism is part of it. */
module StateRoot {
  import opened Bytes
  import opened Hashing
  import opened Leaves
  import opened MerkleTree
  import opened Options
  import opened StateTree
  import opened WorldState

  /** Everything in a state. */
  datatype State = State(worldId: seq<u8>, rulesetId: seq<u8>, width: nat, height: nat, epoch: nat, cells: seq<Cell>,
    organisms: seq<Organism>, clades: map<nat, Clade>, effects: seq<Effect>, rifts: seq<Rift>, museum: seq<MuseumEntry>,
    sporeBank: seq<Founder>, revivals: seq<nat>, cooldowns: seq<Cooldown>, cladeEffects: seq<CladeEffect>, ended: bool,
    nextOrganismId: nat, nextCladeId: nat)

  const IDS: nat := 0x1_0000_0000

  /** The widths of the source's integers. */
  ghost predicate Fits(s: State) {
    && |s.worldId| == 16 && |s.rulesetId| == 32 && Is16(s.width) && Is16(s.height) && Is64(s.epoch)
    && Is64(s.nextOrganismId) && Is32(s.nextCladeId) && ListsFit(s)
    && (forall id :: id in s.clades ==> Is32(id) && CladeFits(s.clades[id]))
  }

  /** Every clade is filed under its id, as check_invariants demands. */
  predicate Filed(clades: map<nat, Clade>) {
    forall id :: id in clades ==> clades[id].id == id
  }

  ghost predicate ListsFit(s: State) {
    && Is32(|s.cells|) && (forall k :: 0 <= k < |s.cells| ==> CellFits(s.cells[k]))
    && (forall k :: 0 <= k < |s.organisms| ==> OrganismFits(s.organisms[k]))
    && (forall k :: 0 <= k < |s.effects| ==> EffectFits(s.effects[k]))
    && (forall k :: 0 <= k < |s.rifts| ==> RiftFits(s.rifts[k]))
    && (forall k :: 0 <= k < |s.museum| ==> EntryFits(s.museum[k]))
    && (forall k :: 0 <= k < |s.sporeBank| ==> GenomeFits(s.sporeBank[k].genome))
    && (forall k :: 0 <= k < |s.revivals| ==> Is64(s.revivals[k]))
    && (forall k :: 0 <= k < |s.cooldowns| ==> CooldownFits(s.cooldowns[k]))
    && Is64(|s.organisms|) && Is64(|s.museum|) && Is64(|s.effects|) && Is64(|s.rifts|) && Is64(|s.sporeBank|)
    && Is64(|s.revivals|)
  }

  // ---- Trees of leaves ----

  /** The leaves under a hash, from left to right. */
  function Frontier(h: Hash): seq<Hash> {
    match h
    case Node(l, r) => Frontier(l) + Frontier(r)
    case _ => [h]
  }

  ghost predicate AllLeaves(hashes: seq<Hash>) {
    forall k :: 0 <= k < |hashes| ==> hashes[k].Leaf?
  }

  lemma {:induction false} FrontierOfRoot(leaves: seq<Hash>)
    requires leaves != [] && AllLeaves(leaves)
    ensures Frontier(Root(leaves)) == leaves
    decreases |leaves|
  {
    if |leaves| > 1 {
      hide Split;
      var k := Split(|leaves|);
      RootStep(leaves);
      FrontierOfRoot(leaves[..k]);
      FrontierOfRoot(leaves[k..]);
      assert leaves == leaves[..k] + leaves[k..];
    }
  }

  /** The root of a tree of leaves determines the leaves, and so how many there are. */
  lemma TreeRootInjective(a: seq<Hash>, b: seq<Hash>, domain: seq<u8>)
    requires AllLeaves(a) && AllLeaves(b) && TreeRoot(a, domain) == TreeRoot(b, domain)
    ensures a == b
  {
    if a != [] {
      FrontierOfRoot(a);
    }
    if b != [] {
      FrontierOfRoot(b);
    }
  }

  /** Whatever a path leads from is in the frontier of what it leads to. */
  lemma {:induction false} PathKeepsFrontier(v: Hash, i: nat, n: nat, path: seq<Hash>, x: Hash)
    requires i < n && RootFromPath(v, i, n, path).Some? && x in Frontier(v)
    ensures x in Frontier(RootFromPath(v, i, n, path).value)
    decreases n
  {
    if n > 1 {
      hide Split;
      PathStep(v, i, n, path);
      var k, init := Split(n), path[..|path| - 1];
      if i < k {
        PathKeepsFrontier(v, i, k, init, x);
      } else {
        PathKeepsFrontier(v, i - k, n - k, init, x);
      }
    }
  }

  // ---- The parts of a state ----

  /** The bytes of a text in the first 256 characters. */
  function Latin(s: string): (bytes: seq<u8>)
    ensures |bytes| == |s| && forall k :: 0 <= k < |s| ==> bytes[k] == s[k] as int % 0x100
  {
    seq(|s|, k requires 0 <= k < |s| => s[k] as int % 0x100)
  }

  datatype Kind = Globals | Cells | Organisms | Clades | Museum | Effects | Rifts | Spores | Revivals | Cooldowns
    | CladeEffects

  function Domain(kind: Kind): seq<u8> {
    match kind
    case Globals => Latin("PROTOGAEA/STATE/A3/GLOBALS")
    case Cells => Latin("PROTOGAEA/STATE/A3/CELL")
    case Organisms => Latin("PROTOGAEA/STATE/A3/ORGANISM")
    case Clades => Latin("PROTOGAEA/STATE/A3/CLADE")
    case Museum => Latin("PROTOGAEA/STATE/A3/MUSEUM")
    case Effects => Latin("PROTOGAEA/STATE/A3/EFFECT")
    case Rifts => Latin("PROTOGAEA/STATE/A3/RIFT")
    case Spores => Latin("PROTOGAEA/STATE/A3/SPORE")
    case Revivals => Latin("PROTOGAEA/STATE/A3/REVIVAL")
    case Cooldowns => Latin("PROTOGAEA/STATE/A3/COOLDOWN")
    case CladeEffects => Latin("PROTOGAEA/STATE/A3/CLADE_EFFECT")
  }

  /** The leaves of one kind. */
  function Hashes(kind: Kind, data: seq<seq<u8>>): (hashes: seq<Hash>)
    ensures |hashes| == |data| && forall k :: 0 <= k < |data| ==> hashes[k] == LeafHash(Domain(kind), data[k])
  {
    seq(|data|, k requires 0 <= k < |data| => LeafHash(Domain(kind), data[k]))
  }

  function Tree(kind: Kind, data: seq<seq<u8>>): Hash {
    TreeRoot(Hashes(kind, data), Domain(kind))
  }

  lemma TreeInjective(kind: Kind, a: seq<seq<u8>>, b: seq<seq<u8>>)
    requires Tree(kind, a) == Tree(kind, b)
    ensures a == b
  {
    hide Domain, TreeRoot;
    TreeRootInjective(Hashes(kind, a), Hashes(kind, b), Domain(kind));
    forall k | 0 <= k < |a|
      ensures a[k] == b[k]
    {
      assert Hashes(kind, a)[k] == Hashes(kind, b)[k];
      SplitEqual(Domain(kind), a[k], Domain(kind), b[k]);
    }
  }

  /** A tree of cooldowns is never a tree of clade effects. */
  lemma CooldownsAreNotCladeEffects(a: seq<seq<u8>>, b: seq<seq<u8>>)
    requires a != [] && b != []
    ensures Tree(Cooldowns, a) != Tree(CladeEffects, b)
  {
    FrontierOfRoot(Hashes(Cooldowns, a));
    FrontierOfRoot(Hashes(CladeEffects, b));
    assert (Domain(Cooldowns) + a[0])[20] == 'O' as int;
    assert (Domain(CladeEffects) + b[0])[20] == 'L' as int;
    assert Hashes(Cooldowns, a)[0] != Hashes(CladeEffects, b)[0];
  }

  function Written<T>(xs: seq<T>, write: T -> seq<u8>): (data: seq<seq<u8>>)
    ensures |data| == |xs| && forall k :: 0 <= k < |xs| ==> data[k] == write(xs[k])
  {
    seq(|xs|, k requires 0 <= k < |xs| => write(xs[k]))
  }

  lemma WrittenInjective<T>(a: seq<T>, b: seq<T>, write: T -> seq<u8>)
    requires Written(a, write) == Written(b, write)
    requires forall x, y :: x in a && y in b && write(x) == write(y) ==> x == y
    ensures a == b
  {
    forall k | 0 <= k < |a|
      ensures a[k] == b[k]
    {
      assert Written(a, write)[k] == Written(b, write)[k];
      assert a[k] in a && b[k] in b;
    }
  }

  /** Cells by index. */
  function CellData(cells: seq<Cell>): (data: seq<seq<u8>>)
    ensures |data| == |cells| && forall k :: 0 <= k < |cells| ==> data[k] == CellBytes(k, cells[k])
  {
    seq(|cells|, k requires 0 <= k < |cells| => CellBytes(k, cells[k]))
  }

  /** The clades with ids below n, in order of id. */
  function ById(clades: map<nat, Clade>, n: nat): seq<Clade> {
    if n == 0 then []
    else ById(clades, n - 1) + if n - 1 in clades then [clades[n - 1]] else []
  }

  lemma {:induction false} ByIdFrom(clades: map<nat, Clade>, n: nat, c: Clade)
    requires c in ById(clades, n)
    ensures exists id :: id in clades && clades[id] == c
  {
    if c in ById(clades, n - 1) {
      ByIdFrom(clades, n - 1, c);
    }
  }

  /** The list by id has every clade once. */
  lemma {:induction false} ByIdCounts(clades: map<nat, Clade>, n: nat)
    ensures |ById(clades, n)| == |KeysBelow(clades, n)|
  {
    if n > 0 {
      ByIdCounts(clades, n - 1);
      var before, now := KeysBelow(clades, n - 1), KeysBelow(clades, n);
      if n - 1 in clades {
        assert now == before + {n - 1};
      } else {
        assert now == before;
      }
    }
  }

  function KeysBelow(clades: map<nat, Clade>, n: nat): set<nat> {
    set id | id in clades && id < n
  }

  lemma {:induction false} ByIdHas(clades: map<nat, Clade>, n: nat, c: Clade)
    requires Filed(clades)
    ensures c in ById(clades, n) <==> c.id < n && c.id in clades && clades[c.id] == c
  {
    if n > 0 {
      ByIdHas(clades, n - 1, c);
    }
  }

  lemma ByIdInjective(a: map<nat, Clade>, b: map<nat, Clade>, n: nat)
    requires Filed(a) && Filed(b) && forall id :: id in a || id in b ==> id < n
    ensures ById(a, n) == ById(b, n) <==> a == b
  {
    hide ById;
    if ById(a, n) == ById(b, n) {
      forall id
        ensures id in a <==> id in b
        ensures id in a && id in b ==> a[id] == b[id]
      {
        if id in a {
          ByIdHas(a, n, a[id]);
          ByIdHas(b, n, a[id]);
        }
        if id in b {
          ByIdHas(b, n, b[id]);
          ByIdHas(a, n, b[id]);
        }
      }
    }
  }

  function GlobalBytes(s: State): seq<u8> {
    s.worldId + (s.rulesetId + NumberBytes(s))
  }

  function Flag(b: bool): nat {
    if b then 1 else 0
  }

  /** The numbers among the global fields, then the lengths of the lists. */
  function NumberBytes(s: State): seq<u8> {
    Le(s.width, 2) + (Le(s.height, 2) + (Le(s.epoch, 8) + (Le(s.nextOrganismId, 8) + (Le(s.nextCladeId, 4)
      + (Le(Flag(s.ended), 1) + LengthBytes(s))))))
  }

  function LengthBytes(s: State): seq<u8> {
    Le(|s.cells|, 8) + Le(|s.organisms|, 8) + Le(|s.clades|, 8) + Le(|s.museum|, 8) + Le(|s.effects|, 8) + Le(|s.rifts|, 8)
      + Le(|s.sporeBank|, 8) + Le(|s.revivals|, 8)
  }

  /** The global leaf: the ids of world and rules, the numbers, and then the lengths of the eight lists. */
  lemma GlobalLayout(s: State)
    requires Fits(s)
    ensures var bytes := GlobalBytes(s);
      && bytes[..16] == s.worldId && bytes[16..48] == s.rulesetId
      && Reads(bytes[48..], Field(2, s.width, Field(2, s.height, Field(8, s.epoch, Field(8, s.nextOrganismId,
           Field(4, s.nextCladeId, Field(1, if s.ended then 1 else 0, Rest)))))))
      && |bytes| == 48 + 25 + 64 && bytes[73..] == LengthBytes(s)
  {
    hide Le, Reads, LengthBytes, ListsFit;
    Spans();
    LengthsAre64(s);
    var lengths := LengthBytes(s);
    NothingThere(lengths);
    ReadsNext(Flag(s.ended), 1, lengths, Rest);
    ReadsNext(s.nextCladeId, 4, Le(Flag(s.ended), 1) + lengths, Field(1, Flag(s.ended), Rest));
    var clade, fs := Le(s.nextCladeId, 4) + (Le(Flag(s.ended), 1) + lengths), Field(4, s.nextCladeId, Field(1, Flag(s.ended), Rest));
    ReadsNext(s.nextOrganismId, 8, clade, fs);
    ReadsNext(s.epoch, 8, Le(s.nextOrganismId, 8) + clade, Field(8, s.nextOrganismId, fs));
    var epoch, fs' := Le(s.epoch, 8) + (Le(s.nextOrganismId, 8) + clade), Field(8, s.epoch, Field(8, s.nextOrganismId, fs));
    ReadsNext(s.height, 2, epoch, fs');
    ReadsNext(s.width, 2, Le(s.height, 2) + epoch, Field(2, s.height, fs'));
    assert GlobalBytes(s)[48..] == NumberBytes(s);
  }

  lemma NothingThere(bytes: seq<u8>)
    ensures Reads(bytes, Rest)
  {
  }

  lemma LengthsAre64(s: State)
    ensures |LengthBytes(s)| == 64
  {
  }

  /** The lengths: of cells, organisms, clades, museum, effects, rifts, spore bank and revivals. */
  lemma LengthLayout(s: State)
    requires |s.cells| < Span(8) && |s.organisms| < Span(8) && |s.clades| < Span(8) && |s.museum| < Span(8)
    requires |s.effects| < Span(8) && |s.rifts| < Span(8) && |s.sporeBank| < Span(8) && |s.revivals| < Span(8)
    ensures Reads(LengthBytes(s)[..32], Field(8, |s.cells|, Field(8, |s.organisms|, Field(8, |s.clades|, Field(8, |s.museum|, Rest)))))
    ensures Reads(LengthBytes(s)[32..], Field(8, |s.effects|, Field(8, |s.rifts|, Field(8, |s.sporeBank|, Field(8, |s.revivals|, Rest)))))
  {
    hide Le, Reads, Span;
    FourLengths(|s.cells|, |s.organisms|, |s.clades|, |s.museum|, LengthBytes(s)[..32]);
    FourLengths(|s.effects|, |s.rifts|, |s.sporeBank|, |s.revivals|, LengthBytes(s)[32..]);
  }

  lemma FourLengths(a: nat, b: nat, c: nat, d: nat, bytes: seq<u8>)
    requires a < Span(8) && b < Span(8) && c < Span(8) && d < Span(8)
    requires bytes == Le(a, 8) + (Le(b, 8) + (Le(c, 8) + Le(d, 8)))
    ensures Reads(bytes, Field(8, a, Field(8, b, Field(8, c, Field(8, d, Rest)))))
  {
    hide Le, Reads, Span;
    ReadsLast(d, 8);
    ReadsNext(c, 8, Le(d, 8), Field(8, d, Rest));
    ReadsNext(b, 8, Le(c, 8) + Le(d, 8), Field(8, c, Field(8, d, Rest)));
    ReadsNext(a, 8, Le(b, 8) + (Le(c, 8) + Le(d, 8)), Field(8, b, Field(8, c, Field(8, d, Rest))));
  }

  lemma GlobalsInjective(s: State, t: State)
    requires Fits(s) && Fits(t) && GlobalBytes(s) == GlobalBytes(t)
    ensures s.worldId == t.worldId && s.rulesetId == t.rulesetId && s.width == t.width && s.height == t.height
    ensures s.epoch == t.epoch && s.nextOrganismId == t.nextOrganismId && s.nextCladeId == t.nextCladeId
    ensures s.ended == t.ended
  {
    hide Le, LengthBytes, ListsFit;
    Spans();
    var a, b := LengthBytes(s), LengthBytes(t);
    var a5, b5 := Le(Flag(s.ended), 1) + a, Le(Flag(t.ended), 1) + b;
    var a4, b4 := Le(s.nextCladeId, 4) + a5, Le(t.nextCladeId, 4) + b5;
    var a3, b3 := Le(s.nextOrganismId, 8) + a4, Le(t.nextOrganismId, 8) + b4;
    var a2, b2 := Le(s.epoch, 8) + a3, Le(t.epoch, 8) + b3;
    SplitEqual(s.worldId, s.rulesetId + NumberBytes(s), t.worldId, t.rulesetId + NumberBytes(t));
    SplitEqual(s.rulesetId, NumberBytes(s), t.rulesetId, NumberBytes(t));
    LeFront(s.width, t.width, 2, Le(s.height, 2) + a2, Le(t.height, 2) + b2);
    LeFront(s.height, t.height, 2, a2, b2);
    LeFront(s.epoch, t.epoch, 8, a3, b3);
    LeFront(s.nextOrganismId, t.nextOrganismId, 8, a4, b4);
    LeFront(s.nextCladeId, t.nextCladeId, 4, a5, b5);
    LeFront(Flag(s.ended), Flag(t.ended), 1, a, b);
  }

  // ---- The root ----

  datatype StateRoots = StateRoots(globals: Hash, cells: Hash, organisms: Hash, clades: Hash, museum: Hash, effects: Hash,
    rifts: Hash, sporeBank: Hash, revivals: Hash, cooldowns: Option<Hash>, cladeEffects: Option<Hash>)

  function OrganismHashes(s: State): seq<Hash> {
    Hashes(Organisms, Written(s.organisms, OrganismBytes))
  }

  function TreeIfAny(kind: Kind, data: seq<seq<u8>>): Option<Hash> {
    if data == [] then None else Some(Tree(kind, data))
  }

  function RootsOf(s: State): StateRoots {
    StateRoots(LeafHash(Domain(Globals), GlobalBytes(s)), Tree(Cells, CellData(s.cells)),
      TreeRoot(OrganismHashes(s), Domain(Organisms)), Tree(Clades, Written(ById(s.clades, IDS), CladeBytes)),
      Tree(Museum, Written(s.museum, EntryBytes)), Tree(Effects, Written(s.effects, EffectBytes)),
      Tree(Rifts, Written(s.rifts, RiftBytes)), Tree(Spores, Written(s.sporeBank, SporeBytes)),
      Tree(Revivals, Written(s.revivals, (e: nat) => Le(e, 8))),
      TreeIfAny(Cooldowns, Written(s.cooldowns, CooldownBytes)),
      TreeIfAny(CladeEffects, Written(s.cladeEffects, CladeEffectBytes)))
  }

  function Optional(part: Option<Hash>): seq<Hash> {
    if part == None then [] else [part.value]
  }

  /** The nine parts that are always there, then those of the last two that are; nothing marks which. */
  function Combined(r: StateRoots): Hash {
    Hash.State([r.globals, r.cells, r.organisms, r.clades, r.museum, r.effects, r.rifts, r.sporeBank, r.revivals]
      + Optional(r.cooldowns) + Optional(r.cladeEffects))
  }

  function RootOf(s: State): Hash {
    Combined(RootsOf(s))
  }

  // ---- The root determines the state ----

  lemma PresentTreesInjective(kind: Kind, a: seq<seq<u8>>, b: seq<seq<u8>>)
    requires TreeIfAny(kind, a) == TreeIfAny(kind, b)
    ensures a == b
  {
    hide Tree;
    if a != [] {
      TreeInjective(kind, a, b);
    }
  }

  /** Although nothing marks which of the last two parts is there, the parts of two states that combine to one
      root are the same. */
  lemma PartsEqual(s: State, t: State)
    requires RootOf(s) == RootOf(t)
    ensures RootsOf(s) == RootsOf(t)
  {
    hide Tree, TreeRoot, CellData, GlobalBytes, Written, LeafHash;
    var a, b := RootsOf(s), RootsOf(t);
    var x := [a.globals, a.cells, a.organisms, a.clades, a.museum, a.effects, a.rifts, a.sporeBank, a.revivals];
    var y := [b.globals, b.cells, b.organisms, b.clades, b.museum, b.effects, b.rifts, b.sporeBank, b.revivals];
    TailsEqual(x, Optional(a.cooldowns), Optional(a.cladeEffects), y, Optional(b.cooldowns), Optional(b.cladeEffects));
    assert a.globals == x[0] && a.cells == x[1] && a.organisms == x[2] && a.clades == x[3] && a.museum == x[4];
    assert a.effects == x[5] && a.rifts == x[6] && a.sporeBank == x[7] && a.revivals == x[8];
    if a.cooldowns.Some? && b.cladeEffects.Some? {
      CooldownsAreNotCladeEffects(Written(s.cooldowns, CooldownBytes), Written(t.cladeEffects, CladeEffectBytes));
    }
    if b.cooldowns.Some? && a.cladeEffects.Some? {
      CooldownsAreNotCladeEffects(Written(t.cooldowns, CooldownBytes), Written(s.cladeEffects, CladeEffectBytes));
    }
  }

  /** One list, cut after nine: the tails are equal, and of two optional parts each is where it is in the
      other unless the first of one is the second of the other. */
  lemma TailsEqual(x: seq<Hash>, p: seq<Hash>, q: seq<Hash>, y: seq<Hash>, u: seq<Hash>, v: seq<Hash>)
    requires |x| == |y| && |p| <= 1 && |q| <= 1 && |u| <= 1 && |v| <= 1
    requires x + p + q == y + u + v
    ensures x == y && p + q == u + v && |p| + |q| == |u| + |v|
    ensures |p| == |u| ==> p == u && q == v
    ensures |p| == 1 && |u| == 0 ==> |v| == 1 && p[0] == v[0]
    ensures |u| == 1 && |p| == 0 ==> |q| == 1 && u[0] == q[0]
  {
    assert x + p + q == x + (p + q) && y + u + v == y + (u + v);
    SplitEqual(x, p + q, y, u + v);
    if |p| == |u| {
      SplitEqual(p, q, u, v);
    }
    assert |p + q| == |u + v|;
    if |p| + |q| > 0 {
      assert (p + q)[0] == (u + v)[0];
    }
  }

  lemma ListsEqual(s: State, t: State)
    requires Fits(s) && Fits(t) && RootsOf(s) == RootsOf(t)
    ensures s.cells == t.cells && s.organisms == t.organisms && s.museum == t.museum && s.effects == t.effects
  {
    hide CellBytes, OrganismBytes, EntryBytes, EffectBytes, OrganismFits, EntryFits, EffectFits, CellFits, TreeIfAny, Tree,
      GlobalBytes, LeafHash;
    TreeInjective(Cells, CellData(s.cells), CellData(t.cells));
    forall k | 0 <= k < |s.cells|
      ensures s.cells[k] == t.cells[k]
    {
      assert CellData(s.cells)[k] == CellData(t.cells)[k];
      CellInjective(k, s.cells[k], k, t.cells[k]);
    }
    forall o, p | o in s.organisms && p in t.organisms && OrganismBytes(o) == OrganismBytes(p)
      ensures o == p
    {
      OrganismInjective(o, p);
    }
    OrganismTrees(s, t);
    WrittenInjective(s.organisms, t.organisms, OrganismBytes);
    forall m, n | m in s.museum && n in t.museum && EntryBytes(m) == EntryBytes(n)
      ensures m == n
    {
      EntryInjective(m, n);
    }
    TreeInjective(Museum, Written(s.museum, EntryBytes), Written(t.museum, EntryBytes));
    WrittenInjective(s.museum, t.museum, EntryBytes);
    forall e, f | e in s.effects && f in t.effects && EffectBytes(e) == EffectBytes(f)
      ensures e == f
    {
      EffectInjective(e, f);
    }
    TreeInjective(Effects, Written(s.effects, EffectBytes), Written(t.effects, EffectBytes));
    WrittenInjective(s.effects, t.effects, EffectBytes);
  }

  lemma OrganismTrees(s: State, t: State)
    requires RootsOf(s).organisms == RootsOf(t).organisms
    ensures Written(s.organisms, OrganismBytes) == Written(t.organisms, OrganismBytes)
  {
    TreeInjective(Organisms, Written(s.organisms, OrganismBytes), Written(t.organisms, OrganismBytes));
  }

  lemma ScheduleEqual(s: State, t: State)
    requires Fits(s) && Fits(t) && RootsOf(s) == RootsOf(t)
    ensures s.rifts == t.rifts && s.sporeBank == t.sporeBank && s.revivals == t.revivals
    ensures ById(s.clades, IDS) == ById(t.clades, IDS)
  {
    hide RiftBytes, SporeBytes, CladeBytes, RiftFits, GenomeFits, CladeFits, TreeIfAny, Tree, GlobalBytes, LeafHash, Le, ById;
    forall r, q | r in s.rifts && q in t.rifts && RiftBytes(r) == RiftBytes(q)
      ensures r == q
    {
      RiftInjective(r, q);
    }
    TreeInjective(Rifts, Written(s.rifts, RiftBytes), Written(t.rifts, RiftBytes));
    WrittenInjective(s.rifts, t.rifts, RiftBytes);
    forall f, g | f in s.sporeBank && g in t.sporeBank && SporeBytes(f) == SporeBytes(g)
      ensures f == g
    {
      SporeInjective(f, g);
    }
    TreeInjective(Spores, Written(s.sporeBank, SporeBytes), Written(t.sporeBank, SporeBytes));
    WrittenInjective(s.sporeBank, t.sporeBank, SporeBytes);
    RevivalsEqual(s, t);
    CladesEqual(s, t);
  }

  lemma RevivalsEqual(s: State, t: State)
    requires Fits(s) && Fits(t) && RootsOf(s).revivals == RootsOf(t).revivals
    ensures s.revivals == t.revivals
  {
    hide Tree, GlobalBytes, Le;
    var write := (e: nat) => Le(e, 8);
    Spans();
    forall e: nat, f: nat | e in s.revivals && f in t.revivals && write(e) == write(f)
      ensures e == f
    {
      LeInjective(e, f, 8);
    }
    TreeInjective(Revivals, Written(s.revivals, write), Written(t.revivals, write));
    WrittenInjective(s.revivals, t.revivals, write);
  }

  lemma CladesEqual(s: State, t: State)
    requires Fits(s) && Fits(t) && RootsOf(s).clades == RootsOf(t).clades
    ensures ById(s.clades, IDS) == ById(t.clades, IDS)
  {
    hide Tree, GlobalBytes, CladeBytes, CladeFits, ById, ListsFit;
    var a, b := ById(s.clades, IDS), ById(t.clades, IDS);
    forall c, d | c in a && d in b && CladeBytes(c) == CladeBytes(d)
      ensures c == d
    {
      ByIdFrom(s.clades, IDS, c);
      ByIdFrom(t.clades, IDS, d);
      CladeInjective(c, d);
    }
    TreeInjective(Clades, Written(a, CladeBytes), Written(b, CladeBytes));
    WrittenInjective(a, b, CladeBytes);
  }

  lemma OptionalListsEqual(s: State, t: State)
    requires Fits(s) && Fits(t) && RootsOf(s) == RootsOf(t)
    ensures s.cooldowns == t.cooldowns && s.cladeEffects == t.cladeEffects
  {
    hide CooldownBytes, CladeEffectBytes, CooldownFits, TreeIfAny, Tree, GlobalBytes, LeafHash, CellData, ById;
    forall c, d | c in s.cooldowns && d in t.cooldowns && CooldownBytes(c) == CooldownBytes(d)
      ensures c == d
    {
      CooldownInjective(c, d);
    }
    PresentTreesInjective(Cooldowns, Written(s.cooldowns, CooldownBytes), Written(t.cooldowns, CooldownBytes));
    WrittenInjective(s.cooldowns, t.cooldowns, CooldownBytes);
    forall e, f | e in s.cladeEffects && f in t.cladeEffects && CladeEffectBytes(e) == CladeEffectBytes(f)
      ensures e == f
    {
      CladeEffectInjective(e, f);
    }
    PresentTreesInjective(CladeEffects, Written(s.cladeEffects, CladeEffectBytes), Written(t.cladeEffects, CladeEffectBytes));
    WrittenInjective(s.cladeEffects, t.cladeEffects, CladeEffectBytes);
  }

  /** Under ideal hashing two states have one root exactly when they agree in everything but the keys under which
      clades are filed, and list the same clades in the order of their keys. */
  lemma RootDeterminesAllButKeys(s: State, t: State)
    requires Fits(s) && Fits(t)
    ensures RootOf(s) == RootOf(t) <==> s.(clades := t.clades) == t && ById(s.clades, IDS) == ById(t.clades, IDS)
  {
    hide Fits, Combined, Tree, CellData, ById, GlobalBytes, Domain, TreeIfAny, Written;
    if RootOf(s) == RootOf(t) {
      PartsEqual(s, t);
      ListsEqual(s, t);
      ScheduleEqual(s, t);
      OptionalListsEqual(s, t);
      SplitEqual(Domain(Globals), GlobalBytes(s), Domain(Globals), GlobalBytes(t));
      GlobalsInjective(s, t);
    }
    if s.(clades := t.clades) == t && ById(s.clades, IDS) == ById(t.clades, IDS) {
      SameGlobals(s, t);
    }
  }

  lemma SameGlobals(s: State, t: State)
    requires Fits(s) && Fits(t) && s.(clades := t.clades) == t && ById(s.clades, IDS) == ById(t.clades, IDS)
    ensures GlobalBytes(s) == GlobalBytes(t)
  {
    hide ById, Le, CladeFits, ListsFit;
    ByIdCounts(s.clades, IDS);
    ByIdCounts(t.clades, IDS);
    assert KeysBelow(s.clades, IDS) == s.clades.Keys && KeysBelow(t.clades, IDS) == t.clades.Keys;
  }

  /** So, with every clade filed under its id, the root determines the whole state, cooldowns and patrons' effects
      included. */
  lemma RootDeterminesState(s: State, t: State)
    requires Fits(s) && Fits(t) && Filed(s.clades) && Filed(t.clades)
    ensures RootOf(s) == RootOf(t) <==> s == t
  {
    hide RootOf, ById, CladeFits, ListsFit;
    RootDeterminesAllButKeys(s, t);
    ByIdInjective(s.clades, t.clades, IDS);
  }

  // ---- Proofs of organisms ----

  datatype OrganismProof = OrganismProof(organism: Organism, index: u64, size: u64, path: seq<Hash>, roots: StateRoots)

  function OrganismLeaf(o: Organism): Hash {
    LeafHash(Domain(Organisms), OrganismBytes(o))
  }

  ghost predicate Accepts(p: OrganismProof, root: Hash) {
    && p.index < p.size && RootFromPath(OrganismLeaf(p.organism), p.index, p.size, p.path) == Some(p.roots.organisms)
    && Combined(p.roots) == root
  }

  method VerifyOrganism(p: OrganismProof, root: Hash) returns (ok: bool)
    ensures ok <==> Accepts(p, root)
  {
    hide RootFromPath, OrganismLeaf, Combined;
    ok := Verify(OrganismLeaf(p.organism), p.index, p.size, p.path, p.roots.organisms);
    ok := ok && Combined(p.roots) == root;
  }

  lemma SameOrganismRoot(r: StateRoots, q: StateRoots)
    requires Combined(r) == Combined(q)
    ensures r.organisms == q.organisms
  {
    var a := [r.globals, r.cells, r.organisms, r.clades, r.museum, r.effects, r.rifts, r.sporeBank, r.revivals]
      + Optional(r.cooldowns) + Optional(r.cladeEffects);
    var b := [q.globals, q.cells, q.organisms, q.clades, q.museum, q.effects, q.rifts, q.sporeBank, q.revivals]
      + Optional(q.cooldowns) + Optional(q.cladeEffects);
    assert a[2] == b[2];
  }

  /** An accepted proof means that the organism lives in that state, whatever place and size it claims. */
  lemma AcceptedLives(p: OrganismProof, s: State)
    requires Fits(s) && OrganismFits(p.organism) && Accepts(p, RootOf(s))
    ensures p.organism in s.organisms
  {
    hide RootFromPath, Combined, Domain, OrganismBytes, OrganismFits, RootsOf;
    SameOrganismRoot(p.roots, RootsOf(s));
    OrganismRootOf(s);
    var leaf, hashes := OrganismLeaf(p.organism), OrganismHashes(s);
    PathKeepsFrontier(leaf, p.index, p.size, p.path, leaf);
    if s.organisms != [] {
      FrontierOfRoot(hashes);
      var k :| 0 <= k < |hashes| && hashes[k] == leaf;
      SplitEqual(Domain(Organisms), OrganismBytes(p.organism), Domain(Organisms), OrganismBytes(s.organisms[k]));
      OrganismInjective(p.organism, s.organisms[k]);
    }
  }

  lemma OrganismRootOf(s: State)
    ensures RootsOf(s).organisms == TreeRoot(OrganismHashes(s), Domain(Organisms))
  {
  }

  /** With the true size the place and the path are the true ones too. */
  lemma AcceptedInPlace(p: OrganismProof, s: State)
    requires Fits(s) && OrganismFits(p.organism) && Accepts(p, RootOf(s)) && p.size == |s.organisms|
    ensures s.organisms[p.index] == p.organism && p.path == AuditPath(OrganismHashes(s), p.index)
  {
    hide RootFromPath, Combined, Domain, OrganismBytes, OrganismFits, RootsOf, AuditPath;
    SameOrganismRoot(p.roots, RootsOf(s));
    OrganismRootOf(s);
    PathExact(OrganismLeaf(p.organism), p.index, OrganismHashes(s), p.path);
    SplitEqual(Domain(Organisms), OrganismBytes(p.organism), Domain(Organisms), OrganismBytes(s.organisms[p.index]));
    OrganismInjective(p.organism, s.organisms[p.index]);
  }

  /** Looks an organism up by its id, in a list ordered by id, and proves it; the proof is accepted. */
  method ProveOrganism(s: State, id: nat) returns (p: Option<OrganismProof>)
    requires Fits(s) && forall i, j :: 0 <= i < j < |s.organisms| ==> s.organisms[i].id < s.organisms[j].id
    ensures p == None <==> forall k :: 0 <= k < |s.organisms| ==> s.organisms[k].id != id
    ensures p.Some? ==> p.value.organism in s.organisms && p.value.organism.id == id && Accepts(p.value, RootOf(s))
  {
    hide RootFromPath, Combined, Domain, OrganismBytes, OrganismFits, RootsOf, AuditPath, ListsFit;
    var lo, hi := 0, |s.organisms|;
    while lo < hi
      invariant 0 <= lo <= hi <= |s.organisms|
      invariant forall k :: 0 <= k < lo || hi <= k < |s.organisms| ==> s.organisms[k].id != id
    {
      var mid := (lo + hi) / 2;
      if s.organisms[mid].id < id {
        lo := mid + 1;
      } else if s.organisms[mid].id > id {
        hi := mid;
      } else {
        var hashes := OrganismHashes(s);
        var path := PushAuditPath(hashes, mid, []);
        ListLengths(s);
        OrganismRootOf(s);
        PathExact(OrganismLeaf(s.organisms[mid]), mid, hashes, path);
        return Some(OrganismProof(s.organisms[mid], mid, |s.organisms|, path, RootsOf(s)));
      }
    }
    p := None;
  }

  lemma ListLengths(s: State)
    requires Fits(s)
    ensures Is64(|s.organisms|)
  {
  }
}
