/** Death during a tick, core/src/sim.rs:1323-1356. */
module Deaths {
  import opened Genomes
  import opened Herd
  import opened TickState
  import opened WorldState

  datatype DeathCause = Starvation | OldAge | Predation | Plague | Drowned

  const U32_MAX: nat := 0xFFFF_FFFF

  function SaturatingAdd(a: nat, b: nat): (r: nat)
    ensures r <= a + b
  {
    if a + b > U32_MAX && a <= U32_MAX then U32_MAX else a + b
  }

  // ---- Death ----

  function Remains(rules: Ruleset, cause: DeathCause): nat {
    match cause
    case Predation => rules.remainsDetritus
    case Starvation => rules.bodyDetritus
    case OldAge => rules.bodyDetritus
    case Plague => rules.bodyDetritus
    case Drowned => 0
  }

  function WithRemains(cells: seq<Cell>, c: nat, detritus: nat): seq<Cell>
    requires c < |cells|
  {
    cells[c := cells[c].(detritus := SaturatingAdd(cells[c].detritus, detritus))]
  }

  /** Remains add to the detritus of their cell, up to what a cell can count, and touch nothing else. */
  lemma RemainsExactly(cells: seq<Cell>, c: nat, detritus: nat)
    requires c < |cells| && cells[c].detritus <= 0xFFFF_FFFF
    ensures var after := WithRemains(cells, c, detritus);
      && after == cells[c := cells[c].(detritus := after[c].detritus)]
      && after[c].detritus <= 0xFFFF_FFFF && after[c].detritus <= cells[c].detritus + detritus
      && (after[c].detritus == 0xFFFF_FFFF || after[c].detritus == cells[c].detritus + detritus)
  {
  }

  /** Organism i dies where it stands: it leaves the index, its clade and the count, and only its cell's
      detritus changes. */
  method Kill(w: World, s: Scratch, rules: Ruleset, i: nat, cause: DeathCause)
    requires Ticking(w, s, rules) && i < |w.organisms| && s.alive[i]
    modifies w`clades, w`cells, s`alive, s`aliveCount, s`occ, s`members
    ensures Ticking(w, s, rules)
    ensures s.alive == old(s.alive)[i := false]
    ensures w.organisms[i].cladeId in old(w.clades)
    ensures w.clades == Fewer(old(w.clades), w.organisms[i].cladeId)
    ensures w.organisms[i].cell < |old(w.cells)|
    ensures w.cells == WithRemains(old(w.cells), w.organisms[i].cell, Remains(rules, cause))
    ensures w.cells == WithRemains(old(w.cells), w.organisms[i].cell,
      if cause == Drowned then 0 else if cause == Predation then rules.remainsDetritus else rules.bodyDetritus)
    ensures w.organisms[i].cell < |old(s.occ)| && old(s.occ)[w.organisms[i].cell] > 0
    ensures s.occ == old(s.occ)[w.organisms[i].cell := old(s.occ)[w.organisms[i].cell] - 1]
    ensures s.aliveCount == old(s.aliveCount) - 1
  {
    hide Crowd, ClansFine, Count, Sound, TablesFine, Ascending, IsValid, Left, Listed;
    var o := w.organisms[i];
    assert Stands(w.cells, o);
    LeaveKeeps(s.Ix(), |w.cells|, rules.maxPerCell, w.organisms, s.alive, i);
    DeathKeepsClans(w.organisms, s.alive, w.clades, w.nextCladeId, i);
    CountWithout(w.organisms, s.alive, i, Anyone);
    s.alive := s.alive[i := false];
    s.aliveCount := s.aliveCount - 1;
    s.Remove(o.cell, i);
    w.clades := w.clades[o.cladeId := w.clades[o.cladeId].(living := w.clades[o.cladeId].living - 1)];
    w.cells := WithRemains(w.cells, o.cell, Remains(rules, cause));
  }
}
