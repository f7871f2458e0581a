/** The strongest hunter near a cell, core/src/sim.rs:1181-1226: a table of the two strongest hunters of
    different clades answers for every clade at once. */
module Threats {
  import opened Grid
  import opened Options

  /** The strongest hunter of a cell: its attack and its clade. */
  datatype Hunter = Hunter(power: int, clade: nat)

  const NO_POWER: int := -0x8000_0000
  const NOBODY: Hunter := Hunter(NO_POWER, 0)

  datatype TopTwo = TopTwo(first: Hunter, second: Hunter)

  /** The k-th cell of the 3 x 3 area, row by row. */
  function AreaCell(size: Size, c: nat, k: nat): Option<nat> {
    At(size, X(size, c) + k % 3 - 1, Y(size, c) + k / 3 - 1)
  }

  /** The hunters of the first k cells of the area around c. */
  function Area(hunters: seq<Hunter>, size: Size, c: nat, k: nat): seq<Hunter>
    requires |hunters| == Cells(size)
  {
    if k == 0 then []
    else
      var before, cell := Area(hunters, size, c, k - 1), AreaCell(size, c, k - 1);
      if cell.Some? && hunters[cell.value].power != NO_POWER then before + [hunters[cell.value]] else before
  }

  /** The largest attack among hunters of other clades. */
  function StrongestOther(hunters: seq<Hunter>, clade: nat): int {
    if hunters == [] then NO_POWER
    else
      var last, rest := hunters[|hunters| - 1], StrongestOther(hunters[..|hunters| - 1], clade);
      if last.clade != clade && last.power > rest then last.power else rest
  }

  /** What a scan of the 3 x 3 area around c finds for an organism of a clade. */
  function Scan(hunters: seq<Hunter>, size: Size, c: nat, clade: nat): int
    requires |hunters| == Cells(size)
  {
    StrongestOther(Area(hunters, size, c, 9), clade)
  }

  function Answer(t: TopTwo, clade: nat): int {
    if t.first.clade != clade then t.first.power else t.second.power
  }

  /** The table answers for every clade what a scan of `seen` would. */
  ghost predicate Answers(t: TopTwo, seen: seq<Hunter>) {
    && (forall clade :: Answer(t, clade) == StrongestOther(seen, clade))
    && NO_POWER <= t.second.power <= t.first.power
    && (t.second.clade == t.first.clade ==> t.second.power == NO_POWER)
  }

  function Inserted(t: TopTwo, h: Hunter): TopTwo {
    if h.power > t.first.power then
      TopTwo(h, if h.clade != t.first.clade then t.first else t.second)
    else if h.clade != t.first.clade && h.power > t.second.power then TopTwo(t.first, h)
    else t
  }

  lemma InsertKeeps(t: TopTwo, seen: seq<Hunter>, h: Hunter)
    requires Answers(t, seen) && h.power != NO_POWER && h.power >= NO_POWER
    ensures Answers(Inserted(t, h), seen + [h])
  {
    assert (seen + [h])[..|seen|] == seen;
    forall clade
      ensures Answer(Inserted(t, h), clade) == StrongestOther(seen + [h], clade)
    {
      assert Answer(t, clade) == StrongestOther(seen, clade);
    }
  }

  /** Fills the table once a tick. */
  method Tabulate(hunters: seq<Hunter>, size: Size) returns (table: seq<TopTwo>)
    requires |hunters| == Cells(size) && forall n :: 0 <= n < |hunters| ==> hunters[n].power >= NO_POWER
    ensures |table| == |hunters|
    ensures forall c :: 0 <= c < |table| ==> Answers(table[c], Area(hunters, size, c, 9))
  {
    table := [];
    for c := 0 to |hunters|
      invariant |table| == c
      invariant forall b :: 0 <= b < c ==> Answers(table[b], Area(hunters, size, b, 9))
    {
      var t := TopTwo(NOBODY, NOBODY);
      var x: int, y: int := X(size, c), Y(size, c);
      for dy := -1 to 2
        invariant Answers(t, Area(hunters, size, c, 3 * (dy + 1)))
      {
        for dx := -1 to 2
          invariant Answers(t, Area(hunters, size, c, 3 * (dy + 1) + dx + 1))
        {
          ghost var k: nat := 3 * (dy + 1) + dx + 1;
          assert k % 3 - 1 == dx && k / 3 - 1 == dy;
          var cell := At(size, x + dx, y + dy);
          assert cell == AreaCell(size, c, k);
          if cell.Some? && hunters[cell.value].power != NO_POWER {
            InsertKeeps(t, Area(hunters, size, c, k), hunters[cell.value]);
            t := Inserted(t, hunters[cell.value]);
          }
        }
      }
      table := table + [t];
    }
  }

  // ---- What the scan finds ----

  predicate InArea(size: Size, c: nat, k: nat, n: nat) {
    exists j :: 0 <= j < k && AreaCell(size, c, j) == Some(n)
  }

  predicate Rival(hunters: seq<Hunter>, n: nat, clade: nat)
    requires n < |hunters|
  {
    hunters[n].clade != clade && hunters[n].power != NO_POWER
  }

  lemma {:induction false} ScanBound(hunters: seq<Hunter>, size: Size, c: nat, clade: nat, k: nat, n: nat)
    requires |hunters| == Cells(size) && InArea(size, c, k, n) && n < |hunters| && Rival(hunters, n, clade)
    ensures hunters[n].power <= StrongestOther(Area(hunters, size, c, k), clade)
  {
    var before, cell := Area(hunters, size, c, k - 1), AreaCell(size, c, k - 1);
    if cell != Some(n) {
      ScanBound(hunters, size, c, clade, k - 1, n);
    }
    if cell.Some? {
      assert (before + [hunters[cell.value]])[..|before|] == before;
    }
  }

  lemma {:induction false} ScanAttained(hunters: seq<Hunter>, size: Size, c: nat, clade: nat, k: nat)
    requires |hunters| == Cells(size) && StrongestOther(Area(hunters, size, c, k), clade) != NO_POWER
    ensures exists n :: (0 <= n < |hunters| && InArea(size, c, k, n) && Rival(hunters, n, clade)
      && hunters[n].power == StrongestOther(Area(hunters, size, c, k), clade))
  {
    var before, cell := Area(hunters, size, c, k - 1), AreaCell(size, c, k - 1);
    if cell.Some? {
      assert (before + [hunters[cell.value]])[..|before|] == before;
    }
    if StrongestOther(Area(hunters, size, c, k), clade) == StrongestOther(before, clade) {
      ScanAttained(hunters, size, c, clade, k - 1);
      var n :| 0 <= n < |hunters| && InArea(size, c, k - 1, n) && Rival(hunters, n, clade) &&
        hunters[n].power == StrongestOther(before, clade);
      assert InArea(size, c, k, n);
    } else {
      assert InArea(size, c, k, cell.value);
    }
  }

  lemma AreaIsTheNeighborhood(size: Size, c: nat, n: nat)
    requires c < Cells(size) && n < Cells(size)
    ensures Chebyshev(size, c, n) <= 1 <==> InArea(size, c, 9, n)
  {
    CellInside(size, n);
    if Chebyshev(size, c, n) <= 1 {
      var j := 3 * (Y(size, n) - Y(size, c) + 1) + X(size, n) - X(size, c) + 1;
      assert j % 3 - 1 == X(size, n) - X(size, c) && j / 3 - 1 == Y(size, n) - Y(size, c);
      assert AreaCell(size, c, j) == Some(n);
    }
  }

  /** A hunter of another clade within one cell. */
  predicate RivalNear(hunters: seq<Hunter>, size: Size, c: nat, clade: nat, n: nat) {
    n < |hunters| && Chebyshev(size, c, n) <= 1 && Rival(hunters, n, clade)
  }

  /** The scan is the strongest hunter of another clade within one cell, whichever cell it is in. */
  lemma ScanIsStrongest(hunters: seq<Hunter>, size: Size, c: nat, clade: nat)
    requires c < Cells(size) == |hunters|
    ensures forall n: nat :: RivalNear(hunters, size, c, clade, n) ==>
      hunters[n].power <= Scan(hunters, size, c, clade)
    ensures Scan(hunters, size, c, clade) != NO_POWER ==>
      exists n: nat :: RivalNear(hunters, size, c, clade, n) && hunters[n].power == Scan(hunters, size, c, clade)
  {
    hide Chebyshev, AreaCell, Area, StrongestOther, InArea;
    forall n: nat | RivalNear(hunters, size, c, clade, n)
      ensures hunters[n].power <= Scan(hunters, size, c, clade)
    {
      AreaIsTheNeighborhood(size, c, n);
      ScanBound(hunters, size, c, clade, 9, n);
    }
    if Scan(hunters, size, c, clade) != NO_POWER {
      ScanAttained(hunters, size, c, clade, 9);
      var n :| 0 <= n < |hunters| && InArea(size, c, 9, n) && Rival(hunters, n, clade) &&
        hunters[n].power == StrongestOther(Area(hunters, size, c, 9), clade);
      AreaIsTheNeighborhood(size, c, n);
      assert RivalNear(hunters, size, c, clade, n);
    }
  }
}
