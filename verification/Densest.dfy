/** The densest place of a clade, harness/src/patrons.rs:182-214: box counts by prefix sums. */
module Densest {
  import opened Arithmetic
  import opened Grid
  import opened Miracles
  import opened Options
  import opened WorldState

  // ---- Counting in corners and boxes ----

  predicate InBox(size: Size, o: Organism, clade: nat, x0: int, y0: int, x1: int, y1: int) {
    o.cladeId == clade && x0 <= X(size, o.cell) < x1 && y0 <= Y(size, o.cell) < y1
  }

  /** Members in the columns from x0 and the rows from y0, up to x1 and y1. */
  function BoxCount(size: Size, os: seq<Organism>, clade: nat, x0: int, y0: int, x1: int, y1: int): nat {
    if os == [] then 0
    else
      var n := |os| - 1;
      BoxCount(size, os[..n], clade, x0, y0, x1, y1) + if InBox(size, os[n], clade, x0, y0, x1, y1) then 1 else 0
  }

  /** Members left of x and above y. */
  function Corner(size: Size, os: seq<Organism>, clade: nat, x: int, y: int): nat {
    BoxCount(size, os, clade, 0, 0, x, y)
  }

  /** A box is two corners less two corners, and nothing is taken from less than it. */
  lemma {:induction false} BoxFromCorners(size: Size, os: seq<Organism>, clade: nat, x0: int, y0: int, x1: int, y1: int)
    requires 0 <= x0 <= x1 && 0 <= y0 <= y1
    ensures BoxCount(size, os, clade, x0, y0, x1, y1) + Corner(size, os, clade, x0, y1) + Corner(size, os, clade, x1, y0)
      == Corner(size, os, clade, x1, y1) + Corner(size, os, clade, x0, y0)
  {
    if os != [] {
      hide X, Y;
      BoxFromCorners(size, os[..|os| - 1], clade, x0, y0, x1, y1);
    }
  }

  lemma {:induction false} CornersGrow(size: Size, os: seq<Organism>, clade: nat, x: int, y: int, x': int, y': int)
    requires x <= x' && y <= y'
    ensures Corner(size, os, clade, x, y) <= Corner(size, os, clade, x', y')
  {
    if os != [] {
      CornersGrow(size, os[..|os| - 1], clade, x, y, x', y');
    }
  }

  lemma {:induction false} EmptyCorner(size: Size, os: seq<Organism>, clade: nat, x: int, y: int)
    requires x <= 0 || y <= 0
    ensures Corner(size, os, clade, x, y) == 0
  {
    if os != [] {
      EmptyCorner(size, os[..|os| - 1], clade, x, y);
    }
  }

  ghost predicate OnMap(size: Size, os: seq<Organism>) {
    forall k :: 0 <= k < |os| ==> os[k].cell < Cells(size)
  }

  /** A box of one cell holds the members in that cell. */
  lemma {:induction false} OneCell(size: Size, os: seq<Organism>, clade: nat, x: nat, y: nat)
    requires OnMap(size, os) && Inside(size, x, y)
    ensures BoxCount(size, os, clade, x, y, x + 1, y + 1) == InCellCount(os, clade, At(size, x, y).value)
  {
    if os != [] {
      var n := |os| - 1;
      OneCell(size, os[..n], clade, x, y);
      CellInside(size, os[n].cell);
    }
  }

  function InCellCount(os: seq<Organism>, clade: nat, cell: nat): nat {
    if os == [] then 0
    else
      var n := |os| - 1;
      InCellCount(os[..n], clade, cell) + if os[n].cladeId == clade && os[n].cell == cell then 1 else 0
  }

  /** The clipped square around a cell holds exactly the members within the radius. */
  lemma {:induction false} SquareCount(size: Size, os: seq<Organism>, clade: nat, c: nat, radius: nat)
    requires OnMap(size, os) && c < Cells(size)
    ensures BoxCount(size, os, clade, Max(X(size, c) - radius, 0), Max(Y(size, c) - radius, 0),
        Min(X(size, c) + radius + 1, size.w), Min(Y(size, c) + radius + 1, size.h))
      == Nearby(size, os, Some(clade), c, radius)
  {
    if os != [] {
      var n := |os| - 1;
      SquareCount(size, os[..n], clade, c, radius);
      CellInside(size, os[n].cell);
    }
  }

  // ---- The prefix sums ----

  /** The place of (x, y) in the sums, one column and one row larger than the map. */
  function Place(size: Size, x: nat, y: nat): nat {
    y * (size.w + 1) + x
  }

  function Larger(size: Size): Size {
    Size(size.w + 1, size.h + 1)
  }

  lemma PlaceInRange(size: Size, x: nat, y: nat)
    requires x <= size.w && y <= size.h
    ensures Place(size, x, y) < Cells(Larger(size))
    ensures X(Larger(size), Place(size, x, y)) == x && Y(Larger(size), Place(size, x, y)) == y
  {
    RowMajor(Larger(size), x, y);
  }

  /** The sums of the rows above y, and of row y up to column x. */
  ghost predicate Summed(pre: seq<nat>, size: Size, os: seq<Organism>, clade: nat, x: nat, y: nat) {
    && |pre| == Cells(Larger(size))
    && (forall a: nat, b: nat :: a <= size.w && b <= size.h && (b < y || (b == y && a <= x) || a == 0) ==>
          Place(size, a, b) < |pre| && pre[Place(size, a, b)] == Corner(size, os, clade, a, b))
  }

  lemma SummedNext(pre: seq<nat>, size: Size, os: seq<Organism>, clade: nat, x: nat, y: nat, value: nat)
    requires x < size.w && y < size.h && Summed(pre, size, os, clade, x, y + 1)
    requires value == Corner(size, os, clade, x + 1, y + 1)
    ensures Place(size, x + 1, y + 1) < |pre|
    ensures Summed(pre[Place(size, x + 1, y + 1) := value], size, os, clade, x + 1, y + 1)
  {
    hide Corner, Place, X, Y;
    PlaceInRange(size, x + 1, y + 1);
    var pre' := pre[Place(size, x + 1, y + 1) := value];
    forall a: nat, b: nat | a <= size.w && b <= size.h && (b < y + 1 || (b == y + 1 && a <= x + 1) || a == 0)
      ensures Place(size, a, b) < |pre| && pre'[Place(size, a, b)] == Corner(size, os, clade, a, b)
    {
      PlaceInRange(size, a, b);
    }
  }

  /** The sum at a place from its neighbours' and the cell between them. */
  lemma CornerStep(size: Size, os: seq<Organism>, clade: nat, x: nat, y: nat)
    requires OnMap(size, os) && Inside(size, x, y)
    ensures Corner(size, os, clade, x + 1, y + 1) + Corner(size, os, clade, x, y)
      == InCellCount(os, clade, At(size, x, y).value) + Corner(size, os, clade, x, y + 1) + Corner(size, os, clade, x + 1, y)
    ensures Corner(size, os, clade, x, y) <= Corner(size, os, clade, x, y + 1)
  {
    hide BoxCount;
    BoxFromCorners(size, os, clade, x, y, x + 1, y + 1);
    OneCell(size, os, clade, x, y);
    CornersGrow(size, os, clade, x, y, x, y + 1);
  }

  method CountCells(size: Size, os: seq<Organism>, clade: nat) returns (grid: array<nat>)
    requires OnMap(size, os)
    ensures fresh(grid) && grid.Length == Cells(size)
    ensures forall c :: 0 <= c < grid.Length ==> grid[c] == InCellCount(os, clade, c)
  {
    grid := new nat[Cells(size)](_ => 0);
    for k := 0 to |os|
      invariant forall c :: 0 <= c < grid.Length ==> grid[c] == InCellCount(os[..k], clade, c)
    {
      assert os[..k + 1][..k] == os[..k];
      if os[k].cladeId == clade {
        grid[os[k].cell] := grid[os[k].cell] + 1;
      }
    }
    assert os[..|os|] == os;
  }

  /** Every entry from its three neighbours; no subtraction takes more than there is. */
  method PrefixSums(size: Size, os: seq<Organism>, clade: nat, grid: array<nat>) returns (pre: array<nat>)
    requires OnMap(size, os) && grid.Length == Cells(size)
    requires forall c :: 0 <= c < grid.Length ==> grid[c] == InCellCount(os, clade, c)
    ensures fresh(pre) && Summed(pre[..], size, os, clade, size.w, size.h)
  {
    hide Corner, Place, InCellCount, At, OnMap, Summed;
    pre := new nat[Cells(Larger(size))](_ => 0);
    NothingSummed(pre[..], size, os, clade);
    for y := 0 to size.h
      invariant Summed(pre[..], size, os, clade, size.w, y)
      invariant forall c :: 0 <= c < grid.Length ==> grid[c] == InCellCount(os, clade, c)
    {
      NextRow(pre[..], size, os, clade, y);
      for x := 0 to size.w
        invariant Summed(pre[..], size, os, clade, x, y + 1)
        invariant forall c :: 0 <= c < grid.Length ==> grid[c] == InCellCount(os, clade, c)
      {
        CellPlace(size, x, y);
        SummedAt(pre[..], size, os, clade, x, y + 1, x, y + 1);
        SummedAt(pre[..], size, os, clade, x, y + 1, x + 1, y);
        SummedAt(pre[..], size, os, clade, x, y + 1, x, y);
        CornerStep(size, os, clade, x, y);
        var sum: nat := grid[y * size.w + x] + pre[Place(size, x, y + 1)] + pre[Place(size, x + 1, y)] - pre[Place(size, x, y)];
        SummedNext(pre[..], size, os, clade, x, y, sum);
        pre[Place(size, x + 1, y + 1)] := sum;
      }
    }
  }

  lemma CellPlace(size: Size, x: nat, y: nat)
    requires Inside(size, x, y)
    ensures At(size, x, y) == Some(y * size.w + x) && y * size.w + x < Cells(size)
  {
    RowMajor(size, x, y);
  }

  lemma NothingSummed(pre: seq<nat>, size: Size, os: seq<Organism>, clade: nat)
    requires |pre| == Cells(Larger(size)) && forall k :: 0 <= k < |pre| ==> pre[k] == 0
    ensures Summed(pre, size, os, clade, size.w, 0)
  {
    hide Corner, Place;
    forall a: nat, b: nat | a <= size.w && b <= size.h && (b < 0 || (b == 0 && a <= size.w) || a == 0)
      ensures Place(size, a, b) < |pre| && pre[Place(size, a, b)] == Corner(size, os, clade, a, b)
    {
      PlaceInRange(size, a, b);
      EmptyCorner(size, os, clade, a, b);
    }
  }

  lemma NextRow(pre: seq<nat>, size: Size, os: seq<Organism>, clade: nat, y: nat)
    requires Summed(pre, size, os, clade, size.w, y)
    ensures Summed(pre, size, os, clade, 0, y + 1)
  {
    hide Corner, Place;
  }

  lemma SummedAt(pre: seq<nat>, size: Size, os: seq<Organism>, clade: nat, x: nat, y: nat, a: nat, b: nat)
    requires Summed(pre, size, os, clade, x, y) && a <= size.w && b <= size.h && (b < y || (b == y && a <= x))
    ensures Place(size, a, b) < |pre| && pre[Place(size, a, b)] == Corner(size, os, clade, a, b)
  {
  }

  // ---- The densest place ----

  /** The first of the cells below n that hold members, with the most members within the radius; the first
      cell and nobody when there are no members there. */
  ghost predicate BestBelow(size: Size, os: seq<Organism>, clade: nat, radius: nat, n: nat, cell: nat, count: nat) {
    && (count == 0 ==> cell == 0 && forall c: nat :: c < n ==> InCellCount(os, clade, c) == 0)
    && (count > 0 ==> cell < n && InCellCount(os, clade, cell) > 0 && count == Nearby(size, os, Some(clade), cell, radius))
    && (forall c: nat :: c < n && InCellCount(os, clade, c) > 0 ==> Nearby(size, os, Some(clade), c, radius) <= count)
    && (forall c: nat :: c < cell && InCellCount(os, clade, c) > 0 ==> Nearby(size, os, Some(clade), c, radius) < count)
  }

  lemma {:induction false} OccupiedIsNearby(size: Size, os: seq<Organism>, clade: nat, c: nat, radius: nat)
    ensures Nearby(size, os, Some(clade), c, radius) >= InCellCount(os, clade, c)
  {
    if os != [] {
      OccupiedIsNearby(size, os[..|os| - 1], clade, c, radius);
    }
  }

  lemma BestNext(size: Size, os: seq<Organism>, clade: nat, radius: nat, n: nat, cell: nat, count: nat)
    requires BestBelow(size, os, clade, radius, n, cell, count)
    ensures InCellCount(os, clade, n) == 0 ==> BestBelow(size, os, clade, radius, n + 1, cell, count)
    ensures InCellCount(os, clade, n) > 0 ==> var here := Nearby(size, os, Some(clade), n, radius);
      if here > count then BestBelow(size, os, clade, radius, n + 1, n, here)
      else BestBelow(size, os, clade, radius, n + 1, cell, count)
  {
    hide Nearby, InCellCount;
    OccupiedIsNearby(size, os, clade, n, radius);
  }

  method FindDensest(size: Size, os: seq<Organism>, clade: nat, radius: nat) returns (cell: nat, count: nat)
    requires OnMap(size, os)
    ensures BestBelow(size, os, clade, radius, Cells(size), cell, count)
  {
    hide Corner, Place, InCellCount, OnMap, Summed, Nearby, BestBelow, At, BoxCount;
    var grid := CountCells(size, os, clade);
    var pre := PrefixSums(size, os, clade, grid);
    cell, count := 0, 0;
    NobodyBelow(size, os, clade, radius);
    ghost var counts, sums := grid[..], pre[..];
    for y := 0 to size.h
      invariant BestBelow(size, os, clade, radius, y * size.w, cell, count)
      invariant grid[..] == counts && pre[..] == sums
    {
      cell, count := DensestInRow(size, os, clade, radius, grid, pre, y, cell, count);
      assert (y + 1) * size.w == y * size.w + size.w;
    }
  }

  method DensestInRow(size: Size, os: seq<Organism>, clade: nat, radius: nat, grid: array<nat>, pre: array<nat>, y: nat,
      cell0: nat, count0: nat) returns (cell: nat, count: nat)
    requires OnMap(size, os) && y < size.h && grid.Length == Cells(size)
    requires forall c :: 0 <= c < grid.Length ==> grid[c] == InCellCount(os, clade, c)
    requires Summed(pre[..], size, os, clade, size.w, size.h) && BestBelow(size, os, clade, radius, y * size.w, cell0, count0)
    ensures BestBelow(size, os, clade, radius, y * size.w + size.w, cell, count)
  {
    hide Corner, Place, InCellCount, OnMap, Summed, Nearby, BestBelow, At, BoxCount;
    cell, count := cell0, count0;
    for x := 0 to size.w
      invariant BestBelow(size, os, clade, radius, y * size.w + x, cell, count)
    {
      CellPlace(size, x, y);
      var c := y * size.w + x;
      BestNext(size, os, clade, radius, c, cell, count);
      if grid[c] != 0 {
        var n := BoxSum(size, os, clade, radius, pre, x, y);
        if n > count {
          cell, count := c, n;
        }
      }
    }
  }

  lemma NobodyBelow(size: Size, os: seq<Organism>, clade: nat, radius: nat)
    ensures BestBelow(size, os, clade, radius, 0, 0, 0)
  {
  }

  /** The members in the clipped square around (x, y), from four sums. */
  method BoxSum(size: Size, os: seq<Organism>, clade: nat, radius: nat, pre: array<nat>, x: nat, y: nat) returns (n: nat)
    requires OnMap(size, os) && Inside(size, x, y) && Summed(pre[..], size, os, clade, size.w, size.h)
    ensures y * size.w + x < Cells(size) && n == Nearby(size, os, Some(clade), y * size.w + x, radius)
  {
    hide Corner, Place, OnMap, Summed, Nearby, At, BoxCount;
    RowMajor(size, x, y);
    var x0: nat, y0: nat := Max(x - radius, 0), Max(y - radius, 0);
    var x1: nat, y1: nat := Min(x + radius + 1, size.w), Min(y + radius + 1, size.h);
    SummedAt(pre[..], size, os, clade, size.w, size.h, x1, y1);
    SummedAt(pre[..], size, os, clade, size.w, size.h, x0, y0);
    SummedAt(pre[..], size, os, clade, size.w, size.h, x0, y1);
    SummedAt(pre[..], size, os, clade, size.w, size.h, x1, y0);
    BoxFromCorners(size, os, clade, x0, y0, x1, y1);
    CornersGrow(size, os, clade, x0, y1, x1, y1);
    SquareCount(size, os, clade, y * size.w + x, radius);
    var both: nat := pre[Place(size, x1, y1)] + pre[Place(size, x0, y0)];
    var left: nat := both - pre[Place(size, x0, y1)];
    n := left - pre[Place(size, x1, y0)];
  }
}
