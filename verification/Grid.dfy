/** The map as a grid of cells numbered row by row: World::index and World::coords of core/src/state.rs. */
module Grid {
  import opened Arithmetic
  import opened Options

  datatype Size = Size(w: nat, h: nat)

  function Cells(size: Size): nat {
    size.w * size.h
  }

  predicate Inside(size: Size, x: int, y: int) {
    0 <= x < size.w && 0 <= y < size.h
  }

  /** The cell at (x, y), or none outside the map. */
  function At(size: Size, x: int, y: int): (r: Option<nat>)
    ensures r.Some? <==> Inside(size, x, y)
    ensures r.Some? ==> r.value < Cells(size) && X(size, r.value) == x && Y(size, r.value) == y
  {
    if !Inside(size, x, y) then None
    else
      RowMajor(size, x, y);
      Some(y * size.w + x)
  }

  function X(size: Size, i: nat): nat {
    if size.w == 0 then 0 else i % size.w
  }

  function Y(size: Size, i: nat): nat {
    if size.w == 0 then 0 else i / size.w
  }

  lemma RowMajor(size: Size, x: int, y: int)
    requires Inside(size, x, y)
    ensures 0 <= y * size.w + x < Cells(size)
    ensures (y * size.w + x) / size.w == y && (y * size.w + x) % size.w == x
  {
    var i := y * size.w + x;
    assert y * size.w <= (size.h - 1) * size.w == size.h * size.w - size.w by {
      MulMonotone(y, size.h - 1, size.w);
    }
    DivModUnique(i, size.w, y, x);
  }

  lemma CellInside(size: Size, i: nat)
    requires i < Cells(size)
    ensures Inside(size, X(size, i), Y(size, i)) && At(size, X(size, i), Y(size, i)) == Some(i)
  {
    assert size.w > 0;
    var q := i / size.w;
    assert i == q * size.w + i % size.w;
    if q >= size.h {
      MulMonotone(size.h, q, size.w);
    }
  }

  /** The straight distance on the grid: steps of a king. */
  function Chebyshev(size: Size, a: nat, b: nat): nat {
    Max(Abs(X(size, a) - X(size, b)), Abs(Y(size, a) - Y(size, b)))
  }

  function Manhattan(size: Size, a: nat, b: nat): nat {
    Abs(X(size, a) - X(size, b)) + Abs(Y(size, a) - Y(size, b))
  }

  /** Two cells with the same coordinates are one cell. */
  lemma SamePlace(size: Size, a: nat, b: nat)
    requires a < Cells(size) && b < Cells(size) && Chebyshev(size, a, b) == 0
    ensures a == b
  {
    CellInside(size, a);
    CellInside(size, b);
  }

  /** Cells are numbered row by row. */
  lemma EarlierRow(size: Size, a: nat, b: nat)
    requires a < Cells(size) && b < Cells(size)
    requires Y(size, a) < Y(size, b) || (Y(size, a) == Y(size, b) && X(size, a) < X(size, b))
    ensures a < b
  {
    CellInside(size, a);
    CellInside(size, b);
    if Y(size, a) < Y(size, b) {
      MulMonotone(Y(size, a) + 1, Y(size, b), size.w);
    }
  }
}
