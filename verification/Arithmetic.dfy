/** Small facts about integers. */
module Arithmetic {
  function Abs(a: int): nat {
    if a < 0 then -a else a
  }

  function Max(a: int, b: int): int {
    if a < b then b else a
  }

  function Min(a: int, b: int): int {
    if a < b then a else b
  }

  /** The nearest number from lo to hi. */
  function Clamp(v: int, lo: int, hi: int): (r: int)
    requires lo <= hi
    ensures lo <= r <= hi
  {
    if v < lo then lo else if v > hi then hi else v
  }

  lemma MulMonotone(a: int, b: int, c: nat)
    requires a <= b
    ensures a * c <= b * c
  {
  }

  lemma DivModUnique(i: int, w: int, q: int, r: int)
    requires w > 0 && i == q * w + r && 0 <= r < w
    ensures i / w == q && i % w == r
  {
    var d := i / w - q;
    assert i == (i / w) * w + i % w;
    assert d * w == r - i % w by {
      assert (i / w - q) * w == (i / w) * w - q * w;
    }
    if d >= 1 {
      MulMonotone(1, d, w);
    } else if d <= -1 {
      MulMonotone(d, -1, w);
    }
  }

  /** A floor, told by the whole it divides. */
  predicate RoundsDown(part: int, whole: int, n: int) {
    n * part <= whole < n * part + n
  }

  lemma DivRoundsDown(a: nat, n: nat)
    requires n > 0
    ensures RoundsDown(a / n, a, n)
  {
    assert a == (a / n) * n + a % n;
  }

  lemma WholeParts(a: int, b: int, n: nat)
    ensures a < b ==> (a + 1) * n <= b * n
  {
    if a < b {
      MulMonotone(a + 1, b, n);
    }
  }

  lemma FloorMonotone(part: int, whole: int, part': int, whole': int, n: int)
    requires RoundsDown(part, whole, n) && RoundsDown(part', whole', n) && whole <= whole' && n > 0
    ensures part <= part'
  {
    WholeParts(part', part, n);
  }

  lemma SameFloor(s: int, v: int, len: nat)
    requires RoundsDown(s, v * len, len)
    ensures s == v
  {
    WholeParts(s, v, len);
    WholeParts(v, s, len);
  }
}
