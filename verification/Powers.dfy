/** Powers of two and the bits of machine integers. */
module Powers {
  import opened Arithmetic

  predicate IsPow2(n: nat) {
    n == 1 || (n > 1 && n % 2 == 0 && IsPow2(n / 2))
  }

  /** A power of two is pinned down by an interval [k, 2k). */
  lemma {:induction false} Pow2Unique(a: nat, b: nat)
    requires IsPow2(a) && IsPow2(b) && a < 2 * b && b < 2 * a
    ensures a == b
  {
    if a > 1 && b > 1 {
      Pow2Unique(a / 2, b / 2);
    }
  }

  lemma Pow2Halves(n: nat)
    requires n > 0
    ensures n % 2 == 0 ==> (IsPow2(n) <==> IsPow2(n / 2))
    ensures n % 2 == 1 ==> (IsPow2(n) <==> n == 1)
  {
  }

  /** 1 << bits. */
  function ShiftLeft(bits: nat): nat {
    if bits == 0 then 1 else 2 * ShiftLeft(bits - 1)
  }

  lemma Shift8(bits: nat)
    ensures ShiftLeft(bits + 8) == 0x100 * ShiftLeft(bits)
  {
    assert ShiftLeft(bits + 2) == 4 * ShiftLeft(bits);
    assert ShiftLeft(bits + 4) == 16 * ShiftLeft(bits);
    assert ShiftLeft(bits + 6) == 64 * ShiftLeft(bits);
  }

  lemma Shift64()
    ensures ShiftLeft(64) == 0x1_0000_0000_0000_0000
  {
    Shift8(0); Shift8(8); Shift8(16); Shift8(24); Shift8(32); Shift8(40); Shift8(48); Shift8(56);
  }

  function LeadingZerosFrom(x: nat, bits: nat): (z: nat)
    ensures z <= bits
  {
    if x == 0 || bits == 0 then bits else LeadingZerosFrom(x / 2, bits - 1)
  }

  lemma {:induction false} HighestBit(x: nat, bits: nat)
    requires 0 < x < ShiftLeft(bits)
    ensures LeadingZerosFrom(x, bits) < bits
    ensures var k := ShiftLeft(bits - 1 - LeadingZerosFrom(x, bits)); IsPow2(k) && k <= x < 2 * k
  {
    hide IsPow2;
    if x > 1 {
      HighestBit(x / 2, bits - 1);
      var z := LeadingZerosFrom(x / 2, bits - 1);
      assert ShiftLeft(bits - 1 - z) == 2 * ShiftLeft(bits - 2 - z);
      Pow2Halves(ShiftLeft(bits - 1 - z));
    } else {
      NoBitsLeft(bits - 1);
      Pow2Halves(1);
    }
  }

  lemma NoBitsLeft(bits: nat)
    ensures LeadingZerosFrom(0, bits) == bits
  {
  }

  // ---- And with a mask ----

  /** And of the lowest `bits` bits. */
  function And(a: nat, b: nat, bits: nat): nat {
    if bits == 0 then 0 else (if a % 2 == 1 && b % 2 == 1 then 1 else 0) + 2 * And(a / 2, b / 2, bits - 1)
  }

  lemma {:induction false} AndZero(a: nat, bits: nat)
    ensures And(a, 0, bits) == 0
  {
    if bits > 0 {
      AndZero(a / 2, bits - 1);
    }
  }

  /** The mask below a power of two leaves the remainder. */
  lemma {:induction false} MaskIsRemainder(x: nat, n: nat, bits: nat)
    requires IsPow2(n) && x < ShiftLeft(bits)
    ensures And(x, n - 1, bits) == x % n
  {
    assert n > 0;
    hide IsPow2, And, ShiftLeft;
    Pow2Halves(n);
    if n == 1 {
      AndZero(x, bits);
    } else if bits == 0 {
      HalfBelow(x, bits);
      NoBits(x, n - 1);
    } else {
      var h := n / 2;
      HalfBelow(x, bits);
      MaskIsRemainder(x / 2, h, bits - 1);
      MaskStep(x, h, bits);
      assert n == 2 * h;
    }
  }

  lemma HalfBelow(x: nat, bits: nat)
    requires x < ShiftLeft(bits)
    ensures if bits == 0 then x == 0 else x / 2 < ShiftLeft(bits - 1)
  {
  }

  lemma MaskStep(x: nat, h: nat, bits: nat)
    requires h > 0 && bits > 0 && And(x / 2, h - 1, bits - 1) == x / 2 % h
    ensures And(x, 2 * h - 1, bits) == x % (2 * h)
  {
    hide And;
    OddHalf(h);
    AndStep(x, 2 * h - 1, bits);
    RemainderHalves(x, h);
  }

  lemma OddHalf(h: nat)
    requires h > 0
    ensures (2 * h - 1) % 2 == 1 && (2 * h - 1) / 2 == h - 1
  {
  }

  lemma AndStep(a: nat, b: nat, bits: nat)
    requires bits > 0
    ensures And(a, b, bits) == (if a % 2 == 1 && b % 2 == 1 then 1 else 0) + 2 * And(a / 2, b / 2, bits - 1)
  {
  }

  lemma NoBits(a: nat, b: nat)
    ensures And(a, b, 0) == 0
  {
  }

  /** x mod 2h, one bit at a time. */
  lemma RemainderHalves(x: nat, h: nat)
    requires h > 0
    ensures x % (2 * h) == x % 2 + 2 * (x / 2 % h)
  {
    var q, r := x / 2 / h, x / 2 % h;
    assert x / 2 == q * h + r;
    assert x == q * (2 * h) + (2 * r + x % 2) by {
      assert q * (2 * h) == 2 * (q * h);
    }
    DivModUnique(x, 2 * h, q, 2 * r + x % 2);
  }
}
