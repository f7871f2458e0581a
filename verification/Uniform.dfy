/** Draws without bias, core/src/rng.rs:163-178: the loop, and that every result is equally likely. */
module Uniform {
  import opened Arithmetic
  import opened Hashing
  import opened Options
  import opened Randomness

  /** Attempt k is the first whose value is not among the 2^64 mod n smallest. */
  ghost predicate FirstAccepted(rng: Rng, tick: u32, purpose: Purpose, subject: u64, n: nat, k: nat)
    requires n > 0
  {
    && rng.raw(tick, purpose, subject, k) >= WORDS % n
    && forall j: nat :: j < k ==> rng.raw(tick, purpose, subject, j) < WORDS % n
  }

  /** Attempt after attempt until one is not rejected; none when the attempts run out, where the source
      stops with an error. */
  method DrawBelow(rng: Rng, tick: u32, purpose: Purpose, subject: u64, n: u64) returns (r: Option<nat>)
    requires n > 0
    ensures r.Some? ==> r.value == Below(rng, tick, purpose, subject, n)
    ensures r.Some? ==>
      exists k: nat :: FirstAccepted(rng, tick, purpose, subject, n, k) && r.value == rng.raw(tick, purpose, subject, k) % n
    ensures r == None <==> forall k: nat :: k < K_LIMIT ==> rng.raw(tick, purpose, subject, k) < RejectUnder(n)
  {
    NegatedRemainder(n);
    var rejectUnder := (WORDS - n) % n;
    var k := 0;
    while k < K_LIMIT
      invariant k <= K_LIMIT
      invariant BelowFrom(rng, tick, purpose, subject, n, 0) == BelowFrom(rng, tick, purpose, subject, n, k)
      invariant forall j: nat :: j < k ==> rng.raw(tick, purpose, subject, j) < RejectUnder(n)
    {
      var x := rng.raw(tick, purpose, subject, k);
      if x >= rejectUnder {
        return Some(x % n);
      }
      k := k + 1;
    }
    r := None;
  }

  /** The negated bound has the remainder of 2^64. */
  lemma NegatedRemainder(n: u64)
    requires n > 0
    ensures (WORDS - n) % n == RejectUnder(n)
  {
    var q := WORDS / n;
    DivModUnique(WORDS - n, n, q - 1, WORDS % n);
  }

  // ---- Every result is equally likely ----

  /** The accepted raw values with one result. */
  ghost function Preimages(n: nat, r: nat): set<nat>
    requires n > 0
  {
    set x: nat | RejectUnder(n) <= x < WORDS && x % n == r
  }

  ghost function Window(a: nat, q: nat, n: nat, r: nat): set<nat>
    requires n > 0
  {
    set x: nat | a <= x < a + q * n && x % n == r
  }

  /** Of n neighbours exactly one leaves each remainder. */
  lemma OneInEach(b: nat, n: nat, r: nat) returns (x: nat)
    requires r < n
    ensures b <= x < b + n && x % n == r
    ensures forall y: nat :: b <= y < b + n && y % n == r ==> y == x
  {
    var low, q := b % n, b / n;
    assert b == q * n + low;
    x := if r >= low then b + (r - low) else b + (r + n - low);
    if r >= low {
      DivModUnique(x, n, q, r);
    } else {
      DivModUnique(x, n, q + 1, r);
    }
    forall y: nat | b <= y < b + n && y % n == r
      ensures y == x
    {
      CloseAndCongruent(x, y, n);
    }
  }

  lemma CloseAndCongruent(x: nat, y: nat, n: nat)
    requires n > 0 && x % n == y % n && x < y + n && y < x + n
    ensures x == y
  {
    var p, q := x / n, y / n;
    assert x == p * n + x % n && y == q * n + y % n;
    if p < q {
      MulMonotone(p + 1, q, n);
    } else if q < p {
      MulMonotone(q + 1, p, n);
    }
  }

  lemma {:induction false} WindowSize(a: nat, q: nat, n: nat, r: nat)
    requires r < n
    ensures |Window(a, q, n, r)| == q
  {
    if q == 0 {
      assert Window(a, 0, n, r) == {};
    } else {
      WindowSize(a, q - 1, n, r);
      WindowGrows(a, q, n, r);
    }
  }

  lemma WindowGrows(a: nat, q: nat, n: nat, r: nat)
    requires r < n && q > 0
    ensures |Window(a, q, n, r)| == |Window(a, q - 1, n, r)| + 1
  {
    var before, after := Window(a, q - 1, n, r), Window(a, q, n, r);
    var b: nat := a + (q - 1) * n;
    assert a + q * n == b + n by {
      assert (q - 1) * n == q * n - n;
    }
    assert (q - 1) * n >= 0;
    var x := OneInEach(b, n, r);
    assert after == before + {x};
  }

  /** Each result below n has exactly floor(2^64 / n) accepted raw values: with uniform raw values the draw is
      exactly uniform. */
  lemma DrawsAreUniform(n: u64, r: nat)
    requires r < n
    ensures |Preimages(n, r)| == WORDS / n
    ensures forall x: nat :: x in Preimages(n, r) ==> x % n == r
  {
    var q := WORDS / n;
    assert WORDS == RejectUnder(n) + q * n;
    WindowSize(RejectUnder(n), q, n, r);
    assert Preimages(n, r) == Window(RejectUnder(n), q, n, r);
  }
}
