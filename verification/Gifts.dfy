/** Gifts, core/src/genome.rs:22-31: abilities outside the trait budget, one bit each, and what becomes of them
    in a newborn and in a hybrid. */
module Gifts {
  import opened Hashing
  import opened Powers
  import opened Randomness

  const GIFTS: nat := 6
  const SWIM: nat := 0
  const KEEN: nat := 3
  const HARDY: nat := 4
  const SCAVENGE: nat := 5

  predicate Holds(gifts: nat, k: nat) {
    if k == 0 then gifts % 2 == 1 else Holds(gifts / 2, k - 1)
  }

  /** Taking on a gift sets its bit and no other. */
  lemma {:induction false} GiftTaken(gifts: nat, k: nat, n: nat, j: nat)
    requires k < n && gifts < ShiftLeft(n) && !Holds(gifts, k)
    ensures gifts + ShiftLeft(k) < ShiftLeft(n)
    ensures Holds(gifts + ShiftLeft(k), j) <==> j == k || Holds(gifts, j)
  {
    if k > 0 {
      GiftTaken(gifts / 2, k - 1, n - 1, if j > 0 then j - 1 else 0);
      assert (gifts + ShiftLeft(k)) / 2 == gifts / 2 + ShiftLeft(k - 1);
    } else {
      assert (gifts + 1) / 2 == gifts / 2;
    }
  }

  /** Losing one clears its bit and no other. */
  lemma {:induction false} GiftLost(gifts: nat, k: nat, j: nat)
    requires Holds(gifts, k)
    ensures gifts >= ShiftLeft(k)
    ensures Holds(gifts - ShiftLeft(k), j) <==> j != k && Holds(gifts, j)
  {
    if k > 0 {
      GiftLost(gifts / 2, k - 1, if j > 0 then j - 1 else 0);
      assert (gifts - ShiftLeft(k)) / 2 == gifts / 2 - ShiftLeft(k - 1);
    } else {
      assert (gifts - 1) / 2 == gifts / 2;
    }
  }

  lemma {:induction false} NoGift(k: nat)
    ensures !Holds(0, k)
  {
    if k > 0 {
      NoGift(k - 1);
    }
  }

  // ---- A newborn's gifts ----

  predicate Loses(rng: Rng, tick: u32, subject: u64, ppm: nat, k: nat) {
    rng.raw(tick, GiftLoss, subject, k) % 1_000_000 < ppm
  }

  /** A gift is lost with its chance in parts of a million, by the draw of its own number. */
  lemma LosesExactly(rng: Rng, tick: u32, subject: u64, ppm: nat, k: nat)
    ensures !Loses(rng, tick, subject, ppm, k) <==> ppm <= rng.raw(tick, GiftLoss, subject, k) % 1_000_000
  {
  }

  /** Each gift is lost or kept by its own draw. */
  method LoseGifts(gifts: nat, rng: Rng, tick: u32, subject: u64, ppm: nat) returns (left: nat)
    ensures left <= gifts
    ensures forall j :: 0 <= j < GIFTS ==> (Holds(left, j) <==> Holds(gifts, j) && !Loses(rng, tick, subject, ppm, j))
  {
    hide Holds, Loses;
    left := gifts;
    for k := 0 to GIFTS
      invariant left <= gifts
      invariant forall j :: 0 <= j < GIFTS ==>
        (Holds(left, j) <==> Holds(gifts, j) && (j < k ==> !Loses(rng, tick, subject, ppm, j)))
    {
      if Holds(left, k) && Loses(rng, tick, subject, ppm, k) {
        ghost var before := left;
        GiftLost(left, k, 0);
        left := left - ShiftLeft(k);
        forall j | 0 <= j < GIFTS
          ensures Holds(left, j) <==> j != k && Holds(before, j)
        {
          GiftLost(before, k, j);
        }
      }
    }
  }

  // ---- A hybrid's gifts ----

  /** How many of the first n gifts are held. */
  function Held(gifts: nat, n: nat): nat {
    if n == 0 then 0 else Held(gifts, n - 1) + if Holds(gifts, n - 1) then 1 else 0
  }

  lemma {:induction false} HeldSame(a: nat, b: nat, n: nat)
    requires forall j :: 0 <= j < n ==> (Holds(a, j) <==> Holds(b, j))
    ensures Held(a, n) == Held(b, n)
  {
    if n > 0 {
      HeldSame(a, b, n - 1);
    }
  }

  predicate Passes(rng: Rng, subject: u32, ppm: nat, k: nat) {
    ChancePpm(rng, 0, HybridGift, (subject + k * 0x1_0000_0000) % WORDS, ppm)
  }

  /** Every gift of every hybrid has a draw of its own. */
  lemma PassesExactly(rng: Rng, subject: u32, ppm: nat, k: nat)
    requires k < GIFTS
    ensures Passes(rng, subject, ppm, k) <==> Below(rng, 0, HybridGift, subject + 0x1_0000_0000 * k, 1_000_000) < ppm
  {
    ChanceIsADraw(rng, 0, HybridGift, subject + 0x1_0000_0000 * k, ppm);
  }

  /** Of the gifts offered, each passes by its own draw, in order, as long as there are fewer than the most. */
  method PassGifts(offered: nat, most: nat, rng: Rng, subject: u32, ppm: nat) returns (gifts: nat)
    ensures gifts < ShiftLeft(GIFTS) && Held(gifts, GIFTS) <= most
    ensures forall k: nat :: k < GIFTS ==>
      (Holds(gifts, k) <==> Holds(offered, k) && Passes(rng, subject, ppm, k) && Held(gifts, k) < most)
  {
    hide Holds, Passes, Held;
    gifts := 0;
    NobodyHolds();
    for k := 0 to GIFTS
      invariant gifts < ShiftLeft(GIFTS) && Held(gifts, k) <= most
      invariant forall j: nat :: j < k ==>
        (Holds(gifts, j) <==> Holds(offered, j) && Passes(rng, subject, ppm, j) && Held(gifts, j) < most)
      invariant forall j: nat :: k <= j < GIFTS ==> !Holds(gifts, j)
    {
      ghost var before := gifts;
      if Holds(offered, k) && Held(gifts, k) < most && Passes(rng, subject, ppm, k) {
        GiftTaken(gifts, k, GIFTS, 0);
        gifts := gifts + ShiftLeft(k);
        forall j: nat | j < GIFTS
          ensures Holds(gifts, j) <==> j == k || Holds(before, j)
        {
          GiftTaken(before, k, GIFTS, j);
        }
      }
      forall j: nat | j <= k
        ensures Held(gifts, j) == Held(before, j)
      {
        HeldSame(gifts, before, j);
      }
      HeldNext(gifts, k);
    }
  }

  lemma HeldNext(gifts: nat, k: nat)
    ensures Held(gifts, k + 1) == Held(gifts, k) + if Holds(gifts, k) then 1 else 0
  {
  }

  lemma NobodyHolds()
    ensures Held(0, 0) == 0 && ShiftLeft(GIFTS) == 64
    ensures forall j: nat :: j < GIFTS ==> !Holds(0, j)
  {
    hide Holds;
    forall j: nat | j < GIFTS
      ensures !Holds(0, j)
    {
      NoGift(j);
    }
  }
}
