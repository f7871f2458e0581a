/** The generator behind the randomness, core/src/rng.rs:18-43 and 140-178: Philox4x32-10 on a packed counter,
    and draws without bias. */
module Philox {
  import opened Arithmetic
  import opened Gifts
  import opened Hashing
  import opened Powers
  import opened Randomness

  const WORD: nat := 0x1_0000_0000
  const M0: nat := 0xD251_1F53
  const M1: nat := 0xCD9E_8D57
  const W0: nat := 0x9E37_79B9
  const W1: nat := 0xBB67_AE85

  /** The inverses of the two multipliers modulo 2^32; they exist because the multipliers are odd. */
  const INVERSE0: nat := 0x991A7CDB
  const INVERSE1: nat := 0x6D7CAE67

  datatype Block = Block(w0: u32, w1: u32, w2: u32, w3: u32)

  datatype Key = Key(k0: u32, k1: u32)

  // ---- Bits ----

  /** Exclusive or of the lowest `bits` bits. */
  function Xor(a: nat, b: nat, bits: nat): (r: nat)
    ensures r < ShiftLeft(bits)
  {
    if bits == 0 then 0 else (a % 2 + b % 2) % 2 + 2 * Xor(a / 2, b / 2, bits - 1)
  }

  lemma {:induction false} XorCancels(a: nat, b: nat, bits: nat)
    requires a < ShiftLeft(bits)
    ensures Xor(Xor(a, b, bits), b, bits) == a
  {
    hide Xor;
    if bits > 0 {
      var low, high := (a % 2 + b % 2) % 2, Xor(a / 2, b / 2, bits - 1);
      XorCancels(a / 2, b / 2, bits - 1);
      BitCancels(a % 2, b % 2);
      Halves(low, high);
      XorStep(a, b, bits);
      XorStep(low + 2 * high, b, bits);
    }
  }

  /** A bit is set in the result exactly when it is set in one of the two. */
  lemma {:induction false} XorBits(a: nat, b: nat, bits: nat, k: nat)
    requires k < bits
    ensures Holds(Xor(a, b, bits), k) <==> Holds(a, k) != Holds(b, k)
  {
    var low, high := (a % 2 + b % 2) % 2, Xor(a / 2, b / 2, bits - 1);
    Halves(low, high);
    if k > 0 {
      XorBits(a / 2, b / 2, bits - 1, k - 1);
    }
  }

  lemma XorStep(a: nat, b: nat, bits: nat)
    requires bits > 0
    ensures Xor(a, b, bits) == (a % 2 + b % 2) % 2 + 2 * Xor(a / 2, b / 2, bits - 1)
  {
  }

  lemma BitCancels(p: nat, q: nat)
    requires p < 2 && q < 2
    ensures ((p + q) % 2 + q) % 2 == p
  {
  }

  lemma Halves(low: nat, high: nat)
    requires low < 2
    ensures (low + 2 * high) % 2 == low && (low + 2 * high) / 2 == high
  {
  }

  function Xor32(a: u32, b: u32): u32 {
    Shift64();
    Shift8(0); Shift8(8); Shift8(16);
    Shift8(24);
    Xor(a, b, 32)
  }

  lemma Xor32Cancels(a: u32, b: u32)
    ensures Xor32(Xor32(a, b), b) == a
  {
    Shift8(0); Shift8(8); Shift8(16);
    Shift8(24);
    XorCancels(a, b, 32);
  }

  // ---- Multiplication ----

  function Hi(m: nat, a: u32): u32
    requires m < WORD
  {
    HiBound(m, a);
    m * a / WORD
  }

  function Lo(m: nat, a: u32): u32 {
    m * a % WORD
  }

  lemma HiBound(m: nat, a: u32)
    requires m < WORD
    ensures m * a / WORD < WORD
  {
    MulMonotone(m, WORD, a);
    assert m * a < WORD * WORD;
  }

  /** The two halves make up the product. */
  lemma ProductInHalves(m: nat, a: u32)
    requires m < WORD
    ensures Hi(m, a) * WORD + Lo(m, a) == m * a
  {
  }

  /** The low half of a product by an odd constant gives the factor back. */
  lemma LoInverts(m: nat, inverse: nat, a: u32)
    requires m * inverse % WORD == 1
    ensures Lo(m, a) * inverse % WORD == a
  {
    var q, r, t := m * a / WORD, m * a % WORD, m * inverse / WORD;
    assert m * a == q * WORD + r && m * inverse == t * WORD + 1;
    calc {
      r * inverse;
      (m * a - q * WORD) * inverse;
      { assert (m * a - q * WORD) * inverse == m * a * inverse - q * WORD * inverse; }
      a * (m * inverse) - q * WORD * inverse;
      a * (t * WORD + 1) - q * WORD * inverse;
      { assert a * (t * WORD + 1) == a * t * WORD + a; assert q * WORD * inverse == q * inverse * WORD; }
      (a * t - q * inverse) * WORD + a;
    }
    DivModUnique(r * inverse, WORD, a * t - q * inverse, a);
  }

  lemma LoIsOnto(m: nat, inverse: nat, y: u32)
    requires m * inverse % WORD == 1
    ensures Lo(m, y * inverse % WORD) == y
  {
    assert inverse * m == m * inverse;
    LoInverts(inverse, m, y);
    assert inverse * y == y * inverse;
    var x: nat := y * inverse % WORD;
    assert x * m == m * x;
  }

  // ---- Rounds ----

  /** The round keys: each round but the first adds the constants. */
  function KeyAt(key: Key, round: nat): Key {
    if round == 0 then key
    else
      var k := KeyAt(key, round - 1);
      Key((k.k0 + W0) % WORD, (k.k1 + W1) % WORD)
  }

  function Round(x: Block, k: Key): Block {
    Block(Xor32(Xor32(Hi(M1, x.w2), x.w1), k.k0), Lo(M1, x.w2), Xor32(Xor32(Hi(M0, x.w0), x.w3), k.k1), Lo(M0, x.w0))
  }

  /** The first n rounds. */
  function Rounds(x: Block, key: Key, n: nat): Block {
    if n == 0 then x else Round(Rounds(x, key, n - 1), KeyAt(key, n - 1))
  }

  const ROUNDS: nat := 10

  method Philox4x32(counter: Block, key: Key) returns (x: Block)
    ensures x == Rounds(counter, key, ROUNDS)
  {
    hide Round;
    x := counter;
    var k := key;
    for round := 0 to ROUNDS
      invariant x == Rounds(counter, key, round)
      invariant k == KeyAt(key, if round == 0 then 0 else round - 1)
    {
      if round > 0 {
        k := Key((k.k0 + W0) % WORD, (k.k1 + W1) % WORD);
      }
      x := Round(x, k);
    }
  }

  /** A round undone: the odd multipliers give the factors back, then exclusive or gives the rest. */
  function Unround(y: Block, k: Key): Block {
    var w0, w2 := y.w3 * INVERSE0 % WORD, y.w1 * INVERSE1 % WORD;
    Block(w0, Xor32(Xor32(y.w0, k.k0), Hi(M1, w2)), w2, Xor32(Xor32(y.w2, k.k1), Hi(M0, w0)))
  }

  lemma {:induction false} XorCommutes(a: nat, b: nat, bits: nat)
    ensures Xor(a, b, bits) == Xor(b, a, bits)
  {
    if bits > 0 {
      XorCommutes(a / 2, b / 2, bits - 1);
    }
  }

  /** Two exclusive ors are undone in reverse. */
  lemma XorUnwinds(h: u32, x: u32, k: u32)
    ensures Xor32(Xor32(Xor32(Xor32(h, x), k), k), h) == x
    ensures Xor32(Xor32(h, Xor32(Xor32(x, k), h)), k) == x
  {
    XorCommutes(h, x, 32);
    XorCommutes(h, Xor32(Xor32(x, k), h), 32);
    hide Xor32;
    assert Xor32(h, x) == Xor32(x, h) && Xor32(h, Xor32(Xor32(x, k), h)) == Xor32(Xor32(Xor32(x, k), h), h) by {
      XorSwap(h, x);
      XorSwap(h, Xor32(Xor32(x, k), h));
    }
    Xor32Cancels(Xor32(h, x), k);
    Xor32Cancels(x, h);
    Xor32Cancels(Xor32(x, k), h);
    Xor32Cancels(x, k);
  }

  lemma XorSwap(a: u32, b: u32)
    ensures Xor32(a, b) == Xor32(b, a)
  {
    XorCommutes(a, b, 32);
  }

  lemma RoundInverts(x: Block, k: Key)
    ensures Unround(Round(x, k), k) == x
    ensures Round(Unround(x, k), k) == x
  {
    hide Xor32, Hi, Lo;
    LoInverts(M0, INVERSE0, x.w0);
    LoInverts(M1, INVERSE1, x.w2);
    LoIsOnto(M0, INVERSE0, x.w3);
    LoIsOnto(M1, INVERSE1, x.w1);
    XorUnwinds(Hi(M1, x.w2), x.w1, k.k0);
    XorUnwinds(Hi(M0, x.w0), x.w3, k.k1);
    var w0, w2 := x.w3 * INVERSE0 % WORD, x.w1 * INVERSE1 % WORD;
    XorUnwinds(Hi(M1, w2), x.w0, k.k0);
    XorUnwinds(Hi(M0, w0), x.w2, k.k1);
  }

  function Unrounds(y: Block, key: Key, n: nat): Block
    decreases n
  {
    if n == 0 then y else Unrounds(Unround(y, KeyAt(key, n - 1)), key, n - 1)
  }

  lemma {:induction false} RoundsInvert(x: Block, key: Key, n: nat)
    ensures Unrounds(Rounds(x, key, n), key, n) == x
    ensures Rounds(Unrounds(x, key, n), key, n) == x
    decreases n
  {
    hide Round, Unround, KeyAt;
    if n > 0 {
      RoundInverts(Rounds(x, key, n - 1), KeyAt(key, n - 1));
      RoundsInvert(x, key, n - 1);
      RoundInverts(x, KeyAt(key, n - 1));
      RoundsInvert(Unround(x, KeyAt(key, n - 1)), key, n - 1);
    }
  }

  /** Under one key Philox is a permutation of the counters. */
  lemma PhiloxIsAPermutation(x: Block, y: Block, key: Key)
    ensures Rounds(x, key, ROUNDS) == Rounds(y, key, ROUNDS) <==> x == y
    ensures exists z: Block :: Rounds(z, key, ROUNDS) == x
  {
    hide Rounds, Unrounds;
    RoundsInvert(x, key, ROUNDS);
    RoundsInvert(y, key, ROUNDS);
    assert Rounds(Unrounds(x, key, ROUNDS), key, ROUNDS) == x;
  }

  // ---- Counters ----

  /** Or of the lowest `bits` bits. */
  function Or(a: nat, b: nat, bits: nat): (r: nat)
    ensures r < ShiftLeft(bits)
  {
    if bits == 0 then 0
    else (if a % 2 == 1 || b % 2 == 1 then 1 else 0) + 2 * Or(a / 2, b / 2, bits - 1)
  }

  /** Values whose bits do not overlap are simply added. */
  lemma {:induction false} OrIsSum(p: nat, k: nat, shift: nat, bits: nat)
    requires p < ShiftLeft(shift) && shift <= bits && k < ShiftLeft(bits - shift)
    ensures Or(p, ShiftLeft(shift) * k, bits) == p + ShiftLeft(shift) * k
  {
    hide Or;
    if shift == 0 {
      OrZero(k, bits);
    } else {
      var x := ShiftLeft(shift - 1) * k;
      OrIsSum(p / 2, k, shift - 1, bits - 1);
      Doubled(ShiftLeft(shift - 1), k);
      Halves(0, x);
      OrStep(p, 2 * x, bits);
    }
  }

  lemma Doubled(s: nat, k: nat)
    ensures (2 * s) * k == 2 * (s * k)
  {
  }

  lemma OrStep(a: nat, b: nat, bits: nat)
    requires bits > 0
    ensures Or(a, b, bits) == (if a % 2 == 1 || b % 2 == 1 then 1 else 0) + 2 * Or(a / 2, b / 2, bits - 1)
  {
  }

  lemma {:induction false} OrZero(k: nat, bits: nat)
    requires k < ShiftLeft(bits)
    ensures Or(0, k, bits) == k
  {
    if bits > 0 {
      OrZero(k / 2, bits - 1);
    }
  }

  /** The counter of a draw: the tick, both halves of the subject, and the purpose below the attempt. */
  function Counter(tick: u32, purpose: Purpose, subject: u64, k: nat): Block {
    Shift8(0); Shift8(8); Shift8(16);
    Shift8(24);
    Block(tick, subject % WORD, subject / WORD, Or(Code(purpose), 0x100 * k, 32))
  }

  lemma CodesDiffer(p: Purpose, q: Purpose)
    ensures Code(p) == Code(q) <==> p == q
  {
  }

  lemma LastWord(purpose: Purpose, k: nat)
    requires k < K_LIMIT
    ensures Or(Code(purpose), 0x100 * k, 32) == Code(purpose) + 0x100 * k
  {
    Shift8(0); Shift8(8); Shift8(16);
    OrIsSum(Code(purpose), k, 8, 32);
  }

  /** Draws that differ in anything have different counters, and so different blocks: they never collide. */
  lemma DrawsNeverCollide(tick: u32, purpose: Purpose, subject: u64, k: nat, tick': u32, purpose': Purpose, subject': u64,
      k': nat, key: Key)
    requires k < K_LIMIT && k' < K_LIMIT
    ensures var x, x' := Counter(tick, purpose, subject, k), Counter(tick', purpose', subject', k');
      Rounds(x, key, ROUNDS) == Rounds(x', key, ROUNDS) <==>
        tick == tick' && purpose == purpose' && subject == subject' && k == k'
  {
    hide Rounds, Or, Code;
    LastWord(purpose, k);
    LastWord(purpose', k');
    var x, x' := Counter(tick, purpose, subject, k), Counter(tick', purpose', subject', k');
    PhiloxIsAPermutation(x, x', key);
    CodesDiffer(purpose, purpose');
    if x == x' {
      DivModUnique(x.w3, 0x100, k, Code(purpose));
      DivModUnique(x'.w3, 0x100, k', Code(purpose'));
      assert subject == subject / WORD * WORD + subject % WORD;
      assert subject' == subject' / WORD * WORD + subject' % WORD;
    }
  }

  /** The source of randomness under a key. */
  function Value(x: Block): u64 {
    x.w0 + WORD * x.w1
  }

  function Source(key: Key): Rng {
    Rng((tick: u32, purpose: Purpose, subject: u64, k: nat) =>
      Value(Rounds(Counter(tick, purpose, subject, k % K_LIMIT), key, ROUNDS)))
  }

  /** The counter holds everything that a draw depends on: the tick, both halves of the subject, and the purpose with the
      attempt above it. */
  lemma CounterInWords(tick: u32, purpose: Purpose, subject: u64, k: nat)
    requires k < K_LIMIT
    ensures var c := Counter(tick, purpose, subject, k);
      c.w0 == tick && c.w2 * WORD + c.w1 == subject && c.w3 == Code(purpose) + 0x100 * k
  {
    LastWord(purpose, k);
    hide Or;
  }

  /** The value drawn is the first two words of its block, the lower first. */
  lemma ValueInWords(x: Block)
    ensures Value(x) % WORD == x.w0 && Value(x) / WORD == x.w1
  {
    DivModUnique(Value(x), WORD, x.w1, x.w0);
  }

  lemma SourceDraws(key: Key, tick: u32, purpose: Purpose, subject: u64, k: nat)
    requires k < K_LIMIT
    ensures Source(key).raw(tick, purpose, subject, k) == Value(Rounds(Counter(tick, purpose, subject, k), key, 10))
  {
    hide Rounds, Counter, Value;
  }
}
