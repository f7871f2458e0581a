/** The first loop of yespower's SMix: the straight loop of pow/src/portable.rs:165-214 and the unrolled ladder
    of pow/yespower/yespower-opt.c:859-926, with block mixing left abstract. */
module Smix {
  import opened Hashing
  import opened Powers

  /** Block mixing: any function of a block and a context that returns both anew. */
  datatype Mixer<!B, !C> = Mixer(mix: (B, C) -> (B, C), xor: (B, B) -> B, integerify: B -> u32)

  /** Which earlier block step i mixes in: a number below the highest power of two in i, moved up to the last
      blocks written. */
  function Wrap(x: u32, i: u32): (j: nat)
    requires i > 0
  {
    Word32();
    HighestBit(i, 32);
    var n := ShiftLeft(31 - LeadingZerosFrom(i, 32));
    And(x, n - 1, 32) + (i - n)
  }

  lemma Word32()
    ensures ShiftLeft(32) == 0x1_0000_0000
  {
    Shift8(0); Shift8(8); Shift8(16); Shift8(24);
  }

  /** It names a block already written. */
  lemma WrapIsEarlier(x: u32, i: u32)
    requires i > 0
    ensures Wrap(x, i) < i
  {
    Word32();
    HighestBit(i, 32);
    MaskIsRemainder(x, ShiftLeft(31 - LeadingZerosFrom(i, 32)), 32);
  }

  /** Between two powers of two it is the remainder by the lower one, moved up by the distance from it. */
  lemma WrapBetween(x: u32, n: nat, k: nat)
    requires IsPow2(n) && k < n && n + k < 0x1_0000_0000
    ensures Wrap(x, n + k) == x % n + k == And(x, n - 1, 32) + k
  {
    hide LeadingZerosFrom, ShiftLeft, And;
    Word32();
    TopBit(n, k);
    MaskIsRemainder(x, n, 32);
  }

  lemma TopBit(n: nat, k: nat)
    requires IsPow2(n) && k < n && n + k < 0x1_0000_0000
    ensures LeadingZerosFrom(n + k, 32) <= 31 && ShiftLeft(31 - LeadingZerosFrom(n + k, 32)) == n < 0x1_0000_0000
  {
    hide LeadingZerosFrom, IsPow2;
    Word32();
    HighestBit(n + k, 32);
    Pow2Unique(n, ShiftLeft(31 - LeadingZerosFrom(n + k, 32)));
  }

  // ---- The blocks ----

  datatype Point<B, C> = Point(x: B, ctx: C)

  /** The block and the context after i steps. */
  function At<B, C>(m: Mixer<B, C>, start: Point<B, C>, i: nat): Point<B, C>
    decreases i
  {
    if i == 0 then start
    else
      var p := At(m, start, i - 1);
      var (y, ctx) := m.mix(Mixed(m, start, i - 1, p.x), p.ctx);
      Point(y, ctx)
  }

  /** What step i mixes: the block, with an earlier one from the third step on. */
  function Mixed<B, C>(m: Mixer<B, C>, start: Point<B, C>, i: nat, x: B): B
    decreases i, 0
  {
    if i > 1 && i < 0x1_0000_0000 then
      WrapIsEarlier(m.integerify(x), i);
      m.xor(x, At(m, start, Wrap(m.integerify(x), i)).x)
    else x
  }

  /** V holds the blocks of the first n steps. */
  ghost predicate Filled<B, C>(v: array<B>, m: Mixer<B, C>, start: Point<B, C>, n: nat)
    reads v
  {
    n <= v.Length && forall k :: 0 <= k < n ==> v[k] == At(m, start, k).x
  }

  // ---- The straight loop ----

  method Straight<B, C>(m: Mixer<B, C>, start: Point<B, C>, v: array<B>) returns (end: Point<B, C>)
    requires v.Length < 0x1_0000_0000
    modifies v
    ensures Filled(v, m, start, v.Length) && end == At(m, start, v.Length)
  {
    hide Wrap;
    var x, ctx := start.x, start.ctx;
    for i := 0 to v.Length
      invariant Filled(v, m, start, i) && Point(x, ctx) == At(m, start, i)
    {
      v[i] := x;
      if i > 1 {
        var j := Wrap(m.integerify(x), i);
        WrapIsEarlier(m.integerify(x), i);
        x := m.xor(x, v[j]);
      }
      var mixed := m.mix(x, ctx);
      x, ctx := mixed.0, mixed.1;
    }
    end := Point(x, ctx);
  }

  // ---- The unrolled ladder ----

  /** One rung: block p with the block that its power of two n and distance k name, into the next. */
  method Rung<B, C>(m: Mixer<B, C>, start: Point<B, C>, v: array<B>, p: nat, n: nat, k: nat, j: u32, ctx: C)
    returns (next: Point<B, C>)
    requires p >= 2 && p == n + k && k < n && IsPow2(n) && p < v.Length <= 0x8000_0000
    requires Filled(v, m, start, p + 1) && ctx == At(m, start, p).ctx && j == m.integerify(v[p])
    ensures next == At(m, start, p + 1)
  {
    hide Wrap, IsPow2;
    WrapBetween(j, n, k);
    WrapIsEarlier(j, p);
    var vj := v[And(j, n - 1, 32) + k];
    var mixed := m.mix(m.xor(v[p], vj), ctx);
    next := Point(mixed.0, mixed.1);
  }

  /** Where the ladder stands: V filled up to block x, the context after it, and its index word. */
  ghost predicate Stands<B, C>(m: Mixer<B, C>, start: Point<B, C>, v: array<B>, x: nat, j: u32, ctx: C)
    reads v
  {
    x < v.Length && Filled(v, m, start, x + 1) && ctx == At(m, start, x).ctx && j == m.integerify(v[x])
  }

  /** One rung, written into V. */
  method Climb<B, C>(m: Mixer<B, C>, start: Point<B, C>, v: array<B>, x: nat, n: nat, k: nat, j: u32, ctx: C)
    returns (j': u32, ctx': C)
    requires x >= 2 && x == n + k && k < n && IsPow2(n) && x + 1 < v.Length <= 0x8000_0000 && Stands(m, start, v, x, j, ctx)
    modifies v
    ensures Stands(m, start, v, x + 1, j', ctx')
  {
    hide IsPow2, At;
    var next := Rung(m, start, v, x, n, k, j, ctx);
    v[x + 1], ctx' := next.x, next.ctx;
    j' := m.integerify(v[x + 1]);
  }

  /** Between two powers of two, two rungs at a time. */
  method Stretch<B, C>(m: Mixer<B, C>, start: Point<B, C>, v: array<B>, n: nat, limit: nat, j0: u32, ctx0: C)
    returns (x: nat, j: u32, ctx: C)
    requires 2 <= n && n % 2 == 0 && IsPow2(n) && 1 <= limit <= n && n + limit < v.Length <= 0x8000_0000
    requires Stands(m, start, v, n, j0, ctx0)
    modifies v
    ensures x == n + limit / 2 * 2 && Stands(m, start, v, x, j, ctx)
  {
    hide IsPow2, Stands;
    x, j, ctx := n, j0, ctx0;
    var i := 1;
    while i < limit
      invariant i % 2 == 1 && 1 <= i <= limit + 1 && x == n + i - 1 && Stands(m, start, v, x, j, ctx)
    {
      j, ctx := Climb(m, start, v, x, n, i - 1, j, ctx);
      j, ctx := Climb(m, start, v, x + 1, n, i, j, ctx);
      x := x + 2;
      i := i + 2;
    }
  }

  method FirstRungs<B, C>(m: Mixer<B, C>, start: Point<B, C>, v: array<B>) returns (j: u32, ctx: C)
    requires v.Length >= 4
    modifies v
    ensures Stands(m, start, v, 2, j, ctx)
  {
    v[0] := start.x;
    var mixed := m.mix(v[0], start.ctx);
    v[1] := mixed.0;
    mixed := m.mix(v[1], mixed.1);
    v[2] := mixed.0;
    ctx := mixed.1;
    j := m.integerify(v[2]);
    FirstThree(m, start);
  }

  /** Two at a time, from one power of two to the next; the loop stops two short, and the last two steps come
      after it, the very last one not into V. */
  method Ladder<B, C>(m: Mixer<B, C>, start: Point<B, C>, v: array<B>) returns (end: Point<B, C>)
    requires 4 <= v.Length <= 0x8000_0000 && v.Length % 2 == 0
    modifies v
    ensures Filled(v, m, start, v.Length) && end == At(m, start, v.Length)
  {
    hide IsPow2, At;
    var N := v.Length;
    var j, ctx := FirstRungs(m, start, v);
    var x, n := 2, 2;
    TwoIsPow2();
    while n < N
      invariant IsPow2(n) && 2 <= n && n % 2 == 0 && (n == 2 || n / 2 < N)
      invariant x == (if n < N then n else N - 2) && Stands(m, start, v, x, j, ctx)
      invariant n >= N ==> IsPow2(n / 2) && n / 2 % 2 == 0
      decreases N - n
    {
      var limit := if n < N / 2 then n else N - 1 - n;
      x, j, ctx := Stretch(m, start, v, n, limit, j, ctx);
      DoublesPow2(n);
      n := 2 * n;
    }
    n := n / 2;
    j, ctx := Climb(m, start, v, x, n, N - 2 - n, j, ctx);
    end := Rung(m, start, v, x + 1, n, N - 1 - n, j, ctx);
  }

  lemma FirstThree<B, C>(m: Mixer<B, C>, start: Point<B, C>)
    ensures var (y, c) := m.mix(start.x, start.ctx); At(m, start, 1) == Point(y, c)
    ensures var (y, c) := m.mix(At(m, start, 1).x, At(m, start, 1).ctx); At(m, start, 2) == Point(y, c)
    ensures At(m, start, 0) == start
  {
    hide Wrap;
    assert At(m, start, 1) == (var (y, c) := m.mix(Mixed(m, start, 0, At(m, start, 0).x), At(m, start, 0).ctx); Point(y, c));
  }

  lemma TwoIsPow2()
    ensures IsPow2(2)
  {
    assert IsPow2(2 / 2);
  }

  lemma DoublesPow2(n: nat)
    requires IsPow2(n)
    ensures IsPow2(2 * n)
  {
    assert 2 * n / 2 == n;
  }
}
