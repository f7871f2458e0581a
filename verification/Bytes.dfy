/** Little-endian integers, as every encoding of the repository writes them. */
module Bytes {
  import opened Hashing

  /** The largest value of `width` bytes, plus one. */
  function Span(width: nat): (n: nat)
    ensures n > 0
  {
    if width == 0 then 1 else 0x100 * Span(width - 1)
  }

  /** The `width` bytes of an integer, lowest first. */
  function Le(x: nat, width: nat): (bytes: seq<u8>)
    ensures |bytes| == width
  {
    if width == 0 then [] else [x % 0x100] + Le(x / 0x100, width - 1)
  }

  function FromLe(bytes: seq<u8>): nat {
    if bytes == [] then 0 else bytes[0] + 0x100 * FromLe(bytes[1..])
  }

  lemma {:induction false} LeRoundTrip(x: nat, width: nat)
    requires x < Span(width)
    ensures FromLe(Le(x, width)) == x
  {
    if width > 0 {
      LeRoundTrip(x / 0x100, width - 1);
      assert Le(x, width)[1..] == Le(x / 0x100, width - 1);
    }
  }

  lemma {:induction false} FromLeRoundTrip(bytes: seq<u8>)
    ensures FromLe(bytes) < Span(|bytes|)
    ensures Le(FromLe(bytes), |bytes|) == bytes
  {
    if bytes != [] {
      FromLeRoundTrip(bytes[1..]);
      var low: nat, high := bytes[0], FromLe(bytes[1..]);
      assert (low + 0x100 * high) % 0x100 == low && (low + 0x100 * high) / 0x100 == high;
      assert bytes == [bytes[0]] + bytes[1..];
    }
  }

  /** Integers of one width are told apart by their bytes. */
  lemma LeInjective(x: nat, y: nat, width: nat)
    requires x < Span(width) && y < Span(width) && Le(x, width) == Le(y, width)
    ensures x == y
  {
    LeRoundTrip(x, width);
    LeRoundTrip(y, width);
  }

  lemma Spans()
    ensures Span(1) == 0x100 && Span(2) == 0x1_0000 && Span(4) == 0x1_0000_0000
    ensures Span(8) == 0x1_0000_0000_0000_0000
  {
    assert Span(2) == 0x100 * Span(1) && Span(3) == 0x100 * Span(2) && Span(4) == 0x100 * Span(3);
    assert Span(5) == 0x100 * Span(4) && Span(6) == 0x100 * Span(5) && Span(7) == 0x100 * Span(6);
    assert Span(8) == 0x100 * Span(7);
  }

  /** What follows a part of known length. */
  lemma Behind<T>(a: seq<T>, b: seq<T>)
    ensures (a + b)[..|a|] == a && (a + b)[|a|..] == b
  {
  }

  /** Two strings that start with parts of one length are equal exactly when both parts are. */
  lemma SplitEqual<T>(a: seq<T>, b: seq<T>, c: seq<T>, d: seq<T>)
    requires |a| == |c|
    ensures a + b == c + d <==> a == c && b == d
  {
    if a + b == c + d {
      Behind(a, b);
      Behind(c, d);
    }
  }

  // ---- Reading ----

  /** Integers one after the other, each with its width, and whatever comes behind them. */
  datatype Fields = Rest | Field(width: nat, value: nat, more: Fields)

  /** A reader gets these values who takes integers of these widths. */
  predicate Reads(bytes: seq<u8>, fields: Fields) {
    match fields
    case Rest => true
    case Field(width, value, more) =>
      width <= |bytes| && FromLe(bytes[..width]) == value && Reads(bytes[width..], more)
  }

  /** An integer in front is read first. */
  lemma ReadsNext(x: nat, width: nat, rest: seq<u8>, more: Fields)
    requires x < Span(width) && Reads(rest, more)
    ensures Reads(Le(x, width) + rest, Field(width, x, more))
  {
    Behind(Le(x, width), rest);
    LeRoundTrip(x, width);
  }

  lemma ReadsLast(x: nat, width: nat)
    requires x < Span(width)
    ensures Reads(Le(x, width), Field(width, x, Rest))
  {
    ReadsNext(x, width, [], Rest);
    assert Le(x, width) + [] == Le(x, width);
  }
}
