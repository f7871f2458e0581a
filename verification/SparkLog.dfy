/** The spark log of protocol/src/log.rs: one tree per epoch, its inclusion and consistency proofs. */
module SparkLog {
  import opened Hashing
  import opened MerkleTree
  import opened MerkleLevels
  import opened Options
  import opened Powers

  function LeafHash(leaf: seq<u8>): Hash {
    Leaf(leaf)
  }

  const EmptyRoot: Hash := Text([])

  /** `usize::leading_zeros` of a 64-bit word. */
  function LeadingZeros(x: u64): (z: nat)
    ensures z <= 64
  {
    LeadingZerosFrom(x, 64)
  }

  /** The shift by the position of the highest set bit of n - 1. */
  function SplitByShift(n: u64): nat
    requires n >= 2
  {
    Shift64();
    HighestBit(n - 1, 64);
    ShiftLeft(64 - 1 - LeadingZeros(n - 1))
  }

  lemma SplitByShiftIsSplit(n: u64)
    requires n >= 2
    ensures SplitByShift(n) == Split(n)
  {
    Shift64();
    HighestBit(n - 1, 64);
    SplitUnique(n, SplitByShift(n));
  }

  /** The root of a log; the empty one has a root of its own. */
  function LogRoot(leaves: seq<Hash>): Hash {
    if leaves == [] then EmptyRoot else Root(leaves)
  }

  /** Checks an audit path by shifting the index and the size, section 2.1.3.2 of RFC 9162. */
  method VerifyInclusion(leaf: Hash, index: u64, size: u64, path: seq<Hash>, root: Hash) returns (ok: bool)
    ensures ok <==> (index < size && RootFromPath(leaf, index, size, path) == Some(root))
  {
    hide RootFromPath, Split;
    if index >= size {
      return false;
    }
    var fn: nat, sn: nat := index, size - 1;
    var r := leaf;
    for j := 0 to |path|
      invariant fn <= sn
      invariant RootFromPath(r, fn, sn + 1, path[j..]) == RootFromPath(leaf, index, size, path)
    {
      ghost var here, v := path[j..], r;
      assert here != [] && here[0] == path[j] && here[1..] == path[j + 1..];
      if sn == 0 {
        AtTop(r, here);
        return false;
      }
      if fn % 2 == 1 || fn == sn {
        r := Node(path[j], r);
        if fn % 2 == 0 {
          while fn % 2 == 0 && fn != 0
            invariant fn == sn > 0
            invariant RootFromPath(v, fn, sn + 1, here) == RootFromPath(leaf, index, size, path)
            decreases fn
          {
            LevelPromoted(v, fn / 2, sn / 2 + 1, here);
            fn := fn / 2;
            sn := sn / 2;
          }
        }
      } else {
        r := Node(r, path[j]);
      }
      Level(v, fn, sn + 1, here, fn / 2, sn / 2 + 1);
      fn := fn / 2;
      sn := sn / 2;
    }
    assert path[|path|..] == [];
    if sn == 0 {
      AtTop(r, []);
    } else {
      BelowTop(r, fn, sn + 1);
    }
    ok := sn == 0 && r == root;
  }

  /** Drops the levels on which the earlier tree fills whole pairs. */
  method SkipFullLevels(first: nat, second: nat, ghost proof: seq<Hash>, ghost firstRoot: Hash)
    returns (fn: nat, sn: nat)
    requires 0 < first < second
    ensures fn <= sn && (IsPow2(first) <==> fn == 0)
    ensures RootsFromProof(first, second, proof, true, firstRoot)
         == OddRoots(fn + 1, sn + 1, Started(fn + 1, proof, true, firstRoot))
  {
    hide RootsFromProof, Split, OddRoots, IsPow2, Started;
    fn, sn := first - 1, second - 1;
    Pow2Halves(first);
    while fn % 2 == 1
      invariant fn < sn || (fn == sn && IsPow2(fn + 1))
      invariant IsPow2(first) <==> IsPow2(fn + 1)
      invariant RootsFromProof(fn + 1, sn + 1, proof, true, firstRoot)
             == RootsFromProof(first, second, proof, true, firstRoot)
      decreases fn
    {
      LevelEven(fn / 2 + 1, sn + 1, sn / 2 + 1, proof, true, firstRoot);
      Pow2Halves(fn + 1);
      fn := fn / 2;
      sn := sn / 2;
    }
    Pow2Halves(fn + 1);
    LevelOdd(fn + 1, sn + 1, proof, true, firstRoot);
  }

  /** Folds an audit path into the roots of both trees; None if its length is wrong. */
  method FoldBoth(start: Hash, f0: nat, s0: nat, path: seq<Hash>) returns (roots: Option<Roots>)
    requires f0 <= s0
    ensures roots == OddRoots(f0 + 1, s0 + 1, [start] + path)
  {
    hide RootFromPath, OldRootFromPath, Split;
    var fn, sn, fr, sr := f0, s0, start, start;
    ghost var oldRoot, newRoot := OldRootFromPath(start, fn, sn + 1, path), RootFromPath(start, fn, sn + 1, path);
    assert ([start] + path)[1..] == path;
    for j := 0 to |path|
      invariant fn <= sn
      invariant OldRootFromPath(fr, fn, sn + 1, path[j..]) == oldRoot
      invariant RootFromPath(sr, fn, sn + 1, path[j..]) == newRoot
    {
      ghost var here, u, v := path[j..], fr, sr;
      assert here != [] && here[0] == path[j] && here[1..] == path[j + 1..];
      if sn == 0 {
        AtTop(fr, here);
        return None;
      }
      if fn % 2 == 1 || fn == sn {
        fr := Node(path[j], fr);
        sr := Node(path[j], sr);
        if fn % 2 == 0 {
          while fn % 2 == 0 && fn != 0
            invariant fn == sn > 0
            invariant OldRootFromPath(u, fn, sn + 1, here) == oldRoot
            invariant RootFromPath(v, fn, sn + 1, here) == newRoot
            decreases fn
          {
            LevelPromoted(u, fn / 2, sn / 2 + 1, here);
            LevelPromoted(v, fn / 2, sn / 2 + 1, here);
            fn := fn / 2;
            sn := sn / 2;
          }
        }
      } else {
        sr := Node(sr, path[j]);
      }
      LevelOld(u, fn, sn + 1, here, fn / 2, sn / 2 + 1);
      Level(v, fn, sn + 1, here, fn / 2, sn / 2 + 1);
      fn := fn / 2;
      sn := sn / 2;
    }
    assert path[|path|..] == [];
    if sn == 0 {
      AtTop(fr, []);
      AtTop(sr, []);
      roots := Some(Roots(fr, sr));
    } else {
      BelowTop(fr, fn, sn + 1);
      roots := None;
    }
  }

  /** Checks a consistency proof by the same shifting, section 2.1.4.2 of RFC 9162. */
  method VerifyConsistency(first: u64, second: u64, firstRoot: Hash, secondRoot: Hash, proof: seq<Hash>)
    returns (ok: bool)
    ensures ok <==> (0 < first <= second &&
      RootsFromProof(first, second, proof, true, firstRoot) == Some(Roots(firstRoot, secondRoot)))
  {
    if first == 0 || first > second {
      return false;
    }
    if first == second {
      return proof == [] && firstRoot == secondRoot;
    }
    var path := proof;
    if IsPow2(first) {
      path := [firstRoot] + path;
    }
    if path == [] {
      return false;
    }
    hide RootsFromProof, OddRoots, IsPow2;
    var start, rest := path[0], path[1..];
    assert path == [start] + rest;
    var fn, sn := SkipFullLevels(first, second, proof, firstRoot);
    var roots := FoldBoth(start, fn, sn, rest);
    ok := roots == Some(Roots(firstRoot, secondRoot));
  }
}
