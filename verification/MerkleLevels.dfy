/** The same trees read from the bottom. Pairing the n nodes of a level gives a level of n' = (n + 1) / 2
    nodes, the last one promoted unpaired when n is odd, and node i becomes node i' = i / 2; these lemmas
    say that one such step changes nothing in the checks defined from the top. The verifiers' shifting
    loops take these steps. Halves are written without division: n <= 2 n' <= n + 1 and 2 i' <= i <= 2 i' + 1. */
module MerkleLevels {
  import opened Hashing
  import opened MerkleTree
  import opened Options

  /** i' = i / 2 */
  predicate Half(i: nat, i': nat) {
    2 * i' <= i <= 2 * i' + 1
  }

  /** n' = (n + 1) / 2 */
  predicate Paired(n: nat, n': nat) {
    n <= 2 * n' <= n + 1
  }

  /** Splitting commutes with pairing. */
  lemma SplitLevel(n: nat, n': nat)
    requires n > 2 && Paired(n, n')
    ensures n' >= 2 && Split(n) == 2 * Split(n')
  {
    assert n' == (n + 1) / 2;
  }

  function Join(v: Hash, onRight: bool, sibling: Hash): Hash {
    if onRight then Node(sibling, v) else Node(v, sibling)
  }

  /** In the earlier tree the node is the last one: a sibling on its right is not there yet. */
  function JoinOld(v: Hash, onRight: bool, sibling: Hash): Hash {
    if onRight then Node(sibling, v) else v
  }

  /** The last node of an odd number has no sibling on its level. */
  lemma {:induction false} LevelPromoted(v: Hash, i': nat, n': nat, path: seq<Hash>)
    requires i' + 1 == n' && n' >= 2
    ensures RootFromPath(v, 2 * i', 2 * n' - 1, path) == RootFromPath(v, i', n', path)
    ensures OldRootFromPath(v, 2 * i', 2 * n' - 1, path) == OldRootFromPath(v, i', n', path)
    decreases n'
  {
    hide Split;
    var k' := Split(n');
    SplitLevel(2 * n' - 1, n');
    if path != [] && n' - k' >= 2 {
      LevelPromoted(v, i' - k', n' - k', path[..|path| - 1]);
    }
  }

  /** Two nodes, or a path of one hash. */
  lemma LevelShort(v: Hash, i: nat, n: nat, path: seq<Hash>, i': nat, n': nat)
    requires i < n && n >= 2 && Half(i, i') && Paired(n, n') && (i == 2 * i' ==> i + 1 < n)
    requires path != [] && (n == 2 || |path| == 1)
    ensures RootFromPath(v, i, n, path) == RootFromPath(Join(v, i != 2 * i', path[0]), i', n', path[1..])
    ensures OldRootFromPath(v, i, n, path) == OldRootFromPath(JoinOld(v, i != 2 * i', path[0]), i', n', path[1..])
  {
    if n > 2 {
      SplitLevel(n, n');
    }
  }

  lemma {:induction false} Level(v: Hash, i: nat, n: nat, path: seq<Hash>, i': nat, n': nat)
    requires i < n && n >= 2 && Half(i, i') && Paired(n, n') && path != []
    requires i == 2 * i' ==> i + 1 < n
    ensures RootFromPath(v, i, n, path) == RootFromPath(Join(v, i != 2 * i', path[0]), i', n', path[1..])
    decreases n
  {
    hide Split, Join;
    if n == 2 || |path| == 1 {
      LevelShort(v, i, n, path, i', n');
    } else {
      var k', init, rest := Split(n'), path[..|path| - 1], path[1..];
      SplitLevel(n, n');
      assert init[1..] == rest[..|rest| - 1];
      var u := Join(v, i != 2 * i', path[0]);
      hide RootFromPath;
      PathStep(v, i, n, path);
      PathStep(u, i', n', rest);
      if i' < k' {
        Level(v, i, 2 * k', init, i', k');
        assert RootFromPath(u, i', k', rest[..|rest| - 1]) == RootFromPath(v, i, 2 * k', init);
      } else {
        Level(v, i - 2 * k', n - 2 * k', init, i' - k', n' - k');
        assert RootFromPath(u, i' - k', n' - k', rest[..|rest| - 1]) == RootFromPath(v, i - 2 * k', n - 2 * k', init);
      }
    }
  }

  lemma {:induction false} LevelOld(v: Hash, i: nat, n: nat, path: seq<Hash>, i': nat, n': nat)
    requires i < n && n >= 2 && Half(i, i') && Paired(n, n') && path != []
    requires i == 2 * i' ==> i + 1 < n
    ensures OldRootFromPath(v, i, n, path) == OldRootFromPath(JoinOld(v, i != 2 * i', path[0]), i', n', path[1..])
    decreases n
  {
    hide Split, JoinOld;
    if n == 2 || |path| == 1 {
      LevelShort(v, i, n, path, i', n');
    } else {
      var k', init, rest := Split(n'), path[..|path| - 1], path[1..];
      SplitLevel(n, n');
      assert init[1..] == rest[..|rest| - 1];
      var u := JoinOld(v, i != 2 * i', path[0]);
      hide OldRootFromPath;
      OldPathStep(v, i, n, path);
      OldPathStep(u, i', n', rest);
      if i' < k' {
        LevelOld(v, i, 2 * k', init, i', k');
        assert OldRootFromPath(u, i', k', rest[..|rest| - 1]) == OldRootFromPath(v, i, 2 * k', init);
      } else {
        LevelOld(v, i - 2 * k', n - 2 * k', init, i' - k', n' - k');
        assert OldRootFromPath(u, i' - k', n' - k', rest[..|rest| - 1]) == OldRootFromPath(v, i - 2 * k', n - 2 * k', init);
      }
    }
  }

  /** At the root nothing may be left of the path, and below it something must be. */
  lemma AtTop(v: Hash, path: seq<Hash>)
    ensures RootFromPath(v, 0, 1, path) == OldRootFromPath(v, 0, 1, path) == if path == [] then Some(v) else None
  {
  }

  lemma BelowTop(v: Hash, i: nat, n: nat)
    requires i < n && n >= 2
    ensures RootFromPath(v, i, n, []) == OldRootFromPath(v, i, n, []) == None
  {
  }

  // ---- Consistency proofs ----

  /** While the earlier tree fills whole pairs, a proof does not change from level to level. */
  lemma {:induction false} LevelEven(m': nat, n: nat, n': nat, proof: seq<Hash>, complete: bool, first: Hash)
    requires 0 < m' && 2 * m' <= n && Paired(n, n')
    ensures RootsFromProof(2 * m', n, proof, complete, first) == RootsFromProof(m', n', proof, complete, first)
    decreases n
  {
    hide Split;
    if 2 * m' < n && proof != [] {
      var k', init := Split(n'), proof[..|proof| - 1];
      SplitLevel(n, n');
      if m' <= k' {
        LevelEven(m', 2 * k', k', init, complete, first);
        assert RootsFromProof(m', n', proof, complete, first)
            == RightSibling(RootsFromProof(m', k', init, complete, first), proof[|proof| - 1]);
      } else {
        LevelEven(m' - k', n - 2 * k', n' - k', init, false, first);
        assert RootsFromProof(m', n', proof, complete, first)
            == LeftSibling(proof[|proof| - 1], RootsFromProof(m' - k', n' - k', init, false, first));
      }
    }
  }

  /** What the verifier starts from: the proof, behind the root it already holds when the earlier tree
      is one whole subtree. */
  function Started(m: nat, proof: seq<Hash>, complete: bool, first: Hash): seq<Hash> {
    if complete && m == 1 then [first] + proof else proof
  }

  function OddRoots(m: nat, n: nat, path: seq<Hash>): Option<Roots>
    requires 0 < m <= n
  {
    if path == [] then None
    else
      var a, b := OldRootFromPath(path[0], m - 1, n, path[1..]), RootFromPath(path[0], m - 1, n, path[1..]);
      if a == None || b == None then None else Some(Roots(a.value, b.value))
  }

  /** Once the earlier tree ends in an unpaired node, a consistency proof is that node followed by its
      audit path, which leads to both roots. */
  lemma {:induction false} LevelOdd(m: nat, n: nat, proof: seq<Hash>, complete: bool, first: Hash)
    requires 0 < m <= n && m % 2 == 1 && (m < n || m == 1)
    ensures RootsFromProof(m, n, proof, complete, first) == OddRoots(m, n, Started(m, proof, complete, first))
    decreases n
  {
    hide Split;
    if m < n && proof != [] {
      var k, init := Split(n), proof[..|proof| - 1];
      var path := Started(m, proof, complete, first);
      assert n == 2 ==> k == 1;
      if m <= k {
        LevelOdd(m, k, init, complete, first);
        LevelOddStep(m, n, path, Started(m, init, complete, first));
      } else {
        LevelOdd(m - k, n - k, init, false, first);
        LevelOddStep(m, n, path, init);
      }
    }
  }

  /** The last hash of a path, added to both roots at the top. */
  lemma LevelOddStep(m: nat, n: nat, path: seq<Hash>, init: seq<Hash>)
    requires 0 < m < n && |path| > 0 && init == path[..|path| - 1]
    ensures var k, last := Split(n), path[|path| - 1];
      OddRoots(m, n, path) ==
      if m <= k then RightSibling(OddRoots(m, k, init), last) else LeftSibling(last, OddRoots(m - k, n - k, init))
  {
    if |path| > 1 {
      assert init[1..] == path[1..][..|path| - 2];
    }
  }
}
