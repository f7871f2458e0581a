/** The shape of the trees of sections 2.1.1 to 2.1.4 of RFC 9162: roots, audit paths and consistency proofs by
    recursion from the top, and the same checks read from the top. Both crates build these trees. */
module MerkleTree {
  import opened Hashing
  import opened Options
  import opened Powers

  /** The roots of an earlier tree and of a later one. */
  datatype Roots = Roots(old_: Hash, new_: Hash)

  /** The largest power of two below n, defined level by level. */
  function Split(n: nat): (k: nat)
    requires n >= 2
    ensures 0 < k < n <= 2 * k
    ensures n > 2 ==> k % 2 == 0
  {
    if n == 2 then 1 else 2 * Split((n + 1) / 2)
  }

  lemma {:induction false} SplitIsPow2(n: nat)
    requires n >= 2
    ensures IsPow2(Split(n))
  {
    if n > 2 {
      SplitIsPow2((n + 1) / 2);
    }
  }

  lemma {:induction false} SplitUnique(n: nat, k: nat)
    requires n >= 2 && IsPow2(k) && k < n <= 2 * k
    ensures k == Split(n)
  {
    SplitIsPow2(n);
    Pow2Unique(k, Split(n));
  }

  // ---- Roots and proofs, from the top ----

  function Root(leaves: seq<Hash>): Hash
    requires |leaves| > 0
  {
    if |leaves| == 1 then leaves[0]
    else
      var k := Split(|leaves|);
      Node(Root(leaves[..k]), Root(leaves[k..]))
  }

  function AuditPath(leaves: seq<Hash>, i: nat): seq<Hash>
    requires i < |leaves|
  {
    if |leaves| == 1 then []
    else
      var k := Split(|leaves|);
      if i < k then AuditPath(leaves[..k], i) + [Root(leaves[k..])]
      else AuditPath(leaves[k..], i - k) + [Root(leaves[..k])]
  }

  /** The consistency proof of the first m leaves; `complete` while the subtree is one whose root the
      verifier already holds. */
  function SubProof(m: nat, leaves: seq<Hash>, complete: bool): seq<Hash>
    requires 0 < m <= |leaves|
    decreases |leaves|
  {
    if m == |leaves| then (if complete then [] else [Root(leaves)])
    else
      var k := Split(|leaves|);
      if m <= k then SubProof(m, leaves[..k], complete) + [Root(leaves[k..])]
      else SubProof(m - k, leaves[k..], false) + [Root(leaves[..k])]
  }

  // ---- The same checks, from the top ----

  /** The root that `path` leads to from node i of n nodes; None if the path has the wrong length. */
  function RootFromPath(v: Hash, i: nat, n: nat, path: seq<Hash>): Option<Hash>
    requires i < n
    decreases n
  {
    if n == 1 then (if path == [] then Some(v) else None)
    else if path == [] then None
    else
      var k, init, last := Split(n), path[..|path| - 1], path[|path| - 1];
      if i < k then OnRight(RootFromPath(v, i, k, init), last)
      else OnLeft(last, RootFromPath(v, i - k, n - k, init))
  }

  function OnRight(root: Option<Hash>, last: Hash): Option<Hash> {
    if root == None then None else Some(Node(root.value, last))
  }

  function OnLeft(last: Hash, root: Option<Hash>): Option<Hash> {
    if root == None then None else Some(Node(last, root.value))
  }

  /** The root of the tree that ends with node i: only siblings on the left belong to it. */
  function OldRootFromPath(v: Hash, i: nat, n: nat, path: seq<Hash>): Option<Hash>
    requires i < n
    decreases n
  {
    if n == 1 then (if path == [] then Some(v) else None)
    else if path == [] then None
    else
      var k, init, last := Split(n), path[..|path| - 1], path[|path| - 1];
      if i < k then OldRootFromPath(v, i, k, init)
      else OnLeft(last, OldRootFromPath(v, i - k, n - k, init))
  }

  /** The pair of roots, of m leaves and of n leaves, that a consistency proof leads to. */
  function RootsFromProof(m: nat, n: nat, proof: seq<Hash>, complete: bool, first: Hash): Option<Roots>
    requires 0 < m <= n
    decreases n
  {
    if m == n then
      if complete then (if proof == [] then Some(Roots(first, first)) else None)
      else if |proof| == 1 then Some(Roots(proof[0], proof[0])) else None
    else if proof == [] then None
    else
      var k, init, last := Split(n), proof[..|proof| - 1], proof[|proof| - 1];
      if m <= k then RightSibling(RootsFromProof(m, k, init, complete, first), last)
      else LeftSibling(last, RootsFromProof(m - k, n - k, init, false, first))
  }

  /** A sibling on the right belongs to the later tree alone; one on the left to both. */
  function RightSibling(roots: Option<Roots>, last: Hash): Option<Roots> {
    if roots == None then None else Some(Roots(roots.value.old_, Node(roots.value.new_, last)))
  }

  function LeftSibling(last: Hash, roots: Option<Roots>): Option<Roots> {
    if roots == None then None else Some(Roots(Node(last, roots.value.old_), Node(last, roots.value.new_)))
  }

  // ---- One level of each ----

  lemma RootStep(leaves: seq<Hash>)
    requires |leaves| > 1
    ensures var k := Split(|leaves|); Root(leaves) == Node(Root(leaves[..k]), Root(leaves[k..]))
  {
  }

  lemma AuditStep(leaves: seq<Hash>, i: nat)
    requires i < |leaves| && |leaves| > 1
    ensures var k := Split(|leaves|);
      AuditPath(leaves, i) == if i < k then AuditPath(leaves[..k], i) + [Root(leaves[k..])]
        else AuditPath(leaves[k..], i - k) + [Root(leaves[..k])]
  {
  }

  lemma PathStep(v: Hash, i: nat, n: nat, path: seq<Hash>)
    requires i < n && n > 1 && path != []
    ensures var k, init, last := Split(n), path[..|path| - 1], path[|path| - 1];
      RootFromPath(v, i, n, path) == if i < k then OnRight(RootFromPath(v, i, k, init), last)
        else OnLeft(last, RootFromPath(v, i - k, n - k, init))
  {
  }

  lemma OldPathStep(v: Hash, i: nat, n: nat, path: seq<Hash>)
    requires i < n && n > 1 && path != []
    ensures var k, init, last := Split(n), path[..|path| - 1], path[|path| - 1];
      OldRootFromPath(v, i, n, path) == if i < k then OldRootFromPath(v, i, k, init)
        else OnLeft(last, OldRootFromPath(v, i - k, n - k, init))
  {
  }

  // ---- Trees of one size are determined by their roots ----

  lemma {:induction false} RootInjective(a: seq<Hash>, b: seq<Hash>)
    requires 0 < |a| == |b| && Root(a) == Root(b)
    ensures a == b
    decreases |a|
  {
    if |a| > 1 {
      var k := Split(|a|);
      RootInjective(a[..k], b[..k]);
      RootInjective(a[k..], b[k..]);
      assert a == a[..k] + a[k..] && b == b[..k] + b[k..];
    }
  }

  /** A path leads from a value to the root of some leaves exactly when the value is the leaf at that
      place and the path is its audit path. */
  lemma {:induction false} PathExact(v: Hash, i: nat, leaves: seq<Hash>, path: seq<Hash>)
    requires i < |leaves|
    ensures Leads(v, i, leaves, path) <==> v == leaves[i] && path == AuditPath(leaves, i)
    decreases |leaves|
  {
    if |leaves| > 1 && path != [] {
      var k, init := Split(|leaves|), path[..|path| - 1];
      if i < k {
        PathExact(v, i, leaves[..k], init);
        PathExactLeft(v, i, leaves, path);
      } else {
        PathExact(v, i - k, leaves[k..], init);
        PathExactRight(v, i, leaves, path);
      }
    }
  }

  predicate Leads(v: Hash, i: nat, leaves: seq<Hash>, path: seq<Hash>)
    requires i < |leaves|
  {
    RootFromPath(v, i, |leaves|, path) == Some(Root(leaves))
  }

  lemma PathExactLeft(v: Hash, i: nat, leaves: seq<Hash>, path: seq<Hash>)
    requires i < |leaves| && |leaves| > 1 && path != [] && i < Split(|leaves|)
    requires var left := leaves[..Split(|leaves|)];
      Leads(v, i, left, path[..|path| - 1]) <==> v == left[i] && path[..|path| - 1] == AuditPath(left, i)
    ensures Leads(v, i, leaves, path) <==> v == leaves[i] && path == AuditPath(leaves, i)
  {
    hide Root, AuditPath, RootFromPath, Split;
    var k, init, last := Split(|leaves|), path[..|path| - 1], path[|path| - 1];
    RootStep(leaves);
    AuditStep(leaves, i);
    PathStep(v, i, |leaves|, path);
    AppendExact(init, last, AuditPath(leaves[..k], i), Root(leaves[k..]));
    assert path == init + [last];
  }

  lemma PathExactRight(v: Hash, i: nat, leaves: seq<Hash>, path: seq<Hash>)
    requires i < |leaves| && |leaves| > 1 && path != [] && i >= Split(|leaves|)
    requires var k, right := Split(|leaves|), leaves[Split(|leaves|)..];
      Leads(v, i - k, right, path[..|path| - 1]) <==> v == right[i - k] && path[..|path| - 1] == AuditPath(right, i - k)
    ensures Leads(v, i, leaves, path) <==> v == leaves[i] && path == AuditPath(leaves, i)
  {
    hide Root, AuditPath, RootFromPath, Split;
    var k, init, last := Split(|leaves|), path[..|path| - 1], path[|path| - 1];
    RootStep(leaves);
    AuditStep(leaves, i);
    PathStep(v, i, |leaves|, path);
    AppendExact(init, last, AuditPath(leaves[k..], i - k), Root(leaves[..k]));
    assert path == init + [last];
  }

  lemma AppendExact(p: seq<Hash>, x: Hash, q: seq<Hash>, y: Hash)
    ensures p + [x] == q + [y] <==> p == q && x == y
  {
    if p + [x] == q + [y] {
      assert (p + [x])[..|p|] == p && (q + [y])[..|q|] == q;
    }
  }

  /** Past its left subtree, a prefix splits where the whole does. */
  lemma SameSplit(m: nat, n: nat)
    requires n >= 2 && Split(n) < m <= n
    ensures Split(m) == Split(n)
  {
    SplitIsPow2(n);
    SplitUnique(m, Split(n));
  }

  lemma PrefixSplits(a: seq<Hash>, b: seq<Hash>, k: nat)
    requires k < |a| <= |b|
    ensures a == b[..|a|] <==> a[..k] == b[..k] && a[k..] == b[k..][..|a| - k]
  {
    assert a == a[..k] + a[k..];
    assert b[..|a|] == b[..k] + b[k..][..|a| - k];
  }

  lemma {:induction false} ProofComplete(a: seq<Hash>, b: seq<Hash>, complete: bool, first: Hash)
    requires 0 < |a| <= |b| && a == b[..|a|]
    requires complete ==> first == Root(a)
    ensures RootsFromProof(|a|, |b|, SubProof(|a|, b, complete), complete, first) == Some(Roots(Root(a), Root(b)))
    decreases |b|
  {
    if |a| < |b| {
      var m, k := |a|, Split(|b|);
      if m <= k {
        assert b[..k][..m] == b[..m];
        assert SubProof(m, b, complete)[..|SubProof(m, b, complete)| - 1] == SubProof(m, b[..k], complete);
        ProofComplete(a, b[..k], complete, first);
      } else {
        ProofCompleteRight(a, b, complete, first);
      }
    } else {
      assert a == b;
    }
  }

  lemma {:induction false} ProofCompleteRight(a: seq<Hash>, b: seq<Hash>, complete: bool, first: Hash)
    requires 0 < |a| < |b| && a == b[..|a|] && Split(|b|) < |a|
    ensures RootsFromProof(|a|, |b|, SubProof(|a|, b, complete), complete, first) == Some(Roots(Root(a), Root(b)))
    decreases |b|, 0
  {
    hide SubProof, RootsFromProof, Root;
    PrefixSplits(a, b, Split(|b|));
    ProofComplete(a[Split(|b|)..], b[Split(|b|)..], false, first);
    RightHalfComplete(a, b, complete, first);
  }

  lemma RightHalfComplete(a: seq<Hash>, b: seq<Hash>, complete: bool, first: Hash)
    requires 0 < |a| < |b| && Split(|b|) < |a| && a[..Split(|b|)] == b[..Split(|b|)]
    requires RootsFromProof(|a| - Split(|b|), |b| - Split(|b|), SubProof(|a| - Split(|b|), b[Split(|b|)..], false), false, first)
      == Some(Roots(Root(a[Split(|b|)..]), Root(b[Split(|b|)..])))
    ensures RootsFromProof(|a|, |b|, SubProof(|a|, b, complete), complete, first) == Some(Roots(Root(a), Root(b)))
  {
    hide SubProof, RootsFromProof, Root;
    var k := Split(|b|);
    SubProofRight(|a|, b, complete);
    SameSplit(|a|, |b|);
    RootStep(a);
    RootStep(b);
    RootsJoin(|a|, |b|, SubProof(|a| - k, b[k..], false), Root(b[..k]), complete, first, Roots(Root(a[k..]), Root(b[k..])));
  }

  lemma SubProofRight(m: nat, leaves: seq<Hash>, complete: bool)
    requires 0 < m < |leaves| && Split(|leaves|) < m
    ensures var k := Split(|leaves|); SubProof(m, leaves, complete) == SubProof(m - k, leaves[k..], false) + [Root(leaves[..k])]
  {
  }

  /** A sibling on the left is the last of a proof. */
  lemma RootsJoin(m: nat, n: nat, rest: seq<Hash>, last: Hash, complete: bool, first: Hash, roots: Roots)
    requires 0 < m < n && Split(n) < m
    requires RootsFromProof(m - Split(n), n - Split(n), rest, false, first) == Some(roots)
    ensures RootsFromProof(m, n, rest + [last], complete, first)
      == Some(Roots(Node(last, roots.old_), Node(last, roots.new_)))
  {
    assert (rest + [last])[..|rest + [last]| - 1] == rest;
  }

  lemma {:induction false} ProofSound(a: seq<Hash>, b: seq<Hash>, proof: seq<Hash>, complete: bool, first: Hash)
    requires 0 < |a| <= |b|
    requires RootsFromProof(|a|, |b|, proof, complete, first) == Some(Roots(Root(a), Root(b)))
    ensures a == b[..|a|] && proof == SubProof(|a|, b, complete)
    decreases |b|
  {
    if |a| < |b| {
      var m, k, init := |a|, Split(|b|), proof[..|proof| - 1];
      assert proof == init + [proof[|proof| - 1]];
      if m <= k {
        assert b[..k][..m] == b[..m];
        ProofSound(a, b[..k], init, complete, first);
      } else {
        ProofSoundRight(a, b, proof, complete, first);
      }
    } else {
      assert b[..|a|] == b;
      RootInjective(a, b);
    }
  }

  lemma {:induction false} ProofSoundRight(a: seq<Hash>, b: seq<Hash>, proof: seq<Hash>, complete: bool, first: Hash)
    requires 0 < |a| < |b| && Split(|b|) < |a|
    requires RootsFromProof(|a|, |b|, proof, complete, first) == Some(Roots(Root(a), Root(b)))
    ensures a == b[..|a|] && proof == SubProof(|a|, b, complete)
    decreases |b|, 0
  {
    hide Root, RootsFromProof, SubProof, Split;
    var k := Split(|b|);
    SameSplit(|a|, |b|);
    RootsStepRight(a, b, proof, complete, first);
    var init, lasts, rights := proof[..|proof| - 1], a[k..], b[k..];
    RootInjective(a[..k], b[..k]);
    ProofSound(lasts, rights, init, false, first);
    assert proof == init + [proof[|proof| - 1]];
    PrefixSplits(a, b, k);
  }

  lemma RootsStep(m: nat, n: nat, proof: seq<Hash>, complete: bool, first: Hash)
    requires 0 < m < n
    ensures RootsFromProof(m, n, proof, complete, first) ==
      if proof == [] then None
      else
        var k, init, last := Split(n), proof[..|proof| - 1], proof[|proof| - 1];
        if m <= k then RightSibling(RootsFromProof(m, k, init, complete, first), last)
        else LeftSibling(last, RootsFromProof(m - k, n - k, init, false, first))
  {
  }

  lemma SubProofStep(m: nat, leaves: seq<Hash>, complete: bool)
    requires 0 < m < |leaves|
    ensures var k := Split(|leaves|);
      SubProof(m, leaves, complete) == if m <= k then SubProof(m, leaves[..k], complete) + [Root(leaves[k..])]
        else SubProof(m - k, leaves[k..], false) + [Root(leaves[..k])]
  {
  }

  /** One level of a proof that crosses the split: the roots of both halves. */
  lemma RootsStepRight(a: seq<Hash>, b: seq<Hash>, proof: seq<Hash>, complete: bool, first: Hash)
    requires 0 < |a| < |b| && Split(|b|) < |a| && Split(|a|) == Split(|b|)
    requires RootsFromProof(|a|, |b|, proof, complete, first) == Some(Roots(Root(a), Root(b)))
    ensures var k := Split(|b|);
      && proof != [] && Root(a[..k]) == Root(b[..k]) == proof[|proof| - 1]
      && RootsFromProof(|a| - k, |b| - k, proof[..|proof| - 1], false, first) == Some(Roots(Root(a[k..]), Root(b[k..])))
      && SubProof(|a|, b, complete) == SubProof(|a| - k, b[k..], false) + [Root(b[..k])]
  {
    hide Root, RootsFromProof, SubProof, Split;
    RootStep(a);
    RootStep(b);
    RootsStep(|a|, |b|, proof, complete, first);
    SubProofStep(|a|, b, complete);
  }

  /** A proof leads to the roots of `a` and `b` exactly when `a` is a prefix of `b` and the proof is
      the generated one. */
  lemma ProofExact(a: seq<Hash>, b: seq<Hash>, proof: seq<Hash>)
    requires 0 < |a| <= |b|
    ensures RootsFromProof(|a|, |b|, proof, true, Root(a)) == Some(Roots(Root(a), Root(b)))
       <==> a == b[..|a|] && proof == SubProof(|a|, b, true)
  {
    if a == b[..|a|] {
      ProofComplete(a, b, true, Root(a));
    }
    if RootsFromProof(|a|, |b|, proof, true, Root(a)) == Some(Roots(Root(a), Root(b))) {
      ProofSound(a, b, proof, true, Root(a));
    }
  }
}
