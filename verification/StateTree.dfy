/** The trees over the world state, core/src/merkle.rs: a second implementation of the same trees, with
    its own split, proof builder and verifier. */
module StateTree {
  import opened Hashing
  import opened MerkleTree
  import opened MerkleLevels
  import opened Options
  import opened Powers

  /** The hash of one leaf: its kind's domain, then its bytes. */
  function LeafHash(domain: seq<u8>, data: seq<u8>): Hash {
    Leaf(domain + data)
  }

  const EMPTY: seq<u8> := // "PROTOGAEA/MERKLE/EMPTY/"
    [80, 82, 79, 84, 79, 71, 65, 69, 65, 47, 77, 69, 82, 75, 76, 69, 47, 69, 77, 80, 84, 89, 47]

  /** The root over leaf hashes, in order; with no leaves, one that names the kind of leaf. */
  function TreeRoot(leaves: seq<Hash>, domain: seq<u8>): Hash {
    if leaves == [] then Text(EMPTY + domain) else Root(leaves)
  }

  /** Doubling finds the same power of two as the shift in the spark log. */
  method SplitByDoubling(n: nat) returns (k: nat)
    requires n >= 2
    ensures k == Split(n)
  {
    k := 1;
    while k * 2 < n
      invariant IsPow2(k) && k < n
      decreases n - k
    {
      k := k * 2;
    }
    SplitUnique(n, k);
  }

  /** Appends the sibling hashes from the leaf up to the root. */
  method PushAuditPath(leaves: seq<Hash>, index: nat, path: seq<Hash>) returns (out: seq<Hash>)
    requires index < |leaves|
    ensures out == path + AuditPath(leaves, index)
    decreases |leaves|
  {
    if |leaves| <= 1 {
      return path;
    }
    var k := SplitByDoubling(|leaves|);
    if index < k {
      out := PushAuditPath(leaves[..k], index, path);
      out := out + [Root(leaves[k..])];
    } else {
      out := PushAuditPath(leaves[k..], index - k, path);
      out := out + [Root(leaves[..k])];
    }
  }

  /** Accepts exactly what the spark log's verifier accepts: both promise the same condition. */
  method Verify(leaf: Hash, index: u64, size: u64, path: seq<Hash>, root: Hash) returns (ok: bool)
    ensures ok <==> (index < size && RootFromPath(leaf, index, size, path) == Some(root))
  {
    hide RootFromPath, Split;
    if index >= size {
      return false;
    }
    var f: nat, s: nat := index, size - 1;
    var r := leaf;
    for j := 0 to |path|
      invariant f <= s
      invariant RootFromPath(r, f, s + 1, path[j..]) == RootFromPath(leaf, index, size, path)
    {
      ghost var here, v := path[j..], r;
      assert here != [] && here[0] == path[j] && here[1..] == path[j + 1..];
      if s == 0 {
        AtTop(r, here);
        return false;
      }
      if f % 2 == 1 || f == s {
        r := Node(path[j], r);
        while f % 2 == 0 && f != 0
          invariant f % 2 == 1 || f == s
          invariant 0 < f <= s
          invariant RootFromPath(v, f, s + 1, here) == RootFromPath(leaf, index, size, path)
          decreases f
        {
          LevelPromoted(v, f / 2, s / 2 + 1, here);
          f := f / 2;
          s := s / 2;
        }
      } else {
        r := Node(r, path[j]);
      }
      Level(v, f, s + 1, here, f / 2, s / 2 + 1);
      f := f / 2;
      s := s / 2;
    }
    assert path[|path|..] == [];
    if s == 0 {
      AtTop(r, []);
    } else {
      BelowTop(r, f, s + 1);
    }
    ok := s == 0 && r == root;
  }
}
