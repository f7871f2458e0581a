/** Sparks and what is said about them, protocol/src/spark.rs:27-62 and protocol/src/sth.rs:1-88: leaves, ids,
    tree heads and receipts. */
module Sparks {
  import opened Bytes
  import opened Hashing
  import opened MerkleTree
  import opened Options
  import opened SparkLog
  import opened Wishes

  datatype Spark = Spark(proposalId: Id32, miner: Id32, nonce: u64)

  /** The 80 bytes of a log entry. */
  function LeafBytes(epoch: u64, s: Spark): (bytes: seq<u8>)
    ensures |bytes| == 80
  {
    Le(epoch, 8) + (s.proposalId + (s.miner + Le(s.nonce, 8)))
  }

  lemma LeafBytesInjective(epoch: u64, s: Spark, epoch': u64, s': Spark)
    requires LeafBytes(epoch, s) == LeafBytes(epoch', s')
    ensures epoch == epoch' && s == s'
  {
    hide Le;
    Spans();
    var a, b := s.miner + Le(s.nonce, 8), s'.miner + Le(s'.nonce, 8);
    SplitEqual(Le(epoch, 8), s.proposalId + a, Le(epoch', 8), s'.proposalId + b);
    LeInjective(epoch, epoch', 8);
    SplitEqual(s.proposalId, a, s'.proposalId, b);
    SplitEqual(s.miner, Le(s.nonce, 8), s'.miner, Le(s'.nonce, 8));
    LeInjective(s.nonce, s'.nonce, 8);
  }

  function LeafOf(epoch: u64, s: Spark): Hash {
    LeafHash(LeafBytes(epoch, s))
  }

  const SPARK_ID_TAG: seq<u8> := // "PROTOGAEA/SPARK_ID/V0"
    [80, 82, 79, 84, 79, 71, 65, 69, 65, 47, 83, 80, 65, 82, 75, 95, 73, 68, 47, 86, 48]

  function IdOf(epoch: u64, s: Spark): Hash {
    Text(SPARK_ID_TAG + LeafBytes(epoch, s))
  }

  lemma IdsDiffer(epoch: u64, s: Spark, s': Spark)
    ensures IdOf(epoch, s) == IdOf(epoch, s') <==> s == s'
  {
    hide LeafBytes;
    if IdOf(epoch, s) == IdOf(epoch, s') {
      SplitEqual(SPARK_ID_TAG, LeafBytes(epoch, s), SPARK_ID_TAG, LeafBytes(epoch, s'));
      LeafBytesInjective(epoch, s, epoch, s');
    }
  }

  function LeavesOf(epoch: u64, log: seq<Spark>): (leaves: seq<Hash>)
    ensures |leaves| == |log| && forall k :: 0 <= k < |log| ==> leaves[k] == LeafOf(epoch, log[k])
  {
    seq(|log|, k requires 0 <= k < |log| => LeafOf(epoch, log[k]))
  }

  function IdsOf(epoch: u64, log: seq<Spark>): set<Hash> {
    set k | 0 <= k < |log| :: IdOf(epoch, log[k])
  }

  predicate NoDuplicates(log: seq<Spark>) {
    forall j, k :: 0 <= j < k < |log| ==> log[j] != log[k]
  }

  /** A signed tree head, without its signature. */
  datatype Sth = Sth(epoch: u64, treeSize: nat, root: Hash, timestamp: nat)

  datatype Receipt = Receipt(spark: Spark, leafIndex: nat, sth: Sth, path: seq<Hash>)

  /** A receipt holds when its path leads from its spark to its head. */
  ghost predicate Verifies(r: Receipt) {
    r.leafIndex < r.sth.treeSize
    && RootFromPath(LeafOf(r.sth.epoch, r.spark), r.leafIndex, r.sth.treeSize, r.path) == Some(r.sth.root)
  }

  /** A path taken from the log under a head of it verifies. */
  lemma ReceiptVerifies(epoch: u64, log: seq<Spark>, index: nat, timestamp: nat)
    requires index < |log|
    ensures Verifies(Receipt(log[index], index, Sth(epoch, |log|, LogRoot(LeavesOf(epoch, log)), timestamp),
      AuditPath(LeavesOf(epoch, log), index)))
  {
    PathExact(LeafOf(epoch, log[index]), index, LeavesOf(epoch, log), AuditPath(LeavesOf(epoch, log), index));
  }

  /** What a receipt that verifies proves: under a head of a log, its spark is in the log at its place. */
  lemma ReceiptProves(r: Receipt, log: seq<Spark>)
    requires Verifies(r) && r.sth.treeSize == |log| && r.sth.root == LogRoot(LeavesOf(r.sth.epoch, log))
    ensures log[r.leafIndex] == r.spark
  {
    hide LeafBytes;
    PathExact(LeafOf(r.sth.epoch, r.spark), r.leafIndex, LeavesOf(r.sth.epoch, log), r.path);
    LeafBytesInjective(r.sth.epoch, r.spark, r.sth.epoch, log[r.leafIndex]);
  }

  // ---- Counting ----

  function CountFor(id: Id32, log: seq<Spark>): nat {
    if log == [] then 0
    else CountFor(id, log[..|log| - 1]) + if log[|log| - 1].proposalId == id then 1 else 0
  }
}
