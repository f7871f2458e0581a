/** The tables of the spark intake, server/src/intake.rs, and what every operation keeps of them. Each table of the
    database is a map; these are the facts about the maps, and Intake changes them step by step. */
module IntakeTables {
  import opened Arithmetic
  import opened Hashing
  import opened MerkleTree
  import opened Options
  import opened SparkLog
  import opened Sparks
  import opened Wishes

  datatype Status = Open | Ready | Selected | Executed | Invalidated | Expired

  /** A row of the table of wishes; its bytes are the wish's canonical encoding. */
  datatype Entry = Entry(wish: Wish, status: Status, work: nat, executedEpoch: Option<u64>)

  /** A row of the table of windows; `accepted` is null until the window closes. */
  datatype Window = Window(challenge: Id32, target: u64, accepted: Option<nat>)

  datatype Head = Head(sth: Sth, final: bool)

  type Logs = map<u64, seq<Spark>>
  type Entries = map<Id32, Entry>
  type Windows = map<u64, Window>

  // ---- Targets ----

  const TARGET_SPARKS: nat := 20_000
  const U64_MAX: u64 := 0xffff_ffff_ffff_ffff
  const I64_MAX: u64 := 0x7fff_ffff_ffff_ffff

  /** The work units of a spark under a target. */
  function Weight(target: u64): (w: u64)
    requires target > 0
    ensures w > 0
  {
    var each := 0x1_0000_0000_0000_0000 / target;
    if each < U64_MAX then each else U64_MAX
  }

  function NextTarget(target: u64, accepted: nat): (next: u64)
    requires target > 0
    ensures next > 0
  {
    if accepted == 0 then target
    else Clamp(Clamp(target * TARGET_SPARKS / accepted, target * 3 / 4, target * 5 / 4), 1, U64_MAX)
  }

  /** A target as the table of windows keeps it, in a signed column. */
  function Recorded(target: u64): (r: u64)
    ensures target > 0 ==> r > 0
    ensures r <= I64_MAX && (target <= I64_MAX ==> r == target)
  {
    if target < I64_MAX then target else I64_MAX
  }

  /** The recorded target tells the weight exactly up to 2^63; above, a spark is credited one unit of work and the
      record says two. */
  lemma RecordedWeight(target: u64)
    requires target > 0
    ensures Weight(Recorded(target)) == Weight(target) <==> target <= 0x8000_0000_0000_0000
    ensures target > 0x8000_0000_0000_0000 ==> Weight(target) == 1 && Weight(Recorded(target)) == 2
  {
    if target > 0x8000_0000_0000_0000 {
      DivideOnce(target);
    }
  }

  lemma DivideOnce(target: u64)
    requires target > 0x8000_0000_0000_0000
    ensures 0x1_0000_0000_0000_0000 / target == 1
  {
  }

  /** A window with few sparks is enough to pass that point. */
  lemma TargetsPassTheRecord()
    ensures NextTarget(I64_MAX, 1) > 0x8000_0000_0000_0000
  {
  }

  /** The target moves by at most a quarter, and not at all after an empty window. */
  /** Towards twenty thousand sparks in a window, rounded down, by a quarter at most, and never out of range. */
  lemma NextTargetExactly(target: u64, accepted: nat) returns (want: nat, low: nat, high: nat)
    requires target > 0 && accepted > 0
    ensures RoundsDown(want, 20_000 * target, accepted) && RoundsDown(low, 3 * target, 4) && RoundsDown(high, 5 * target, 4)
    ensures var next := NextTarget(target, accepted);
      && (low <= want <= high && 1 <= want <= U64_MAX ==> next == want)
      && (want < low ==> next == low) && (want > high && high <= U64_MAX ==> next == high)
      && (low <= want == 0 ==> next == 1) && (low <= want && want > U64_MAX && high > U64_MAX ==> next == U64_MAX)
  {
    want, low, high := target * TARGET_SPARKS / accepted, target * 3 / 4, target * 5 / 4;
    DivRoundsDown(target * TARGET_SPARKS, accepted);
    DivRoundsDown(target * 3, 4);
    DivRoundsDown(target * 5, 4);
    hide RoundsDown;
  }

  /** A spark is worth as many tries as its target takes on average: 2^64 parts divided by it. */
  lemma WeightExactly(target: u64)
    requires target > 0
    ensures target >= 2 ==> RoundsDown(Weight(target), 0x1_0000_0000_0000_0000, target)
    ensures target == 1 ==> Weight(target) == U64_MAX
  {
    DivRoundsDown(0x1_0000_0000_0000_0000, target);
    if target >= 2 {
      var each := 0x1_0000_0000_0000_0000 / target;
      if each >= U64_MAX {
        MulMonotone(2, target, each);
      }
    }
  }

  lemma TargetMoves(target: u64, accepted: nat)
    requires target > 0
    ensures accepted == 0 ==> NextTarget(target, accepted) == target
    ensures 4 * NextTarget(target, accepted) <= 5 * target || NextTarget(target, accepted) == 1
    ensures 3 * target < 4 * NextTarget(target, accepted) + 4 || NextTarget(target, accepted) == U64_MAX
  {
  }

  /** The last window before an epoch. */
  function LastBefore(windows: Windows, epoch: nat): (last: Option<u64>)
    requires epoch <= U64_MAX
    ensures last.Some? ==> last.value < epoch && last.value in windows
    ensures forall e :: e in windows && e < epoch ==> last.Some? && e <= last.value
  {
    if epoch == 0 then None
    else if epoch - 1 in windows then Some(epoch - 1)
    else LastBefore(windows, epoch - 1)
  }

  /** The target a new window takes: that of the last window, moved once that has closed. */
  function TargetFor(windows: Windows, epoch: u64, first: u64): (t: u64)
    requires first > 0 && forall e :: e in windows ==> windows[e].target > 0
    ensures t > 0
  {
    match LastBefore(windows, epoch)
    case None => first
    case Some(e) =>
      match windows[e].accepted
      case None => windows[e].target
      case Some(n) => NextTarget(windows[e].target, n)
  }

  // ---- Logs ----

  /** An epoch's sparks: packed once its window closed, rows while it is open. */
  function LogOf(rows: Logs, logs: Logs, epoch: u64): seq<Spark> {
    if epoch in logs then logs[epoch] else if epoch in rows then rows[epoch] else []
  }

  /** No spark is logged twice; exactly the closed windows are packed, at the size they accepted. `targets` are the
      targets they ran with, and no window is past the horizon. */
  ghost predicate LogsKept(rows: Logs, logs: Logs, windows: Windows, targets: map<u64, u64>, horizon: u64) {
    && (forall e: u64 :: NoDuplicates(LogOf(rows, logs, e)))
    && (forall e :: e in rows ==> 1 <= e <= horizon && e !in logs)
    && (forall e :: e in logs ==> 1 <= e <= horizon && e in windows && windows[e].accepted == Some(|logs[e]|))
    && (forall e :: e in windows ==> e <= horizon && 0 < windows[e].target <= I64_MAX && (windows[e].accepted.Some? ==> e in logs))
    && targets.Keys == logs.Keys
    && (forall e :: e in targets ==> targets[e] > 0 && e in windows && windows[e].target == Recorded(targets[e]))
  }

  /** Every log has only grown. */
  ghost predicate Grown(rows: Logs, logs: Logs, rows': Logs, logs': Logs) {
    forall e: u64 :: LogOf(rows, logs, e) <= LogOf(rows', logs', e)
  }

  /** The log after sparks arrive: those already in it are refused. */
  function Taken(log: seq<Spark>, sparks: seq<Spark>): seq<Spark> {
    if sparks == [] then log
    else
      var before, s := Taken(log, sparks[..|sparks| - 1]), sparks[|sparks| - 1];
      if s in before then before else before + [s]
  }

  /** A log takes each spark once and forgets none. */
  lemma {:induction false} TakenOnce(log: seq<Spark>, sparks: seq<Spark>)
    requires NoDuplicates(log)
    ensures NoDuplicates(Taken(log, sparks)) && log <= Taken(log, sparks)
    ensures forall s :: s in Taken(log, sparks) <==> s in log || s in sparks
  {
    if sparks != [] {
      TakenOnce(log, sparks[..|sparks| - 1]);
      assert sparks == sparks[..|sparks| - 1] + [sparks[|sparks| - 1]];
    }
  }

  lemma SeenExactly(epoch: u64, log: seq<Spark>, s: Spark)
    ensures IdOf(epoch, s) in IdsOf(epoch, log) <==> s in log
    ensures IdsOf(epoch, log + [s]) == IdsOf(epoch, log) + {IdOf(epoch, s)}
    ensures LeavesOf(epoch, log + [s]) == LeavesOf(epoch, log) + [LeafOf(epoch, s)]
  {
    hide IdOf, LeafOf;
    forall k | 0 <= k < |log|
      ensures IdOf(epoch, log[k]) == IdOf(epoch, s) <==> log[k] == s
    {
      IdsDiffer(epoch, log[k], s);
    }
    var longer := log + [s];
    assert longer[|log|] == s && forall k :: 0 <= k < |log| ==> longer[k] == log[k];
    assert forall k :: 0 <= k < |longer| ==> IdOf(epoch, longer[k]) in IdsOf(epoch, log) + {IdOf(epoch, s)};
    assert forall h :: h in IdsOf(epoch, log) ==> h in IdsOf(epoch, longer);
  }

  lemma LogsAppended(rows: Logs, logs: Logs, windows: Windows, targets: map<u64, u64>, horizon: u64, epoch: u64, s: Spark)
    requires LogsKept(rows, logs, windows, targets, horizon) && 1 <= epoch <= horizon && epoch !in logs
    requires s !in LogOf(rows, logs, epoch)
    ensures var rows' := rows[epoch := LogOf(rows, logs, epoch) + [s]];
      LogsKept(rows', logs, windows, targets, horizon) && Grown(rows, logs, rows', logs)
  {
    hide Recorded;
    var rows' := rows[epoch := LogOf(rows, logs, epoch) + [s]];
    forall e: u64
      ensures LogOf(rows, logs, e) <= LogOf(rows', logs, e) && NoDuplicates(LogOf(rows', logs, e))
    {
      assert NoDuplicates(LogOf(rows, logs, e));
    }
  }

  lemma LogsClosed(rows: Logs, logs: Logs, windows: Windows, targets: map<u64, u64>, horizon: u64, epoch: u64, target: u64)
    requires LogsKept(rows, logs, windows, targets, horizon) && 1 <= epoch <= horizon && epoch !in logs
    requires target > 0 && epoch in windows && windows[epoch].target == Recorded(target)
    ensures var log := LogOf(rows, logs, epoch);
      var rows', logs' := rows - {epoch}, logs[epoch := log];
      && LogsKept(rows', logs', windows[epoch := windows[epoch].(accepted := Some(|log|))], targets[epoch := target], horizon)
      && forall e: u64 :: LogOf(rows', logs', e) == LogOf(rows, logs, e)
  {
    hide Recorded, NoDuplicates;
    var log := LogOf(rows, logs, epoch);
    var rows', logs' := rows - {epoch}, logs[epoch := log];
    forall e: u64
      ensures LogOf(rows', logs', e) == LogOf(rows, logs, e)
    {
    }
  }

  // ---- Tree heads ----

  /** A head says what the first part of a log hashes to. */
  ghost predicate HeadOf(h: Sth, log: seq<Spark>) {
    h.treeSize <= |log| && h.root == LogRoot(LeavesOf(h.epoch, log[..h.treeSize]))
  }

  /** Every head ever signed is the root of the start of its log; the table keeps some of them by their size. */
  ghost predicate HeadsKept(signed: set<Sth>, sths: map<(u64, nat), Head>, rows: Logs, logs: Logs) {
    && (forall h :: h in signed ==> HeadOf(h, LogOf(rows, logs, h.epoch)))
    && (forall k :: k in sths ==> sths[k].sth in signed && sths[k].sth.epoch == k.0 && sths[k].sth.treeSize == k.1)
  }

  lemma HeadGrows(h: Sth, log: seq<Spark>, log': seq<Spark>)
    requires HeadOf(h, log) && log <= log'
    ensures HeadOf(h, log')
  {
    assert log'[..h.treeSize] == log[..h.treeSize];
  }

  lemma HeadsGrow(signed: set<Sth>, sths: map<(u64, nat), Head>, rows: Logs, logs: Logs, rows': Logs, logs': Logs)
    requires HeadsKept(signed, sths, rows, logs) && Grown(rows, logs, rows', logs')
    ensures HeadsKept(signed, sths, rows', logs')
  {
    hide HeadOf, LogOf;
    forall h | h in signed
      ensures HeadOf(h, LogOf(rows', logs', h.epoch))
    {
      HeadGrows(h, LogOf(rows, logs, h.epoch), LogOf(rows', logs', h.epoch));
    }
  }

  lemma HeadSigned(signed: set<Sth>, sths: map<(u64, nat), Head>, rows: Logs, logs: Logs, h: Sth, final: bool)
    requires HeadsKept(signed, sths, rows, logs) && HeadOf(h, LogOf(rows, logs, h.epoch))
    ensures HeadsKept(signed + {h}, sths[(h.epoch, h.treeSize) := Head(h, final)], rows, logs)
  {
    hide HeadOf, LogOf;
  }

  function HeadNow(epoch: u64, log: seq<Spark>, now: nat): Sth {
    Sth(epoch, |log|, LogRoot(LeavesOf(epoch, log)), now)
  }

  lemma WholeHead(epoch: u64, log: seq<Spark>, now: nat)
    ensures HeadOf(HeadNow(epoch, log, now), log)
  {
    assert log[..|log|] == log;
  }

  /** Any two heads signed for an epoch, in whatever order, are consistent: the log has a proof that the smaller tree
      starts the larger one, which every watcher accepts. */
  lemma HeadsAgree(signed: set<Sth>, sths: map<(u64, nat), Head>, rows: Logs, logs: Logs, g: Sth, h: Sth)
    requires HeadsKept(signed, sths, rows, logs) && g in signed && h in signed && g.epoch == h.epoch
    requires 0 < g.treeSize <= h.treeSize
    ensures var leaves := LeavesOf(h.epoch, LogOf(rows, logs, h.epoch)[..h.treeSize]);
      RootsFromProof(g.treeSize, h.treeSize, SubProof(g.treeSize, leaves, true), true, g.root) == Some(Roots(g.root, h.root))
  {
    hide LogOf, Root, SubProof, RootsFromProof;
    var log := LogOf(rows, logs, h.epoch);
    assert HeadOf(g, log) && HeadOf(h, log);
    var a, b := LeavesOf(h.epoch, log[..g.treeSize]), LeavesOf(h.epoch, log[..h.treeSize]);
    assert a == b[..|a|];
    ProofExact(a, b, SubProof(|a|, b, true));
  }

  // ---- Work ----

  /** The work of an id: over the closed windows before `n`, the weight of the window's target for each of its sparks. */
  ghost function Earned(id: Id32, targets: map<u64, u64>, logs: Logs, n: nat): nat {
    if n == 0 then 0
    else Earned(id, targets, logs, n - 1) + EarnedIn(id, targets, logs, n - 1)
  }

  ghost function EarnedIn(id: Id32, targets: map<u64, u64>, logs: Logs, n: nat): nat {
    if n in logs && n in targets && targets[n] > 0 then Weight(targets[n]) * CountFor(id, logs[n]) else 0
  }

  ghost predicate WorkKept(entries: Entries, targets: map<u64, u64>, logs: Logs, n: nat) {
    forall id: Id32 :: Earned(id, targets, logs, n) == if id in entries then entries[id].work else 0
  }

  /** Sparks are only logged for wishes the table has. */
  ghost predicate SparksKnown(rows: Logs, logs: Logs, entries: Entries) {
    forall e: u64, k :: 0 <= k < |LogOf(rows, logs, e)| ==> LogOf(rows, logs, e)[k].proposalId in entries
  }

  lemma {:induction false} EarnedFrame(id: Id32, targets: map<u64, u64>, logs: Logs, targets': map<u64, u64>, logs': Logs, n: nat)
    requires forall e :: 0 <= e < n ==> EarnedIn(id, targets, logs, e) == EarnedIn(id, targets', logs', e)
    ensures Earned(id, targets, logs, n) == Earned(id, targets', logs', n)
  {
    if n > 0 {
      EarnedFrame(id, targets, logs, targets', logs', n - 1);
    }
  }

  /** Windows not yet closed add nothing. */
  lemma {:induction false} EarnedBeyond(id: Id32, targets: map<u64, u64>, logs: Logs, n: nat, m: nat)
    requires n <= m && forall e :: e in logs ==> e < n
    ensures Earned(id, targets, logs, m) == Earned(id, targets, logs, n)
  {
    if n < m {
      EarnedBeyond(id, targets, logs, n, m - 1);
    }
  }

  lemma WorkKeptBeyond(entries: Entries, targets: map<u64, u64>, logs: Logs, n: nat, m: nat)
    requires WorkKept(entries, targets, logs, n) && n <= m && forall e :: e in logs ==> e < n
    ensures WorkKept(entries, targets, logs, m)
  {
    hide Earned;
    forall id: Id32
      ensures Earned(id, targets, logs, m) == Earned(id, targets, logs, n)
    {
      EarnedBeyond(id, targets, logs, n, m);
    }
  }

  /** Closing a window adds its sparks, at the weight of its target. */
  lemma {:induction false} EarnedMore(id: Id32, targets: map<u64, u64>, logs: Logs, epoch: u64, target: u64, log: seq<Spark>, n: nat)
    requires epoch !in logs && epoch < n && target > 0
    ensures Earned(id, targets[epoch := target], logs[epoch := log], n)
      == Earned(id, targets, logs, n) + Weight(target) * CountFor(id, log)
  {
    hide Weight, CountFor;
    var targets', logs' := targets[epoch := target], logs[epoch := log];
    if n == epoch + 1 {
      forall e | 0 <= e < epoch
        ensures EarnedIn(id, targets, logs, e) == EarnedIn(id, targets', logs', e)
      {
      }
      EarnedFrame(id, targets, logs, targets', logs', epoch);
    } else {
      EarnedMore(id, targets, logs, epoch, target, log, n - 1);
      assert EarnedIn(id, targets', logs', n - 1) == EarnedIn(id, targets, logs, n - 1);
    }
  }

  lemma {:induction false} Uncounted(id: Id32, log: seq<Spark>)
    requires forall k :: 0 <= k < |log| ==> log[k].proposalId != id
    ensures CountFor(id, log) == 0
  {
    if log != [] {
      Uncounted(id, log[..|log| - 1]);
    }
  }

  /** The wishes with the work of a log added. */
  function Credited(entries: Entries, log: seq<Spark>, each: nat): Entries {
    map id | id in entries :: entries[id].(work := entries[id].work + each * CountFor(id, log))
  }

  lemma WorkCredited(rows: Logs, logs: Logs, entries: Entries, targets: map<u64, u64>, epoch: u64, target: u64, n: nat)
    requires SparksKnown(rows, logs, entries) && WorkKept(entries, targets, logs, n)
    requires epoch !in logs && epoch < n && target > 0
    ensures var log := LogOf(rows, logs, epoch);
      WorkKept(Credited(entries, log, Weight(target)), targets[epoch := target], logs[epoch := log], n)
  {
    hide Earned, Weight;
    var log := LogOf(rows, logs, epoch);
    forall id: Id32
      ensures var entries' := Credited(entries, log, Weight(target));
        Earned(id, targets[epoch := target], logs[epoch := log], n) == if id in entries' then entries'[id].work else 0
    {
      EarnedMore(id, targets, logs, epoch, target, log, n);
      if id !in entries {
        Uncounted(id, log);
      }
    }
  }

  /** The sum as a watcher can compute it, from the recorded targets, is the work credited when no window's target
      passed 2^63. */
  lemma {:induction false} EarnedFromTheRecord(id: Id32, targets: map<u64, u64>, logs: Logs, recorded: map<u64, u64>, n: nat)
    requires targets.Keys == logs.Keys == recorded.Keys
    requires forall e :: e in targets ==> 0 < targets[e] <= 0x8000_0000_0000_0000 && recorded[e] == Recorded(targets[e])
    ensures Earned(id, recorded, logs, n) == Earned(id, targets, logs, n)
  {
    hide Weight, CountFor, Recorded;
    if n > 0 {
      EarnedFromTheRecord(id, targets, logs, recorded, n - 1);
      if n - 1 in targets {
        RecordedWeight(targets[n - 1]);
        assert EarnedIn(id, recorded, logs, n - 1) == Weight(targets[n - 1]) * CountFor(id, logs[n - 1]);
      }
    }
  }

  // ---- Wishes ----

  const OPEN_PER_AUTHOR: nat := 3

  function OpenOf(entries: Entries, author: Id32): set<Id32> {
    set id | id in entries && entries[id].status == Open && entries[id].wish.author == author
  }

  ghost predicate FewOpen(entries: Entries) {
    forall author: Id32 :: |OpenOf(entries, author)| <= OPEN_PER_AUTHOR
  }

  predicate Over(status: Status) {
    status == Executed || status == Invalidated || status == Expired
  }

  /** What an operation may do to the wishes: none is lost, none opens again, one that is over stays as it is, and
      work only grows. */
  ghost predicate Advanced(entries: Entries, entries': Entries) {
    forall id :: id in entries ==> id in entries' && Follows(entries[id], entries'[id])
  }

  predicate Follows(e: Entry, e': Entry) {
    && e'.wish == e.wish && e'.work >= e.work
    && (e'.status == Open ==> e.status == Open)
    && (Over(e.status) ==> e'.status == e.status && e'.executedEpoch == e.executedEpoch)
  }

  lemma NotAdvanced(entries: Entries)
    ensures Advanced(entries, entries)
  {
  }

  lemma AdvancedTwice(a: Entries, b: Entries, c: Entries)
    requires Advanced(a, b) && Advanced(b, c)
    ensures Advanced(a, c)
  {
    forall id | id in a
      ensures id in c && Follows(a[id], c[id])
    {
      assert Follows(a[id], b[id]) && Follows(b[id], c[id]);
    }
  }

  /** The executed wishes are those in the list of executions, each there once. */
  ghost predicate ExecutionsKept(entries: Entries, executions: seq<Id32>) {
    && (forall j, k :: 0 <= j < k < |executions| ==> executions[j] != executions[k])
    && (forall id :: id in executions <==> id in entries && entries[id].status == Executed)
  }

  /** The wishes the world was given and has not answered for are selected, each once. */
  ghost predicate PendingKept(entries: Entries, pending: seq<Id32>) {
    && (forall j, k :: 0 <= j < k < |pending| ==> pending[j] != pending[k])
    && (forall k :: 0 <= k < |pending| ==> pending[k] in entries && entries[pending[k]].status == Selected)
  }

  lemma FewerOpen(entries: Entries, entries': Entries)
    requires FewOpen(entries) && entries'.Keys == entries.Keys && Advanced(entries, entries')
    ensures FewOpen(entries')
  {
    forall author: Id32
      ensures |OpenOf(entries', author)| <= OPEN_PER_AUTHOR
    {
      assert |OpenOf(entries, author)| <= OPEN_PER_AUTHOR;
      assert forall id :: id in OpenOf(entries', author) ==> Follows(entries[id], entries'[id]);
      Fewer(OpenOf(entries', author), OpenOf(entries, author));
    }
  }

  lemma {:induction false} Fewer<T>(a: set<T>, b: set<T>)
    requires a <= b
    ensures |a| <= |b|
  {
    assert b == a + (b - a);
  }

  lemma OneMoreOpen(entries: Entries, id: Id32, w: Wish)
    requires FewOpen(entries) && id !in entries && |OpenOf(entries, w.author)| < OPEN_PER_AUTHOR
    ensures FewOpen(entries[id := Entry(w, Open, 0, None)])
  {
    hide OpenOf;
    var entries' := entries[id := Entry(w, Open, 0, None)];
    forall author: Id32
      ensures |OpenOf(entries', author)| <= OPEN_PER_AUTHOR
    {
      assert |OpenOf(entries, author)| <= OPEN_PER_AUTHOR;
      OpenedFor(entries, id, w, author);
    }
  }

  lemma OpenedFor(entries: Entries, id: Id32, w: Wish, author: Id32)
    requires id !in entries
    ensures OpenOf(entries[id := Entry(w, Open, 0, None)], author) <= OpenOf(entries, author) + {id}
    ensures author != w.author ==> OpenOf(entries[id := Entry(w, Open, 0, None)], author) == OpenOf(entries, author)
    ensures |OpenOf(entries[id := Entry(w, Open, 0, None)], author)| <= |OpenOf(entries, author)| + 1
  {
    var entries' := entries[id := Entry(w, Open, 0, None)];
    forall other | other in OpenOf(entries', author) && other != id
      ensures other in OpenOf(entries, author)
    {
      assert entries'[other] == entries[other];
    }
    Fewer(OpenOf(entries', author), OpenOf(entries, author) + {id});
  }

  /** Open wishes past their lifetime. */
  function Lapsed(entries: Entries, epoch: u64): Entries {
    map id | id in entries ::
      if entries[id].status == Open && entries[id].wish.expiresEpoch <= epoch then entries[id].(status := Expired)
      else entries[id]
  }

  /** An open wish whose lifetime is over when the window closes has expired; one that queues or has an answer has not. */
  lemma LapsedExactly(entries: Entries, epoch: u64, id: Id32)
    requires id in entries
    ensures var was, now := entries[id], Lapsed(entries, epoch)[id];
      && (now.status == Expired <==> was.status == Expired || (was.status == Open && was.wish.expiresEpoch < epoch + 1))
      && (now.status != Expired ==> now.status == was.status)
      && now.wish == was.wish && now.work == was.work && now.executedEpoch == was.executedEpoch
    ensures Lapsed(entries, epoch).Keys == entries.Keys
  {
  }

  /** The wishes named get a status. */
  function Marked(entries: Entries, ids: seq<Id32>, status: Status): Entries {
    map id | id in entries :: if id in ids then entries[id].(status := status) else entries[id]
  }

  // ---- Outcomes ----

  datatype Outcome = Applied | Deferred | Refused

  datatype MiracleRow = MiracleRow(proposalId: Id32, outcome: Outcome)

  /** What an outcome makes of a wish: applied ones are executed, those deferred queue again. */
  function Answered(e: Entry, epoch: u64, o: Outcome): Entry {
    match o
    case Applied => e.(status := Executed, executedEpoch := Some(epoch))
    case Deferred => e.(status := Ready, executedEpoch := None)
    case Refused => e.(status := Invalidated, executedEpoch := None)
  }

  function AppliedOf(ids: seq<Id32>, outcomes: seq<Outcome>): seq<Id32>
    requires |ids| == |outcomes|
  {
    if ids == [] then []
    else
      var n := |ids| - 1;
      AppliedOf(ids[..n], outcomes[..n]) + if outcomes[n] == Applied then [ids[n]] else []
  }

  // ---- The whole database ----

  /** The tables. */
  datatype Database = Database(entries: Entries, rows: Logs, logs: Logs, sths: map<(u64, nat), Head>, windows: Windows,
    miracles: map<(u64, nat), MiracleRow>, price: Option<nat>)

  /** What has happened: the latest window opened, the targets the closed ones ran with, the heads ever signed, the
      wishes ever executed, and those the world was given and has not answered for. */
  datatype History = History(horizon: u64, targets: map<u64, u64>, signed: set<Sth>, executions: seq<Id32>, pending: seq<Id32>)

  function LogIn(db: Database, e: u64): seq<Spark> {
    LogOf(db.rows, db.logs, e)
  }

  /** What every run keeps. */
  ghost predicate Kept(db: Database, past: History) {
    && LogsKept(db.rows, db.logs, db.windows, past.targets, past.horizon)
    && HeadsKept(past.signed, db.sths, db.rows, db.logs)
    && SparksKnown(db.rows, db.logs, db.entries)
    && WorkKept(db.entries, past.targets, db.logs, past.horizon + 1)
    && FewOpen(db.entries) && ExecutionsKept(db.entries, past.executions) && PendingKept(db.entries, past.pending)
  }

  const EMPTY: Database := Database(map[], map[], map[], map[], map[], map[], None)
  const NOTHING: History := History(0, map[], {}, [], [])

  lemma KeptAtFirst()
    ensures Kept(EMPTY, NOTHING)
  {
    var n: nat := NOTHING.horizon + 1;
    forall id: Id32
      ensures Earned(id, NOTHING.targets, EMPTY.logs, n) == 0
    {
      EarnedBeyond(id, NOTHING.targets, EMPTY.logs, 0, n);
      assert Earned(id, NOTHING.targets, EMPTY.logs, 0) == 0;
    }
    assert forall author: Id32 :: OpenOf(EMPTY.entries, author) == {};
  }

  /** No window has the epoch an idle process remembers. */
  lemma NothingAtZero(db: Database, past: History)
    requires Kept(db, past)
    ensures LogIn(db, 0) == [] && LeavesOf(0, LogIn(db, 0)) == [] && IdsOf(0, LogIn(db, 0)) == {}
    ensures Kept(db, past.(pending := []))
  {
    hide HeadsKept, SparksKnown, WorkKept, FewOpen, ExecutionsKept, Recorded, NoDuplicates;
  }

  /** A head signed and recorded. */
  function Signed(db: Database, h: Sth, final: bool): (db': Database)
    ensures db' == db.(sths := db'.sths)
  {
    db.(sths := db.sths[(h.epoch, h.treeSize) := Head(h, final)])
  }

  lemma KeptSigned(db: Database, past: History, h: Sth, final: bool)
    requires Kept(db, past) && HeadOf(h, LogIn(db, h.epoch))
    ensures Kept(Signed(db, h, final), past.(signed := past.signed + {h}))
  {
    hide LogsKept, HeadsKept, SparksKnown, WorkKept, FewOpen, ExecutionsKept, PendingKept, HeadOf, LogOf;
    HeadSigned(past.signed, db.sths, db.rows, db.logs, h, final);
  }

  // ---- Final heads ----

  predicate FinalAt(sths: map<(u64, nat), Head>, k: (u64, nat)) {
    k in sths && sths[k].final
  }

  /** Only windows that have closed have a final head. */
  ghost predicate FinalsKept(sths: map<(u64, nat), Head>, logs: Logs) {
    forall k :: FinalAt(sths, k) ==> k.0 in logs
  }

  /** Whatever is marked final stays as it is. */
  ghost predicate FinalsSurvive(sths: map<(u64, nat), Head>, sths': map<(u64, nat), Head>) {
    forall k :: FinalAt(sths, k) ==> k in sths' && sths'[k] == sths[k]
  }

  /** A head that is not final leaves the final ones alone exactly when none of them is in its place. */
  lemma SignedFinals(db: Database, h: Sth)
    ensures FinalsKept(db.sths, db.logs) ==> FinalsKept(Signed(db, h, false).sths, db.logs)
    ensures FinalsSurvive(db.sths, Signed(db, h, false).sths) <==> !FinalAt(db.sths, (h.epoch, h.treeSize))
  {
  }

  /** When a window closes its final head is the only one left of its epoch, and stays the only one until another
      is signed in its place. */
  lemma ClosedFinals(db: Database, h: Sth, target: u64)
    requires FinalsKept(db.sths, db.logs) && h.epoch !in db.logs && h.epoch in db.windows && target > 0
    ensures FinalsKept(Closed(Signed(db, h, true), h.epoch, target).sths, Closed(Signed(db, h, true), h.epoch, target).logs)
    ensures FinalsSurvive(db.sths, Closed(Signed(db, h, true), h.epoch, target).sths)
    ensures forall k: (u64, nat) :: k.0 == h.epoch ==>
      (k in Closed(Signed(db, h, true), h.epoch, target).sths <==> k == (h.epoch, h.treeSize))
    ensures Closed(Signed(db, h, true), h.epoch, target).sths[(h.epoch, h.treeSize)] == Head(h, true)
  {
    hide Lapsed, Credited, Weight, LogOf;
    forall k | FinalAt(db.sths, k)
      ensures k.0 != h.epoch
    {
    }
  }

  /** What is known of a window that opens and has not closed. */
  lemma WindowsAtOpening(db: Database, past: History, e: u64)
    requires Kept(db, past) && 1 <= e && past.horizon <= e && e !in db.logs
    ensures forall d :: d in db.windows ==> db.windows[d].target > 0
    ensures e in db.windows ==> db.windows[e].accepted == None && 0 < db.windows[e].target <= I64_MAX
  {
    hide HeadsKept, SparksKnown, WorkKept, FewOpen, ExecutionsKept, PendingKept, LogOf, Recorded;
  }

  /** A window that runs, with its row. */
  function Opened(db: Database, e: u64, challenge: Id32, target: u64): Database {
    db.(windows := db.windows[e := Window(challenge, Recorded(target), None)])
  }

  lemma KeptOpened(db: Database, past: History, e: u64, challenge: Id32, target: u64)
    requires Kept(db, past) && 1 <= e && past.horizon <= e && e !in db.logs && target > 0
    ensures Kept(Opened(db, e, challenge, target), past.(horizon := e))
  {
    hide LogsKept, HeadsKept, SparksKnown, WorkKept, FewOpen, ExecutionsKept, PendingKept, LogOf, Recorded;
    LogsOpened(db.rows, db.logs, db.windows, past.targets, past.horizon, e, Window(challenge, Recorded(target), None));
    WorkKeptBeyond(db.entries, past.targets, db.logs, past.horizon + 1, e + 1);
  }

  lemma LogsOpened(rows: Logs, logs: Logs, windows: Windows, targets: map<u64, u64>, horizon: u64, e: u64, w: Window)
    requires LogsKept(rows, logs, windows, targets, horizon) && 1 <= e && horizon <= e && e !in logs
    requires 0 < w.target <= I64_MAX && w.accepted == None
    ensures LogsKept(rows, logs, windows[e := w], targets, e) && forall d :: d in logs ==> d < horizon + 1
  {
    hide LogOf, Recorded, NoDuplicates;
  }

  function Appended(db: Database, epoch: u64, s: Spark): Database {
    db.(rows := db.rows[epoch := LogIn(db, epoch) + [s]])
  }

  lemma KeptAppended(db: Database, past: History, epoch: u64, s: Spark)
    requires Kept(db, past) && 1 <= epoch <= past.horizon && epoch !in db.logs
    requires s.proposalId in db.entries && s !in LogIn(db, epoch)
    ensures Kept(Appended(db, epoch, s), past) && Grown(db.rows, db.logs, Appended(db, epoch, s).rows, db.logs)
  {
    hide LogsKept, HeadsKept, SparksKnown, WorkKept, FewOpen, ExecutionsKept, PendingKept, Grown;
    LogsAppended(db.rows, db.logs, db.windows, past.targets, past.horizon, epoch, s);
    HeadsGrow(past.signed, db.sths, db.rows, db.logs, Appended(db, epoch, s).rows, db.logs);
    KnownAppended(db.rows, db.logs, db.entries, epoch, s);
  }

  lemma KnownAppended(rows: Logs, logs: Logs, entries: Entries, epoch: u64, s: Spark)
    requires SparksKnown(rows, logs, entries) && s.proposalId in entries && epoch !in logs
    ensures SparksKnown(rows[epoch := LogOf(rows, logs, epoch) + [s]], logs, entries)
  {
    var rows' := rows[epoch := LogOf(rows, logs, epoch) + [s]];
    forall e: u64, k | 0 <= k < |LogOf(rows', logs, e)|
      ensures LogOf(rows', logs, e)[k].proposalId in entries
    {
      assert k < |LogOf(rows, logs, e)| ==> LogOf(rows, logs, e)[k].proposalId in entries;
    }
  }

  /** The tables once a window closed: its log packed, its size noted, and of its heads only the final one left. */
  function Packed(db: Database, epoch: u64, log: seq<Spark>): Database
    requires epoch in db.windows
  {
    db.(
      windows := db.windows[epoch := db.windows[epoch].(accepted := Some(|log|))],
      sths := (map k | k in db.sths && (k.0 != epoch || db.sths[k].final) :: db.sths[k]),
      logs := db.logs[epoch := log],
      rows := db.rows - {epoch})
  }

  /** And with the work of its sparks added, and open wishes past their lifetime expired. */
  function Closed(db: Database, epoch: u64, target: u64): Database
    requires epoch in db.windows && target > 0
  {
    var log := LogIn(db, epoch);
    Packed(db, epoch, log).(entries := Lapsed(Credited(db.entries, log, Weight(target)), epoch))
  }

  lemma KeptClosed(db: Database, past: History, epoch: u64, target: u64)
    requires Kept(db, past) && 1 <= epoch <= past.horizon && epoch !in db.logs
    requires target > 0 && epoch in db.windows && db.windows[epoch].target == Recorded(target)
    ensures Kept(Closed(db, epoch, target), past.(targets := past.targets[epoch := target]))
    ensures forall e: u64 :: LogIn(Closed(db, epoch, target), e) == LogIn(db, e)
    ensures Advanced(db.entries, Closed(db, epoch, target).entries)
  {
    hide LogsKept, HeadsKept, SparksKnown, WorkKept, FewOpen, ExecutionsKept, PendingKept, Weight, Advanced, Credited, Lapsed,
      LogOf, Recorded;
    var db', log, n := Closed(db, epoch, target), LogIn(db, epoch), past.horizon + 1;
    var targets', credited := past.targets[epoch := target], Credited(db.entries, log, Weight(target));
    LogsClosed(db.rows, db.logs, db.windows, past.targets, past.horizon, epoch, target);
    SameHeads(past.signed, db.sths, db'.sths, db.rows, db.logs, db'.rows, db'.logs);
    WorkCredited(db.rows, db.logs, db.entries, past.targets, epoch, target, n);
    CreditAdvances(db.entries, log, Weight(target), epoch);
    SameSparks(db.rows, db.logs, db.entries, db'.rows, db'.logs, db'.entries);
    SameWork(credited, db'.entries, targets', db'.logs, n);
    FewerOpen(db.entries, db'.entries);
    SameStanding(db.entries, db'.entries, past.executions, past.pending);
  }

  lemma SameHeads(signed: set<Sth>, sths: map<(u64, nat), Head>, sths': map<(u64, nat), Head>, rows: Logs, logs: Logs,
      rows': Logs, logs': Logs)
    requires HeadsKept(signed, sths, rows, logs) && forall e: u64 :: LogOf(rows', logs', e) == LogOf(rows, logs, e)
    requires forall k :: k in sths' ==> k in sths && sths'[k] == sths[k]
    ensures HeadsKept(signed, sths', rows', logs')
  {
    hide HeadOf, LogOf;
  }

  lemma SameSparks(rows: Logs, logs: Logs, entries: Entries, rows': Logs, logs': Logs, entries': Entries)
    requires SparksKnown(rows, logs, entries) && forall e: u64 :: LogOf(rows', logs', e) == LogOf(rows, logs, e)
    requires entries.Keys <= entries'.Keys
    ensures SparksKnown(rows', logs', entries')
  {
    hide LogOf;
  }

  lemma SameWork(entries: Entries, entries': Entries, targets: map<u64, u64>, logs: Logs, n: nat)
    requires WorkKept(entries, targets, logs, n) && entries'.Keys == entries.Keys
    requires forall id :: id in entries ==> entries'[id].work == entries[id].work
    ensures WorkKept(entries', targets, logs, n)
  {
    hide Earned;
  }

  /** Executed and selected wishes keep their standing. */
  lemma SameStanding(entries: Entries, entries': Entries, executions: seq<Id32>, pending: seq<Id32>)
    requires ExecutionsKept(entries, executions) && PendingKept(entries, pending) && entries'.Keys == entries.Keys
    requires forall id :: id in entries ==> SameRank(entries[id], entries'[id])
    ensures ExecutionsKept(entries', executions) && PendingKept(entries', pending)
  {
  }

  lemma CreditAdvances(entries: Entries, log: seq<Spark>, each: nat, epoch: u64)
    ensures var entries' := Lapsed(Credited(entries, log, each), epoch);
      && Credited(entries, log, each).Keys == entries'.Keys == entries.Keys && Advanced(entries, entries')
      && (forall id :: id in entries ==> entries'[id].work == Credited(entries, log, each)[id].work)
      && (forall id :: id in entries ==> SameRank(entries[id], entries'[id]))
  {
    hide CountFor, Lapsed, Credited;
    var credited := Credited(entries, log, each);
    CreditEach(entries, log, each);
    LapseEach(credited, epoch);
  }

  /** Neither executed nor selected by this, nor the other way round. */
  predicate SameRank(e: Entry, e': Entry) {
    (e'.status == Executed <==> e.status == Executed) && (e.status == Selected ==> e'.status == Selected)
  }

  lemma CreditEach(entries: Entries, log: seq<Spark>, each: nat)
    ensures var credited := Credited(entries, log, each);
      && credited.Keys == entries.Keys
      && (forall id :: id in entries ==> Follows(entries[id], credited[id]))
      && (forall id :: id in entries ==> credited[id].status == entries[id].status)
  {
    hide CountFor;
    forall id | id in entries
      ensures each * CountFor(id, log) >= 0
    {
    }
  }

  lemma LapseEach(entries: Entries, epoch: u64)
    ensures var lapsed := Lapsed(entries, epoch);
      && lapsed.Keys == entries.Keys
      && (forall id :: id in entries ==> Follows(entries[id], lapsed[id]) && SameRank(entries[id], lapsed[id]))
      && (forall id :: id in entries ==> lapsed[id].work == entries[id].work)
  {
  }

  /** A change of statuses alone. */
  lemma KeptWith(db: Database, past: History, entries': Entries, executions': seq<Id32>, pending': seq<Id32>)
    requires Kept(db, past) && entries'.Keys == db.entries.Keys && Advanced(db.entries, entries')
    requires forall id :: id in db.entries ==> entries'[id].work == db.entries[id].work
    requires ExecutionsKept(entries', executions') && PendingKept(entries', pending')
    ensures Kept(db.(entries := entries'), past.(executions := executions', pending := pending'))
  {
    hide LogsKept, HeadsKept, SparksKnown, WorkKept, FewOpen, ExecutionsKept, PendingKept, Advanced, LogOf;
    SameSparks(db.rows, db.logs, db.entries, db.rows, db.logs, entries');
    SameWork(db.entries, entries', past.targets, db.logs, past.horizon + 1);
    FewerOpen(db.entries, entries');
  }

  /** A new wish: no spark can have been logged for it. */
  lemma KeptAdded(db: Database, past: History, id: Id32, w: Wish)
    requires Kept(db, past) && id !in db.entries && |OpenOf(db.entries, w.author)| < OPEN_PER_AUTHOR
    ensures Kept(db.(entries := db.entries[id := Entry(w, Open, 0, None)]), past)
  {
    hide LogsKept, HeadsKept, SparksKnown, FewOpen, LogOf, Earned, OpenOf;
    var entries' := db.entries[id := Entry(w, Open, 0, None)];
    SameSparks(db.rows, db.logs, db.entries, db.rows, db.logs, entries');
    OneMoreOpen(db.entries, id, w);
  }

  // ---- Selecting and recording ----

  lemma KeptSelected(db: Database, past: History, ready: seq<Id32>, selected: seq<Id32>)
    requires Kept(db, past)
    requires forall k :: 0 <= k < |ready| ==> ready[k] in db.entries && Waiting(db.entries[ready[k]])
    requires forall k :: 0 <= k < |selected| ==> selected[k] in ready
    requires forall j, k :: 0 <= j < k < |selected| ==> selected[j] != selected[k]
    ensures var entries' := Marked(Marked(db.entries, ready, Ready), selected, Selected);
      Kept(db.(entries := entries'), past.(pending := selected)) && Advanced(db.entries, entries')
  {
    hide LogsKept, HeadsKept, SparksKnown, WorkKept, FewOpen, LogOf, Marked;
    var entries' := Marked(Marked(db.entries, ready, Ready), selected, Selected);
    MarkedEach(db.entries, ready, selected);
    KeptWith(db, past, entries', past.executions, selected);
  }

  lemma MarkedEach(entries: Entries, ready: seq<Id32>, selected: seq<Id32>)
    requires forall k :: 0 <= k < |ready| ==> ready[k] in entries && Waiting(entries[ready[k]])
    requires forall k :: 0 <= k < |selected| ==> selected[k] in ready
    ensures var entries' := Marked(Marked(entries, ready, Ready), selected, Selected);
      && entries'.Keys == entries.Keys && Advanced(entries, entries')
      && (forall id :: id in entries ==> entries'[id].work == entries[id].work)
      && (forall id :: id in entries ==> (entries'[id].status == Executed <==> entries[id].status == Executed))
      && (forall k :: 0 <= k < |selected| ==> selected[k] in entries && entries'[selected[k]].status == Selected)
  {
    assert forall id :: id in ready ==> id in entries && Waiting(entries[id]);
    assert forall id :: id in selected ==> id in ready;
  }

  predicate Waiting(e: Entry) {
    e.status == Open || e.status == Ready
  }

  /** The answer for the first pending wish. */
  lemma KeptAnswered(db: Database, past: History, epoch: u64, id: Id32, o: Outcome)
    requires Kept(db, past) && past.pending != [] && past.pending[0] == id
    ensures id in db.entries && db.entries[id].status == Selected
    ensures var entries' := db.entries[id := Answered(db.entries[id], epoch, o)];
      var done := past.executions + if o == Applied then [id] else [];
      Kept(db.(entries := entries'), past.(executions := done, pending := past.pending[1..])) && Advanced(db.entries, entries')
  {
    hide LogsKept, HeadsKept, SparksKnown, WorkKept, FewOpen, LogOf;
    assert db.entries[id].status == Selected;
    var entries' := db.entries[id := Answered(db.entries[id], epoch, o)];
    var done := past.executions + if o == Applied then [id] else [];
    assert id !in past.executions;
    assert ExecutionsKept(entries', done) by {
      assert forall other :: other in done <==> other in past.executions || (o == Applied && other == id);
    }
    KeptWith(db, past, entries', done, past.pending[1..]);
  }

  /** The answers for the wishes the world was given, in order. */
  function Answers(entries: Entries, epoch: u64, ids: seq<Id32>, outcomes: seq<Outcome>): (entries': Entries)
    requires |ids| == |outcomes|
    ensures entries'.Keys == entries.Keys
  {
    if ids == [] then entries
    else
      var n := |ids| - 1;
      var before := Answers(entries, epoch, ids[..n], outcomes[..n]);
      if ids[n] in before then before[ids[n] := Answered(before[ids[n]], epoch, outcomes[n])] else before
  }

  function MiraclesWith(miracles: map<(u64, nat), MiracleRow>, epoch: u64, ids: seq<Id32>, outcomes: seq<Outcome>):
    map<(u64, nat), MiracleRow>
    requires |ids| == |outcomes|
  {
    if ids == [] then miracles
    else
      var n := |ids| - 1;
      MiraclesWith(miracles, epoch, ids[..n], outcomes[..n])[(epoch, n) := MiracleRow(ids[n], outcomes[n])]
  }

  /** What the outcome `o` in epoch `epoch` leaves of a wish `was`: one applied is executed, in that epoch, for good; one
      deferred waits again; one refused never does. Nothing else of it changes. */
  predicate FitsOutcome(was: Entry, now: Entry, epoch: u64, o: Outcome) {
    && (now.status == Executed <==> o.Applied?)
    && (Waiting(now) <==> o.Deferred?)
    && (now.status == Invalidated <==> o.Refused?)
    && now.status != Open
    && now.executedEpoch == (if now.status == Executed then Some(epoch) else None)
    && now.wish == was.wish && now.work == was.work
  }

  /** A wish the world was given gets its own answer. */
  lemma {:induction false} AnswerTo(entries: Entries, epoch: u64, ids: seq<Id32>, outcomes: seq<Outcome>, k: nat)
    requires k < |ids| == |outcomes| && ids[k] in entries
    requires forall i, j :: 0 <= i < j < |ids| ==> ids[i] != ids[j]
    ensures Answers(entries, epoch, ids, outcomes)[ids[k]] == Answered(entries[ids[k]], epoch, outcomes[k])
    ensures FitsOutcome(entries[ids[k]], Answers(entries, epoch, ids, outcomes)[ids[k]], epoch, outcomes[k])
  {
    AnswerFits(entries[ids[k]], epoch, outcomes[k]);
    hide Answered, FitsOutcome;
    var n := |ids| - 1;
    if k < n {
      AnswerTo(entries, epoch, ids[..n], outcomes[..n], k);
    } else {
      NoAnswerTo(entries, epoch, ids[..n], outcomes[..n], ids[n]);
    }
  }

  lemma AnswerFits(e: Entry, epoch: u64, o: Outcome)
    ensures FitsOutcome(e, Answered(e, epoch, o), epoch, o)
  {
  }

  /** No other wish changes. */
  lemma {:induction false} NoAnswerTo(entries: Entries, epoch: u64, ids: seq<Id32>, outcomes: seq<Outcome>, id: Id32)
    requires |ids| == |outcomes| && id in entries && forall k :: 0 <= k < |ids| ==> ids[k] != id
    ensures Answers(entries, epoch, ids, outcomes)[id] == entries[id]
  {
    hide Answered;
    if ids != [] {
      NoAnswerTo(entries, epoch, ids[..|ids| - 1], outcomes[..|ids| - 1], id);
    }
  }

  lemma AnswersAdvance(entries: Entries, epoch: u64, ids: seq<Id32>, outcomes: seq<Outcome>)
    requires PendingKept(entries, ids) && |ids| == |outcomes|
    ensures Advanced(entries, Answers(entries, epoch, ids, outcomes))
  {
    hide Answers;
    forall id | id in entries
      ensures Follows(entries[id], Answers(entries, epoch, ids, outcomes)[id])
    {
      if id in ids {
        var k :| 0 <= k < |ids| && ids[k] == id;
        AnswerTo(entries, epoch, ids, outcomes, k);
      } else {
        NoAnswerTo(entries, epoch, ids, outcomes, id);
      }
    }
  }

  /** The tables once an epoch's outcomes are recorded: every wish given fits its own outcome and is logged with it under
      its place, and no other wish and no other row of the log of miracles has changed. */
  ghost predicate AnsweredEach(was: Database, now: Database, epoch: u64, ids: seq<Id32>, outcomes: seq<Outcome>)
    requires |ids| == |outcomes|
  {
    && now.entries.Keys == was.entries.Keys
    && (forall k :: 0 <= k < |ids| ==>
      ids[k] in was.entries && FitsOutcome(was.entries[ids[k]], now.entries[ids[k]], epoch, outcomes[k]))
    && (forall id :: id in was.entries && id !in ids ==> now.entries[id] == was.entries[id])
    && (forall k: nat :: k < |ids| ==>
      (epoch, k) in now.miracles && now.miracles[(epoch, k)] == MiracleRow(ids[k], outcomes[k]))
    && (forall key: (u64, nat) :: key.0 != epoch || key.1 >= |ids| ==>
      (key in now.miracles <==> key in was.miracles) && (key in now.miracles ==> now.miracles[key] == was.miracles[key]))
    && now == was.(entries := now.entries, miracles := now.miracles)
  }

  lemma AnswersRecorded(was: Database, epoch: u64, ids: seq<Id32>, outcomes: seq<Outcome>)
    requires PendingKept(was.entries, ids) && |ids| == |outcomes|
    ensures AnsweredEach(was, was.(entries := Answers(was.entries, epoch, ids, outcomes),
      miracles := MiraclesWith(was.miracles, epoch, ids, outcomes)), epoch, ids, outcomes)
  {
    hide Answers, MiraclesWith, FitsOutcome, PendingKept;
    var entries, miracles := Answers(was.entries, epoch, ids, outcomes), MiraclesWith(was.miracles, epoch, ids, outcomes);
    AnswersFit(was.entries, epoch, ids, outcomes, entries);
    AllLogged(was.miracles, epoch, ids, outcomes, miracles);
    var now := was.(entries := entries, miracles := miracles);
    assert now.entries == entries && now.miracles == miracles;
  }

  /** Every wish given fits its own outcome, and no other wish changes. */
  lemma AnswersFit(entries: Entries, epoch: u64, ids: seq<Id32>, outcomes: seq<Outcome>, after: Entries)
    requires PendingKept(entries, ids) && |ids| == |outcomes| && after == Answers(entries, epoch, ids, outcomes)
    ensures forall k :: 0 <= k < |ids| ==> ids[k] in entries && FitsOutcome(entries[ids[k]], after[ids[k]], epoch, outcomes[k])
    ensures forall id :: id in entries && id !in ids ==> after[id] == entries[id]
  {
    hide Answers, FitsOutcome;
    forall k | 0 <= k < |ids|
      ensures ids[k] in entries && FitsOutcome(entries[ids[k]], after[ids[k]], epoch, outcomes[k])
    {
      AnswerTo(entries, epoch, ids, outcomes, k);
    }
    forall id | id in entries && id !in ids
      ensures after[id] == entries[id]
    {
      NoAnswerTo(entries, epoch, ids, outcomes, id);
    }
  }

  /** Every miracle given is logged under its place, and no other row of the log changes. */
  lemma {:induction false} AllLogged(miracles: map<(u64, nat), MiracleRow>, epoch: u64, ids: seq<Id32>, outcomes: seq<Outcome>,
      after: map<(u64, nat), MiracleRow>)
    requires |ids| == |outcomes| && after == MiraclesWith(miracles, epoch, ids, outcomes)
    ensures forall k: nat :: k < |ids| ==> (epoch, k) in after && after[(epoch, k)] == MiracleRow(ids[k], outcomes[k])
    ensures forall key: (u64, nat) :: (key.0 != epoch || key.1 >= |ids|) ==>
      (key in after <==> key in miracles) && (key in after ==> after[key] == miracles[key])
  {
    if ids != [] {
      var n := |ids| - 1;
      AllLogged(miracles, epoch, ids[..n], outcomes[..n], MiraclesWith(miracles, epoch, ids[..n], outcomes[..n]));
    }
  }

  /** The executed ones are those given whose outcome was that they applied. */
  lemma {:induction false} AppliedExactly(ids: seq<Id32>, outcomes: seq<Outcome>, id: Id32)
    requires |ids| == |outcomes|
    ensures id in AppliedOf(ids, outcomes) <==> exists k :: 0 <= k < |ids| && ids[k] == id && outcomes[k].Applied?
  {
    if ids != [] {
      var n := |ids| - 1;
      AppliedExactly(ids[..n], outcomes[..n], id);
      if exists k :: 0 <= k < |ids| && ids[k] == id && outcomes[k].Applied? {
        var k :| 0 <= k < |ids| && ids[k] == id && outcomes[k].Applied?;
        assert k < n ==> ids[..n][k] == id && outcomes[..n][k].Applied?;
      }
    }
  }

  lemma AnswersNone(db: Database, epoch: u64, ids: seq<Id32>, outcomes: seq<Outcome>)
    requires |ids| == |outcomes|
    ensures Answers(db.entries, epoch, ids[..0], outcomes[..0]) == db.entries
    ensures MiraclesWith(db.miracles, epoch, ids[..0], outcomes[..0]) == db.miracles
    ensures AppliedOf(ids[..0], outcomes[..0]) == []
  {
  }

  lemma AnswersNext(db: Database, epoch: u64, ids: seq<Id32>, outcomes: seq<Outcome>, k: nat)
    requires k < |ids| == |outcomes|
    ensures var before := Answers(db.entries, epoch, ids[..k], outcomes[..k]);
      Answers(db.entries, epoch, ids[..k + 1], outcomes[..k + 1]) ==
        if ids[k] in before then before[ids[k] := Answered(before[ids[k]], epoch, outcomes[k])] else before
    ensures MiraclesWith(db.miracles, epoch, ids[..k + 1], outcomes[..k + 1]) ==
      MiraclesWith(db.miracles, epoch, ids[..k], outcomes[..k])[(epoch, k) := MiracleRow(ids[k], outcomes[k])]
    ensures AppliedOf(ids[..k + 1], outcomes[..k + 1]) ==
      AppliedOf(ids[..k], outcomes[..k]) + if outcomes[k] == Applied then [ids[k]] else []
  {
    hide Answered;
    assert ids[..k + 1][..k] == ids[..k] && outcomes[..k + 1][..k] == outcomes[..k];
  }

  /** The soft check ends those of the open and queued wishes that can never apply, and touches no other. */
  lemma CheckedExactly(entries: Entries, prospect: Wish -> Prospect, id: Id32)
    requires id in entries
    ensures var was, now := entries[id], Checked(entries, prospect)[id];
      && (was.status in {Open, Ready} && prospect(was.wish).Lasting? ==> now.status == Invalidated)
      && (was.status !in {Open, Ready} || !prospect(was.wish).Lasting? ==> now == was)
      && now.wish == was.wish && now.work == was.work && now.executedEpoch == was.executedEpoch
    ensures Checked(entries, prospect).Keys == entries.Keys
  {
  }

  /** After a selection the ready wishes queue and the selected ones are with the world; all the others are as they were. */
  lemma SelectionMarks(entries: Entries, ready: seq<Id32>, selected: seq<Id32>, id: Id32)
    requires id in entries && forall k :: 0 <= k < |selected| ==> selected[k] in ready
    ensures var was, now := entries[id], Marked(Marked(entries, ready, Ready), selected, Selected)[id];
      && (id in selected ==> now.status == Selected) && (id in ready && id !in selected ==> now.status == Ready)
      && (id !in ready ==> now == was)
      && now.wish == was.wish && now.work == was.work && now.executedEpoch == was.executedEpoch
    ensures Marked(Marked(entries, ready, Ready), selected, Selected).Keys == entries.Keys
  {
  }

  lemma KeptLogged(db: Database, past: History, miracles: map<(u64, nat), MiracleRow>)
    requires Kept(db, past)
    ensures Kept(db.(miracles := miracles), past)
  {
  }

  lemma KeptPriced(db: Database, past: History, price: Option<nat>)
    requires Kept(db, past)
    ensures Kept(db.(price := price), past)
  {
  }

  /** Whether a wish can still apply: as things are, not now, or never again. */
  datatype Prospect = Possible | Passing | Lasting

  function LostOf(entries: Entries, prospect: Wish -> Prospect): (lost: set<Id32>)
    ensures lost <= entries.Keys
  {
    set id | id in entries && Waiting(entries[id]) && prospect(entries[id].wish) == Lasting
  }

  /** The soft check: waiting wishes that can never apply are invalidated. */
  function Checked(entries: Entries, prospect: Wish -> Prospect): Entries {
    map id | id in entries :: if id in LostOf(entries, prospect) then entries[id].(status := Invalidated) else entries[id]
  }

  lemma KeptChecked(db: Database, past: History, prospect: Wish -> Prospect)
    requires Kept(db, past)
    ensures Kept(db.(entries := Checked(db.entries, prospect)), past) && Advanced(db.entries, Checked(db.entries, prospect))
  {
    hide LogsKept, HeadsKept, SparksKnown, WorkKept, FewOpen, LogOf, ExecutionsKept, PendingKept;
    SameStanding(db.entries, Checked(db.entries, prospect), past.executions, past.pending);
    KeptWith(db, past, Checked(db.entries, prospect), past.executions, past.pending);
  }

  // ---- Appending ----

  /** A log replaced by a longer one. */
  function WithLog(db: Database, epoch: u64, log: seq<Spark>): (db': Database)
    ensures db' == db.(rows := db'.rows) && (log == LogIn(db, epoch) ==> db' == db)
    ensures epoch !in db.logs ==> LogIn(db', epoch) == log
    ensures forall e: u64 :: e != epoch ==> LogIn(db', e) == LogIn(db, e)
  {
    if log == LogIn(db, epoch) then db else db.(rows := db.rows[epoch := log])
  }

  lemma LogAppended(db: Database, epoch: u64, s: Spark)
    requires epoch !in db.logs
    ensures LogIn(Appended(db, epoch, s), epoch) == LogIn(db, epoch) + [s]
  {
  }

  lemma AppendedWithLog(db: Database, epoch: u64, log: seq<Spark>, s: Spark)
    requires epoch !in db.logs && LogIn(db, epoch) <= log
    ensures Appended(WithLog(db, epoch, log), epoch, s) == WithLog(db, epoch, log + [s])
  {
    assert |log + [s]| > |LogIn(db, epoch)|;
    assert db.rows[epoch := log][epoch := log + [s]] == db.rows[epoch := log + [s]];
  }

  lemma TakenNone(log: seq<Spark>, sparks: seq<Spark>)
    ensures Taken(log, sparks[..0]) == log
  {
  }

  /** One more spark taken. */
  lemma TakenNext(log: seq<Spark>, sparks: seq<Spark>, k: nat)
    requires k < |sparks|
    ensures var before := Taken(log, sparks[..k]);
      Taken(log, sparks[..k + 1]) == if sparks[k] in before then before else before + [sparks[k]]
  {
    assert sparks[..k + 1][..k] == sparks[..k];
  }

  lemma {:induction false} TakenGrows(log: seq<Spark>, sparks: seq<Spark>, j: nat, k: nat)
    requires j <= k <= |sparks|
    ensures Taken(log, sparks[..j]) <= Taken(log, sparks[..k])
  {
    hide Taken;
    if j < k {
      TakenGrows(log, sparks, j, k - 1);
      TakenNext(log, sparks, k - 1);
    }
  }

  lemma TakenExtends(log: seq<Spark>, sparks: seq<Spark>, k: nat)
    requires k <= |sparks|
    ensures log <= Taken(log, sparks[..k])
  {
    hide Taken;
    TakenNone(log, sparks);
    TakenGrows(log, sparks, 0, k);
  }
}
