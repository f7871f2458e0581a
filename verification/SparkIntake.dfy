/** The spark intake, server/src/intake.rs: the open window, the spark log with its heads and receipts, the work of
    the wishes and their statuses. The tables of the database are fields; IntakeTables says what is kept of them. */
module SparkIntake {
  import opened Bytes
  import opened Hashing
  import opened IntakeTables
  import opened MerkleTree
  import opened Options
  import opened SparkLog
  import opened Sparks
  import opened Wishes
  import Ledger
  import WishReader
  import Sorting

  datatype Ticket = Ticket(epoch: u64, challenge: Id32, target: u64, worldId: Id16)

  datatype Refusal = Format | WindowClosed | UnknownProposal | ProposalClosed | Duplicate | Signature | ActionInvalid | Limit

  datatype Placed = Receipted(receipt: Receipt) | NotPlaced(refusal: Refusal)

  datatype Admitted = Admitted(wish: Wish, id: Id32) | NotAdmitted(refusal: Refusal)

  const CHALLENGE_TAG: seq<u8> := // "PROTOGAEA/CHALLENGE/V0"
    [80, 82, 79, 84, 79, 71, 65, 69, 65, 47, 67, 72, 65, 76, 76, 69, 78, 71, 69, 47, 86, 48]
  const PROPOSAL_TAG: seq<u8> := // "PROTOGAEA/PROPOSAL/V0"
    [80, 82, 79, 84, 79, 71, 65, 69, 65, 47, 80, 82, 79, 80, 79, 83, 65, 76, 47, 86, 48]

  function NoChallenge(): Id32 {
    seq(32, _ => 0)
  }

  function ChallengeOf(digest: seq<u8> -> Id32, worldId: Id16, epoch: u64, prevRoot: Id32): Id32 {
    digest(CHALLENGE_TAG + worldId + Le(epoch, 8) + prevRoot)
  }

  // ---- Candidates ----

  /** The candidates are the open and queued wishes that have a price now, each once. */
  ghost predicate Listed(entries: Entries, shares: Wish -> Option<nat>, candidates: seq<Ledger.Candidate>) {
    && (forall k :: 0 <= k < |candidates| ==> Lists(entries, shares, candidates[k]))
    && (forall j, k :: 0 <= j < k < |candidates| ==> candidates[j].id != candidates[k].id)
    && (forall id :: id in entries && Waiting(entries[id]) && shares(entries[id].wish).Some? ==> Names(candidates, id))
  }

  ghost predicate Lists(entries: Entries, shares: Wish -> Option<nat>, c: Ledger.Candidate) {
    && c.id in entries && Waiting(entries[c.id])
    && c.action == entries[c.id].wish.action && c.work == entries[c.id].work && Some(c.share) == shares(entries[c.id].wish)
  }

  ghost predicate Names(candidates: seq<Ledger.Candidate>, id: Id32) {
    exists k :: 0 <= k < |candidates| && candidates[k].id == id
  }

  /** Candidates are the wishes that are open or queue, and no others. */
  lemma ListedExactly(entries: Entries, shares: Wish -> Option<nat>, candidates: seq<Ledger.Candidate>, id: Id32)
    requires Listed(entries, shares, candidates)
    ensures Names(candidates, id) <==> id in entries && entries[id].status in {Open, Ready} && shares(entries[id].wish).Some?
  {
    if Names(candidates, id) {
      var k :| 0 <= k < |candidates| && candidates[k].id == id;
      assert Lists(entries, shares, candidates[k]);
    }
  }

  lemma ListedOnce(candidates: seq<Ledger.Candidate>, c: Ledger.Candidate)
    requires forall j, k :: 0 <= j < k < |candidates| ==> candidates[j].id != candidates[k].id
    ensures multiset(candidates)[c] == if c in candidates then 1 else 0
    decreases candidates
  {
    if candidates != [] {
      var n := |candidates| - 1;
      ListedOnce(candidates[..n], c);
      assert candidates == candidates[..n] + [candidates[n]];
    }
  }

  /** Whatever order the table is read in, the same candidates come out. */
  lemma ListingsPermute(entries: Entries, shares: Wish -> Option<nat>, a: seq<Ledger.Candidate>, b: seq<Ledger.Candidate>)
    requires Listed(entries, shares, a) && Listed(entries, shares, b)
    ensures multiset(a) == multiset(b)
  {
    forall c: Ledger.Candidate
      ensures multiset(a)[c] == multiset(b)[c]
    {
      ListedOnce(a, c);
      ListedOnce(b, c);
      ListedIn(entries, shares, a, b, c);
      ListedIn(entries, shares, b, a, c);
    }
  }

  lemma ListedIn(entries: Entries, shares: Wish -> Option<nat>, a: seq<Ledger.Candidate>, b: seq<Ledger.Candidate>,
      c: Ledger.Candidate)
    requires Listed(entries, shares, a) && Listed(entries, shares, b)
    ensures c in a ==> c in b
  {
    if c in a {
      assert Lists(entries, shares, c) && Names(b, c.id);
      var k :| 0 <= k < |b| && b[k].id == c.id;
      assert Lists(entries, shares, b[k]);
    }
  }

  /** The ready wishes are candidates, each once. */
  lemma RankedAreListed(candidates: seq<Ledger.Candidate>, price: nat, tie: Id32 -> nat, ranked: seq<Ledger.Candidate>)
    requires forall j, k :: 0 <= j < k < |candidates| ==> candidates[j].id != candidates[k].id
    requires ranked == Sorting.Sort(Ledger.Ready(candidates, price), Ledger.Ranking(tie))
    ensures forall k :: 0 <= k < |ranked| ==> ranked[k] in candidates
    ensures forall j, k :: 0 <= j < k < |ranked| ==> ranked[j].id != ranked[k].id
  {
    hide Ledger.Ready, Sorting.Sort;
    var ready := Ledger.Ready(candidates, price);
    Sorting.SortPermutes(ready, Ledger.Ranking(tie));
    Ledger.ReadyPermutes(candidates, candidates, price);
    Sorting.SameElements(ranked, ready);
    forall j, k | 0 <= j < k < |ranked|
      ensures ranked[j] in candidates && ranked[k] in candidates && ranked[j] != ranked[k]
    {
      assert ranked[j] in ready && ranked[k] in ready;
      Ledger.ReadyCounts(candidates, price, ranked[k]);
      ListedOnce(candidates, ranked[k]);
      if ranked[j] == ranked[k] {
        Sorting.Twice(ranked, j, k);
      }
    }
    assert forall k :: 0 <= k < |ranked| ==> ranked[k] in ready;
  }

  /** So the selected ones are candidates, each once, and ready. */
  lemma SelectedAreListed(candidates: seq<Ledger.Candidate>, price: nat, priceMin: nat, tie: Id32 -> nat)
    requires forall j, k :: 0 <= j < k < |candidates| ==> candidates[j].id != candidates[k].id
    ensures var s := Ledger.Select(candidates, price, priceMin, tie);
      && (forall k :: 0 <= k < |s.ready| ==> Names(candidates, s.ready[k]))
      && (forall k :: 0 <= k < |s.selected| ==> s.selected[k] in s.ready)
      && (forall j, k :: 0 <= j < k < |s.selected| ==> s.selected[j] != s.selected[k])
  {
    hide Ledger.Ready, Sorting.Sort, Ledger.Picks, Ledger.Conflicts, Ledger.Ranking;
    var ranked := Sorting.Sort(Ledger.Ready(candidates, price), Ledger.Ranking(tie));
    RankedAreListed(candidates, price, tie, ranked);
    Ledger.PicksAreGreedy(ranked, |ranked|);
    var s, picks := Ledger.Select(candidates, price, priceMin, tie), Ledger.Picks(ranked, |ranked|);
    assert s.ready == Ledger.Ids(ranked) && s.selected == Ledger.IdsAt(ranked, picks);
    forall k | 0 <= k < |s.ready|
      ensures Names(candidates, s.ready[k])
    {
      assert ranked[k] in candidates;
      var j :| 0 <= j < |candidates| && candidates[j] == ranked[k];
      assert candidates[j].id == s.ready[k];
    }
    forall k | 0 <= k < |s.selected|
      ensures s.selected[k] in s.ready && s.selected[k] == s.ready[picks[k]]
    {
      assert s.ready[picks[k]] == s.selected[k];
    }
    forall j, k | 0 <= j < k < |s.selected|
      ensures s.selected[j] != s.selected[k]
    {
      assert 0 <= picks[j] < picks[k] < |ranked|;
      assert ranked[picks[j]].id != ranked[picks[k]].id;
      assert s.selected[j] == ranked[picks[j]].id && s.selected[k] == ranked[picks[k]].id;
    }
  }

  // ---- The intake ----

  /** A window that runs is the latest, it has not closed before, and its row records its target. */
  ghost predicate Runs(db: Database, past: History, epoch: u64, target: u64) {
    1 <= epoch == past.horizon && epoch in db.windows && epoch !in db.logs && db.windows[epoch].target == Recorded(target) && target > 0
  }

  lemma RunningIsOpen(db: Database, past: History, epoch: u64, target: u64)
    requires Runs(db, past, epoch, target)
    ensures epoch !in db.logs && epoch in db.windows && target > 0
  {
  }

  lemma StillRuns(db: Database, past: History, db': Database, past': History, epoch: u64, target: u64)
    requires db'.logs == db.logs && db'.windows == db.windows && past'.horizon == past.horizon
    ensures Runs(db, past, epoch, target) ==> Runs(db', past', epoch, target)
  {
  }

  lemma AnswersForGiven(db: Database, past: History, e: u64, selected: seq<Id32>, outcomes: seq<Outcome>)
    requires Kept(db, past) && selected == past.pending && |outcomes| == |selected|
    ensures Advanced(db.entries, Answers(db.entries, e, selected, outcomes))
  {
    hide LogsKept, HeadsKept, SparksKnown, WorkKept, FewOpen, ExecutionsKept, Advanced;
    AnswersAdvance(db.entries, e, selected, outcomes);
  }

  lemma AnsweredForGiven(db: Database, past: History, e: u64, selected: seq<Id32>, outcomes: seq<Outcome>)
    requires Kept(db, past) && selected == past.pending && |outcomes| == |selected|
    ensures AnsweredEach(db, db.(entries := Answers(db.entries, e, selected, outcomes),
      miracles := MiraclesWith(db.miracles, e, selected, outcomes)), e, selected, outcomes)
  {
    hide LogsKept, HeadsKept, SparksKnown, WorkKept, FewOpen, ExecutionsKept, Answers, MiraclesWith, AnsweredEach;
    AnswersRecorded(db, e, selected, outcomes);
  }

  lemma LifetimeChecked(w: Wish)
    requires Check(w) == None
    ensures w.expiresEpoch <= w.createdEpoch + MAX_LIFETIME
  {
  }

  lemma FewOpenNow(db: Database, past: History, author: Id32)
    requires Kept(db, past)
    ensures |OpenOf(db.entries, author)| <= OPEN_PER_AUTHOR
  {
    hide LogsKept, HeadsKept, SparksKnown, WorkKept, ExecutionsKept, PendingKept, OpenOf;
  }

  lemma NextNotClosed(db: Database, past: History, e: u64)
    requires Kept(db, past) && past.horizon == e < U64_MAX
    ensures e + 1 !in db.logs
  {
    hide HeadsKept, SparksKnown, WorkKept, FewOpen, ExecutionsKept, PendingKept, NoDuplicates, LogOf;
  }

  /** The target of a new window follows the last one before it. */
  ghost predicate LastTarget(windows: Windows, e: u64, first: u64, t: u64) {
    first > 0 && (forall d :: d in windows ==> windows[d].target > 0) && t == TargetFor(windows, e, first)
  }

  class Intake {
    const digest: seq<u8> -> Id32
    const worldId: Id16
    const rulesetId: Id32
    const firstTarget: u64
    const priceMin: nat

    var db: Database
    ghost var past: History

    var epoch: u64
    var challenge: Id32
    var target: u64
    var isOpen: bool
    var leaves: seq<Hash>
    var seen: set<Hash>
    var sth: Option<Sth>
    var previous: Option<Ticket>

    /** What every run of the intake keeps: the memory is that of the stored log, the window that is open has not
        closed before, and only windows that have closed have a final head. */
    ghost predicate Valid()
      reads this
    {
      Consistent() && FinalsKept(db.sths, db.logs)
    }

    ghost predicate Consistent()
      reads this
    {
      && firstTarget > 0 && Kept(db, past) && epoch <= past.horizon
      && leaves == LeavesOf(epoch, LogIn(db, epoch)) && seen == IdsOf(epoch, LogIn(db, epoch))
      && (isOpen ==> Runs(db, past, epoch, target))
    }

    /** A window keeps the challenge and the target of its row; without one, its challenge commits to the header before
        and its target follows the last window. */
    ghost predicate IsWindowFor(windows: Windows, e: u64, prevRoot: Id32, c: Id32, t: u64) {
      && (e in windows ==> windows[e] == Window(c, t, None))
      && (e !in windows ==> LastTarget(windows, e, firstTarget, t) && c == ChallengeOf(digest, worldId, e, prevRoot))
    }

    /** The ticket of the window before, kept for sparks that are only late. */
    function TicketBefore(e: u64, epoch: u64, challenge: Id32, target: u64, previous: Option<Ticket>): Option<Ticket> {
      if challenge != NoChallenge() && epoch + 1 == e then Some(Ticket(epoch, challenge, target, worldId)) else previous
    }

    constructor (digest: seq<u8> -> Id32, worldId: Id16, rulesetId: Id32, firstTarget: u64, priceMin: nat)
      requires firstTarget > 0
      ensures Valid() && db == EMPTY && past == NOTHING && !isOpen
    {
      this.digest, this.worldId, this.rulesetId := digest, worldId, rulesetId;
      this.firstTarget, this.priceMin := firstTarget, priceMin;
      db, past, epoch, challenge, target, isOpen := EMPTY, NOTHING, 0, NoChallenge(), firstTarget, false;
      leaves, seen, sth, previous := [], {}, None, None;
      KeptAtFirst();
    }

    /** A process that starts again finds the tables and an empty memory. */
    method Restart()
      requires Valid()
      modifies this
      ensures Valid() && !isOpen && db == old(db) && past == old(past).(pending := [])
    {
      hide Kept, LogIn, LeavesOf, IdsOf;
      NothingAtZero(db, past);
      past := past.(pending := []);
      epoch, challenge, target, isOpen := 0, NoChallenge(), firstTarget, false;
      leaves, seen, sth, previous := [], {}, None, None;
    }

    /** Signs and records a tree head of the current log. */
    method SignHead(final: bool, now: nat) returns (h: Sth)
      requires Consistent()
      modifies `db, `past, `sth
      ensures Consistent() && h == HeadNow(epoch, LogIn(db, epoch), now) && sth == Some(h)
      ensures h.epoch == epoch && h.treeSize == |LogIn(db, epoch)|
      ensures db == Signed(old(db), h, final) && past == old(past).(signed := old(past).signed + {h})
    {
      hide Kept, LogOf, LogRoot, HeadOf, LeavesOf, IdsOf, Recorded;
      h := Sth(epoch, |leaves|, LogRoot(leaves), now);
      WholeHead(epoch, LogIn(db, epoch), now);
      KeptSigned(db, past, h, final);
      db, past, sth := Signed(db, h, final), past.(signed := past.signed + {h}), Some(h);
    }

    /** The challenge and the target of a window: those of its row, or new ones whose target follows the last window. */
    method WindowFor(e: u64, prevRoot: Id32) returns (c: Id32, t: u64)
      requires Kept(db, past) && firstTarget > 0 && 1 <= e && past.horizon <= e && e !in db.logs
      ensures t > 0 && IsWindowFor(db.windows, e, prevRoot, c, t)
    {
      hide Kept, NextTarget, TargetFor, ChallengeOf;
      WindowsAtOpening(db, past, e);
      if e in db.windows {
        c, t := db.windows[e].challenge, db.windows[e].target;
      } else {
        t := TargetFor(db.windows, e, firstTarget);
        c := ChallengeOf(digest, worldId, e, prevRoot);
      }
    }

    /** Opens the window of an epoch, or picks it up again with the sparks it already has. */
    method OpenWindow(e: u64, prevRoot: Id32, now: nat)
      requires Valid() && 1 <= e && past.horizon <= e && e !in db.logs
      modifies this
      ensures Valid() && isOpen && epoch == e && sth == Some(HeadNow(e, LogIn(old(db), e), now))
      ensures db == Signed(Opened(old(db), e, challenge, target), sth.value, false)
      ensures past == old(past).(horizon := e, signed := old(past).signed + {sth.value})
      ensures IsWindowFor(old(db).windows, e, prevRoot, challenge, target)
      ensures previous == TicketBefore(e, old(epoch), old(challenge), old(target), old(previous))
    {
      hide Kept, LogOf, LogRoot, LeavesOf, IdsOf, Recorded, IsWindowFor, Signed, HeadNow, TicketBefore;
      var c, t := WindowFor(e, prevRoot);
      Remember(e, c, t);
      ghost var before := db;
      var h := SignHead(false, now);
      SignedFinals(before, h);
    }

    method Remember(e: u64, c: Id32, t: u64)
      requires Valid() && 1 <= e && past.horizon <= e && e !in db.logs && t > 0
      modifies this
      ensures Valid() && isOpen && epoch == e && challenge == c && target == t
      ensures db == Opened(old(db), e, c, t) && past == old(past).(horizon := e)
      ensures previous == TicketBefore(e, old(epoch), old(challenge), old(target), old(previous))
    {
      hide Kept, LogOf, LogRoot, LeavesOf, IdsOf, Recorded, TicketBefore;
      KeptOpened(db, past, e, c, t);
      previous := TicketBefore(e, epoch, challenge, target, previous);
      db, past := Opened(db, e, c, t), past.(horizon := e);
      epoch, challenge, target, isOpen := e, c, t, true;
      leaves, seen := LeavesOf(e, LogIn(db, e)), IdsOf(e, LogIn(db, e));
    }

    /** The checks of a spark before its proof of work. */
    method Precheck(s: Spark) returns (refusal: Option<Refusal>)
      requires Valid()
      ensures refusal == None <==> (isOpen && s.proposalId in db.entries && db.entries[s.proposalId].status == Open &&
        s !in LogIn(db, epoch))
      ensures refusal == Some(WindowClosed) <==> !isOpen
      ensures refusal == Some(UnknownProposal) <==> isOpen && s.proposalId !in db.entries
      ensures refusal == Some(ProposalClosed) <==>
        isOpen && s.proposalId in db.entries && db.entries[s.proposalId].status != Open
      ensures refusal == Some(Duplicate) ==> s in LogIn(db, epoch)
    {
      hide Kept, LogIn, LeavesOf, IdsOf, IdOf;
      SeenExactly(epoch, LogIn(db, epoch), s);
      if !isOpen {
        return Some(WindowClosed);
      }
      if s.proposalId !in db.entries {
        return Some(UnknownProposal);
      }
      if db.entries[s.proposalId].status != Open {
        return Some(ProposalClosed);
      }
      refusal := if IdOf(epoch, s) in seen then Some(Duplicate) else None;
    }

    /** Appends one spark, unless it is in the log already. */
    method Take(s: Spark) returns (index: Option<nat>)
      requires Valid() && isOpen && s.proposalId in db.entries
      modifies `db, `leaves, `seen
      ensures Valid()
      ensures s in LogIn(old(db), epoch) ==> index == None && db == old(db)
      ensures s !in LogIn(old(db), epoch) ==> index == Some(|LogIn(old(db), epoch)|) && db == Appended(old(db), epoch, s)
    {
      hide Kept, LogOf, LeavesOf, IdsOf, IdOf, LeafOf;
      SeenExactly(epoch, LogIn(db, epoch), s);
      if IdOf(epoch, s) in seen {
        return None;
      }
      index := Some(|leaves|);
      KeptAppended(db, past, epoch, s);
      LogAppended(db, epoch, s);
      db := Appended(db, epoch, s);
      leaves, seen := leaves + [LeafOf(epoch, s)], seen + {IdOf(epoch, s)};
    }

    /** Appends sparks whose proof of work passed for a ticket, all under one fresh tree head, and gives a receipt for
        each: none if the window has closed or changed since, and none for a spark the log has already. */
    method Append(ticket: Ticket, sparks: seq<Spark>, now: nat) returns (results: seq<Placed>)
      requires Valid() && forall k :: 0 <= k < |sparks| ==> sparks[k].proposalId in db.entries
      modifies `db, `past, `sth, `leaves, `seen
      ensures Valid() && |results| == |sparks|
      ensures LogIn(db, epoch) == LogAfter(Accepts(ticket), LogIn(old(db), epoch), sparks)
      ensures forall e: u64 :: e != epoch ==> LogIn(db, e) == LogIn(old(db), e)
      ensures sth == Some(HeadNow(epoch, LogIn(db, epoch), now)) && past == old(past).(signed := old(past).signed + {sth.value})
      ensures db == Signed(WithLog(old(db), epoch, LogIn(db, epoch)), sth.value, false)
      ensures FinalsSurvive(old(db).sths, db.sths) <==> !FinalAt(old(db).sths, (epoch, |LogIn(db, epoch)|))
      ensures isOpen ==> FinalsSurvive(old(db).sths, db.sths)
      ensures forall k :: 0 <= k < |sparks| ==>
        Receives(results[k], PlaceFor(Accepts(ticket), LogIn(old(db), epoch), sparks, k), sparks[k], sth.value, leaves)
    {
      hide Kept, LogOf, LeavesOf, IdsOf, Taken, Signed, WithLog, HeadNow, AuditPath, PlaceFor, Runs;
      ghost var log := LogIn(db, epoch);
      var places := PlaceAll(ticket, sparks);
      ghost var before := db;
      var h := SignHead(false, now);
      SignedFinals(before, h);
      if isOpen {
        RunningIsOpen(db, past, epoch, target);
      }
      SameRowHeads(old(db), epoch, LogIn(before, epoch));
      results := [];
      for k := 0 to |sparks|
        invariant |results| == k
        invariant forall j :: 0 <= j < k ==> Receives(results[j], places[j], sparks[j], h, leaves)
      {
        match places[k] {
          case Refuses(refusal) => results := results + [NotPlaced(refusal)];
          case At(index) => results := results + [Receipted(Receipt(sparks[k], index, h, AuditPath(leaves, index)))];
        }
      }
    }

    /** Whether the window a ticket is for is still open. */
    predicate Accepts(ticket: Ticket)
      reads this
    {
      isOpen && epoch == ticket.epoch
    }

    method PlaceAll(ticket: Ticket, sparks: seq<Spark>) returns (places: seq<Placing>)
      requires Valid() && forall k :: 0 <= k < |sparks| ==> sparks[k].proposalId in db.entries
      modifies `db, `leaves, `seen
      ensures Valid() && |places| == |sparks|
      ensures LogIn(db, epoch) == LogAfter(Accepts(ticket), LogIn(old(db), epoch), sparks)
      ensures db == WithLog(old(db), epoch, LogIn(db, epoch))
      ensures forall k :: 0 <= k < |sparks| ==> places[k] == PlaceFor(Accepts(ticket), LogIn(old(db), epoch), sparks, k)
      ensures forall k :: 0 <= k < |sparks| && places[k].At? ==> places[k].index < |leaves|
    {
      hide Kept, LogOf, LeavesOf, IdsOf, Taken, WithLog, Appended;
      places := [];
      ghost var log := LogIn(db, epoch);
      TakenNone(log, sparks);
      for k := 0 to |sparks|
        invariant Valid() && |places| == k
        invariant db == WithLog(old(db), epoch, LogIn(db, epoch))
        invariant LogIn(db, epoch) == LogAfter(Accepts(ticket), log, sparks[..k])
        invariant forall j :: 0 <= j < k ==> places[j] == PlaceFor(Accepts(ticket), log, sparks, j)
        invariant forall j :: 0 <= j < k && places[j].At? ==> places[j].index < |leaves|
      {
        if !isOpen || epoch != ticket.epoch {
          places := places + [Refuses(WindowClosed)];
        } else {
          TakenNext(log, sparks, k);
          TakenExtends(log, sparks, k);
          AppendedWithLog(old(db), epoch, LogIn(db, epoch), sparks[k]);
          LogAppended(db, epoch, sparks[k]);
          var index := Take(sparks[k]);
          places := places + [if index == None then Refuses(Duplicate) else At(index.value)];
        }
      }
      assert sparks[..|sparks|] == sparks;
    }

    /** Closes the window: its final tree head, the work of its sparks, and the end of open wishes past their lifetime. */
    method CloseWindow(now: nat)
      requires Valid()
      modifies `db, `past, `sth, `isOpen
      ensures Valid() && !isOpen && Advanced(old(db).entries, db.entries)
      ensures forall e: u64 :: LogIn(db, e) == LogIn(old(db), e)
      ensures !old(isOpen) ==> db == old(db) && past == old(past) && sth == old(sth)
      ensures old(isOpen) ==> sth == Some(HeadNow(epoch, LogIn(old(db), epoch), now))
      ensures FinalsSurvive(old(db).sths, db.sths)
      ensures old(isOpen) ==> forall k: (u64, nat) :: k.0 == epoch ==> (k in db.sths <==> k == (epoch, |LogIn(db, epoch)|))
      ensures old(isOpen) ==> FinalAt(db.sths, (epoch, |LogIn(db, epoch)|))
      ensures old(isOpen) ==> (epoch in old(db).windows && target > 0 &&
        db == Closed(Signed(old(db), sth.value, true), epoch, target) &&
        past == old(past).(signed := old(past).signed + {sth.value}, targets := old(past).targets[epoch := target]))
    {
      hide Kept, LogOf, LeavesOf, IdsOf, Recorded, Signed, HeadNow, Packed, Weight, Credited, Lapsed, Advanced;
      NotAdvanced(db.entries);
      if !isOpen {
        return;
      }
      RunningIsOpen(db, past, epoch, target);
      isOpen := false;
      var h := SignHead(true, now);
      var log := LogIn(db, epoch);
      var sums := Tally(log, Weight(target));
      var credited := Credit(db.entries, log, Weight(target), sums);
      var lapsed := Lapse(credited, epoch);
      KeptClosed(db, past, epoch, target);
      past := past.(targets := past.targets[epoch := target]);
      db := Packed(db, epoch, log).(entries := lapsed);
      assert db == Closed(Signed(old(db), h, true), epoch, target);
      ClosedFinals(old(db), h, target);
    }

    /** The soft check when a window opens: waiting wishes that can never apply any more are invalidated. */
    method SoftCheck(prospect: Wish -> Prospect) returns (closed: nat)
      requires Valid()
      modifies `db
      ensures Valid() && db == old(db).(entries := Checked(old(db).entries, prospect))
      ensures closed == |LostOf(old(db).entries, prospect)| && Advanced(old(db).entries, db.entries)
    {
      hide Kept, LogOf, LeavesOf, IdsOf, Recorded, Checked, LostOf, Advanced;
      KeptChecked(db, past, prospect);
      var entries;
      entries, closed := Invalidate(db.entries, prospect);
      db := db.(entries := entries);
    }

    /** The price of a miracle for the next selection. */
    function Price(): nat
      reads this
    {
      match db.price
      case None => priceMin
      case Some(p) => if p > priceMin then p else priceMin
    }

    /** The ledger, after the window's work was added: the ready wishes queue, up to three are selected, and the price
        moves. */
    method SelectMiracles(shares: Wish -> Option<nat>, tie: Id32 -> nat)
      returns (selected: seq<Id32>, ghost candidates: seq<Ledger.Candidate>)
      requires Valid()
      modifies `db, `past
      ensures Valid() && Listed(old(db).entries, shares, candidates) && Advanced(old(db).entries, db.entries)
      ensures var s := Ledger.Select(candidates, old(Price()), priceMin, tie);
        && selected == s.selected && past == old(past).(pending := selected)
        && db == old(db).(entries := Marked(Marked(old(db).entries, s.ready, Ready), s.selected, Selected), price := Some(s.nextPrice))
    {
      hide Kept, LogOf, LeavesOf, IdsOf, Recorded, Listed, Ledger.Select, Advanced;
      var found := Candidates(db.entries, shares);
      var s := Ledger.SelectMiracles(found, Price(), priceMin, tie);
      SelectionStands(db.entries, shares, found, Price(), priceMin, tie);
      KeptSelected(db, past, s.ready, s.selected);
      var queued := MarkAll(db.entries, s.ready, Ready);
      var marked := MarkAll(queued, s.selected, Selected);
      KeptPriced(db.(entries := marked), past.(pending := s.selected), Some(s.nextPrice));
      db, past := db.(entries := marked, price := Some(s.nextPrice)), past.(pending := s.selected);
      selected, candidates := s.selected, found;
    }

    method RecordOne(e: u64, k: nat, id: Id32, o: Outcome)
      requires Valid() && past.pending != [] && past.pending[0] == id
      modifies `db, `past
      ensures Valid() && Advanced(old(db).entries, db.entries) && id in old(db).entries
      ensures db == old(db).(entries := old(db).entries[id := Answered(old(db).entries[id], e, o)],
        miracles := old(db).miracles[(e, k) := MiracleRow(id, o)])
      ensures past == old(past).(executions := old(past).executions + if o == Applied then [id] else [],
        pending := old(past).pending[1..])
    {
      hide Kept, LogOf, LeavesOf, IdsOf, Recorded, Answered, Advanced, Runs;
      KeptAnswered(db, past, e, id, o);
      var entries := db.entries[id := Answered(db.entries[id], e, o)];
      past := past.(executions := past.executions + (if o == Applied then [id] else []), pending := past.pending[1..]);
      KeptLogged(db.(entries := entries), past, db.miracles[(e, k) := MiracleRow(id, o)]);
      db := db.(entries := entries, miracles := db.miracles[(e, k) := MiracleRow(id, o)]);
      StillRuns(old(db), old(past), db, past, epoch, target);
    }

    /** What the world did with the selected miracles of an epoch: applied ones are executed, deferred ones queue again,
        refused ones are invalidated; and every one given is logged. */
    method Record(e: u64, selected: seq<Id32>, outcomes: seq<Outcome>)
      requires Valid() && selected == past.pending && |outcomes| == |selected|
      modifies `db, `past
      ensures Valid() && Advanced(old(db).entries, db.entries)
      ensures db == old(db).(entries := Answers(old(db).entries, e, selected, outcomes),
        miracles := MiraclesWith(old(db).miracles, e, selected, outcomes))
      ensures past == old(past).(executions := old(past).executions + AppliedOf(selected, outcomes), pending := [])
      ensures AnsweredEach(old(db), db, e, selected, outcomes)
    {
      hide Kept, LogOf, LeavesOf, IdsOf, Recorded, Answers, MiraclesWith, AppliedOf, Runs, Advanced, AnsweredEach;
      AnsweredForGiven(db, past, e, selected, outcomes);
      RecordEach(e, selected, outcomes);
    }

    method RecordEach(e: u64, selected: seq<Id32>, outcomes: seq<Outcome>)
      requires Valid() && selected == past.pending && |outcomes| == |selected|
      modifies `db, `past
      ensures Valid() && Advanced(old(db).entries, db.entries)
      ensures db == old(db).(entries := Answers(old(db).entries, e, selected, outcomes),
        miracles := MiraclesWith(old(db).miracles, e, selected, outcomes))
      ensures past == old(past).(executions := old(past).executions + AppliedOf(selected, outcomes), pending := [])
    {
      hide Kept, LogOf, LeavesOf, IdsOf, Recorded, Answered, Answers, MiraclesWith, AppliedOf, Runs, Advanced;
      AnswersForGiven(db, past, e, selected, outcomes);
      AnswersNone(db, e, selected, outcomes);
      for k := 0 to |selected|
        invariant Valid() && past.pending == selected[k..]
        invariant db == old(db).(entries := Answers(old(db).entries, e, selected[..k], outcomes[..k]),
          miracles := MiraclesWith(old(db).miracles, e, selected[..k], outcomes[..k]))
        invariant past == old(past).(executions := old(past).executions + AppliedOf(selected[..k], outcomes[..k]),
          pending := selected[k..])
      {
        AnswersNext(old(db), e, selected, outcomes, k);
        RecordOne(e, k, selected[k], outcomes[k]);
      }
      assert selected[..|selected|] == selected && outcomes[..|selected|] == outcomes;
    }

    /** Admits a new wish: well formed, signed, of this world, made for the open window or the one just before, not
        admitted before, and its author with fewer than three open. */
    method AddWish(bytes: seq<u8>, genuine: bool) returns (r: Admitted)
      requires Valid()
      modifies `db
      ensures Valid() && (r.NotAdmitted? ==> db == old(db))
      ensures r.Admitted? <==> (Decode(bytes).Ok? && genuine && isOpen && Fits(Decode(bytes).wish) &&
        digest(PROPOSAL_TAG + bytes) !in old(db).entries && |OpenOf(old(db).entries, Decode(bytes).wish.author)| < OPEN_PER_AUTHOR)
      ensures r.Admitted? ==> (Check(r.wish) == None && Encoding(r.wish) == bytes && r.id == digest(PROPOSAL_TAG + bytes) &&
        db == old(db).(entries := old(db).entries[r.id := Entry(r.wish, Open, 0, None)]))
      ensures r == NotAdmitted(Format) <==> Decode(bytes).Err?
      ensures r == NotAdmitted(Signature) <==> Decode(bytes).Ok? && !genuine
      ensures r == NotAdmitted(ActionInvalid) <==>
        Decode(bytes).Ok? && genuine && (!OfThisWorld(Decode(bytes).wish) || (isOpen && !Fits(Decode(bytes).wish)))
      ensures r == NotAdmitted(WindowClosed) <==> Decode(bytes).Ok? && genuine && OfThisWorld(Decode(bytes).wish) && !isOpen
      ensures r == NotAdmitted(Duplicate) <==> (Decode(bytes).Ok? && genuine && isOpen && Fits(Decode(bytes).wish) &&
        digest(PROPOSAL_TAG + bytes) in old(db).entries)
    {
      hide Kept, LogOf, LeavesOf, IdsOf, Recorded, Decode, Encoding, Check, OpenOf;
      var decoded := WishReader.FromBytes(bytes);
      if decoded.Err? {
        return NotAdmitted(Format);
      }
      var w := decoded.wish;
      var id := digest(PROPOSAL_TAG + bytes);
      if !genuine {
        return NotAdmitted(Signature);
      }
      if w.worldId != worldId || w.rulesetId != rulesetId {
        return NotAdmitted(ActionInvalid);
      }
      if !isOpen {
        return NotAdmitted(WindowClosed);
      }
      if w.createdEpoch + 1 < epoch || w.createdEpoch > epoch {
        return NotAdmitted(ActionInvalid);
      }
      LifetimeChecked(w);
      if id in db.entries {
        return NotAdmitted(Duplicate);
      }
      FewOpenNow(db, past, w.author);
      if |OpenOf(db.entries, w.author)| >= OPEN_PER_AUTHOR {
        return NotAdmitted(Limit);
      }
      KeptAdded(db, past, id, w);
      db := db.(entries := db.entries[id := Entry(w, Open, 0, None)]);
      r := Admitted(w, id);
    }

    predicate OfThisWorld(w: Wish) {
      w.worldId == worldId && w.rulesetId == rulesetId
    }

    predicate Fits(w: Wish)
      reads this
    {
      OfThisWorld(w) && w.createdEpoch <= epoch <= w.createdEpoch + 1
    }

    /** The turn of an epoch, as the world loop takes it: the window closes and credits its work, the ledger selects
        among the candidates, the world answers for what it was given, and the next window opens, in which wishes that
        can never apply any more are invalidated. */
    method Turn(shares: Wish -> Option<nat>, tie: Id32 -> nat, world: Id32 -> Outcome, prospect: Wish -> Prospect,
        header: Id32, closing: nat, opening: nat)
      returns (ghost candidates: seq<Ledger.Candidate>, ghost given: seq<Id32>, ghost outcomes: seq<Outcome>)
      requires Valid() && isOpen && epoch < U64_MAX
      modifies this
      ensures Valid() && isOpen && epoch == old(epoch) + 1 && past.pending == [] && Advanced(old(db).entries, db.entries)
      ensures forall e: u64 :: LogIn(db, e) == LogIn(old(db), e)
      ensures old(epoch) in old(db).windows && old(target) > 0
        && Listed(ClosedAt(old(db), old(epoch), old(target), closing).entries, shares, candidates)
        && given == Ledger.Select(candidates, old(Price()), priceMin, tie).selected
      ensures |outcomes| == |given| && forall k :: 0 <= k < |given| ==> outcomes[k] == world(given[k])
      ensures db == CheckedFor(OpenedAt(AnsweredFrom(ChosenFrom(ClosedAt(old(db), old(epoch), old(target), closing),
          Ledger.Select(candidates, old(Price()), priceMin, tie)), old(epoch), given, outcomes),
        epoch, challenge, target, opening), prospect)
    {
      hide Kept, LogOf, LeavesOf, IdsOf, Recorded, Ledger.Select, Closed, Weight, Advanced, Listed, Answers, MiraclesWith,
        Marked, Checked, HeadNow, AnsweredEach;
      var e := epoch;
      RunningIsOpen(db, past, epoch, target);
      CloseWindow(closing);
      assert db == ClosedAt(old(db), e, old(target), closing);
      ghost var closed := db;
      ClosedPrice(old(db), e, old(target), closing);
      var selected;
      selected, candidates := SelectMiracles(shares, tie);
      ghost var chosen := db;
      assert chosen == ChosenFrom(closed, Ledger.Select(candidates, old(Price()), priceMin, tie));
      var answers := seq(|selected|, k requires 0 <= k < |selected| => world(selected[k]));
      Record(e, selected, answers);
      ghost var answered := db;
      assert answered == AnsweredFrom(chosen, e, selected, answers);
      NextNotClosed(db, past, e);
      OpenWindow(e + 1, header, opening);
      ghost var reopened := db;
      assert reopened == OpenedAt(answered, epoch, challenge, target, opening);
      var lost := SoftCheck(prospect);
      assert db == CheckedFor(reopened, prospect);
      given, outcomes := selected, answers;
      AdvancedTwice(old(db).entries, closed.entries, chosen.entries);
      AdvancedTwice(old(db).entries, chosen.entries, answered.entries);
      AdvancedTwice(old(db).entries, answered.entries, db.entries);
    }
  }

  // ---- The steps of a turn ----

  function ClosedAt(db: Database, e: u64, target: u64, now: nat): Database
    requires e in db.windows && target > 0
  {
    Closed(Signed(db, HeadNow(e, LogIn(db, e), now), true), e, target)
  }

  lemma ClosedPrice(db: Database, e: u64, target: u64, now: nat)
    requires e in db.windows && target > 0
    ensures ClosedAt(db, e, target, now).price == db.price
  {
    hide Lapsed, Credited, Weight, HeadNow;
  }

  function ChosenFrom(db: Database, s: Ledger.Selection): Database {
    db.(entries := Marked(Marked(db.entries, s.ready, Ready), s.selected, Selected), price := Some(s.nextPrice))
  }

  /** Only an epoch of one world after one header has its challenge, as long as the digest tells strings apart. */
  lemma ChallengesTellApart(digest: seq<u8> -> Id32, worldId: Id16, epoch: u64, prevRoot: Id32, worldId': Id16, epoch': u64,
      prevRoot': Id32)
    requires forall a, b :: digest(a) == digest(b) ==> a == b
    requires ChallengeOf(digest, worldId, epoch, prevRoot) == ChallengeOf(digest, worldId', epoch', prevRoot')
    ensures worldId' == worldId && epoch' == epoch && prevRoot' == prevRoot
  {
    var a := CHALLENGE_TAG + worldId + Le(epoch, 8) + prevRoot;
    var b := CHALLENGE_TAG + worldId' + Le(epoch', 8) + prevRoot';
    assert digest(a) == digest(b);
    assert a[22..38] == worldId && b[22..38] == worldId';
    assert a[38..46] == Le(epoch, 8) && b[38..46] == Le(epoch', 8);
    assert a[46..] == prevRoot && b[46..] == prevRoot';
    LeInjective(epoch, epoch', 8);
  }

  /** A window that had a challenge leaves its ticket to the next epoch; otherwise the late ticket stays. */
  lemma TicketExactly(i: Intake, e: u64, epoch: u64, challenge: Id32, target: u64, previous: Option<Ticket>)
    ensures var after := i.TicketBefore(e, epoch, challenge, target, previous);
      && (after == previous || after == Some(Ticket(epoch, challenge, target, i.worldId)))
      && (e == epoch + 1 && (exists k :: 0 <= k < 32 && challenge[k] != 0) ==>
            after == Some(Ticket(epoch, challenge, target, i.worldId)))
      && (e != epoch + 1 || (forall k :: 0 <= k < 32 ==> challenge[k] == 0) ==> after == previous)
  {
    if forall k :: 0 <= k < 32 ==> challenge[k] == 0 {
      assert challenge == NoChallenge();
    }
  }

  /** The price that stands is the last one, or the floor when there is none or the floor has risen above it. */
  lemma PriceExactly(i: Intake)
    ensures i.priceMin <= i.Price() && (i.Price() == i.priceMin || i.db.price == Some(i.Price()))
    ensures i.db.price.Some? ==> i.db.price.value <= i.Price()
  {
  }

  function AnsweredFrom(db: Database, e: u64, given: seq<Id32>, outcomes: seq<Outcome>): Database
    requires |outcomes| == |given|
  {
    db.(entries := Answers(db.entries, e, given, outcomes), miracles := MiraclesWith(db.miracles, e, given, outcomes))
  }

  function OpenedAt(db: Database, e: u64, challenge: Id32, target: u64, now: nat): Database {
    Signed(Opened(db, e, challenge, target), HeadNow(e, LogIn(db, e), now), false)
  }

  function CheckedFor(db: Database, prospect: Wish -> Prospect): Database {
    db.(entries := Checked(db.entries, prospect))
  }

  /** What each wish is owed. */
  method Tally(log: seq<Spark>, each: nat) returns (sums: map<Id32, nat>)
    ensures forall id: Id32 :: each * CountFor(id, log) == if id in sums then sums[id] else 0
  {
    sums := map[];
    for k := 0 to |log|
      invariant forall id: Id32 :: each * CountFor(id, log[..k]) == if id in sums then sums[id] else 0
    {
      var s, before := log[k], sums;
      sums := sums[s.proposalId := (if s.proposalId in sums then sums[s.proposalId] else 0) + each];
      forall id: Id32
        ensures each * CountFor(id, log[..k + 1]) == if id in sums then sums[id] else 0
      {
        CountNext(id, log, k, each);
        assert each * CountFor(id, log[..k]) == if id in before then before[id] else 0;
      }
    }
    assert log[..|log|] == log;
  }

  lemma CountNext(id: Id32, log: seq<Spark>, k: nat, each: nat)
    requires k < |log|
    ensures each * CountFor(id, log[..k + 1]) == each * CountFor(id, log[..k]) + if log[k].proposalId == id then each else 0
  {
    assert log[..k + 1][..k] == log[..k];
  }

  method Credit(entries: Entries, ghost log: seq<Spark>, ghost each: nat, sums: map<Id32, nat>) returns (out: Entries)
    requires forall id: Id32 :: each * CountFor(id, log) == if id in sums then sums[id] else 0
    ensures out == Credited(entries, log, each)
  {
    hide CountFor;
    out := entries;
    var todo := sums.Keys;
    while todo != {}
      invariant todo <= sums.Keys && out.Keys == entries.Keys
      invariant forall id :: id in entries ==>
        out[id] == entries[id].(work := entries[id].work + if id in sums && id !in todo then sums[id] else 0)
    {
      var id :| id in todo;
      if id in out {
        out := out[id := out[id].(work := out[id].work + sums[id])];
      }
      todo := todo - {id};
    }
    assert forall id :: id in entries ==> out[id] == Credited(entries, log, each)[id];
  }

  method Lapse(entries: Entries, epoch: u64) returns (out: Entries)
    ensures out == Lapsed(entries, epoch)
  {
    out := entries;
    var todo := entries.Keys;
    while todo != {}
      invariant todo <= entries.Keys && out.Keys == entries.Keys
      invariant forall id :: id in entries ==> out[id] == if id in todo then entries[id] else Lapsed(entries, epoch)[id]
    {
      var id :| id in todo;
      if out[id].status == Open && out[id].wish.expiresEpoch <= epoch {
        out := out[id := out[id].(status := Expired)];
      }
      todo := todo - {id};
    }
  }

  method Invalidate(entries: Entries, prospect: Wish -> Prospect) returns (out: Entries, closed: nat)
    ensures out == Checked(entries, prospect) && closed == |LostOf(entries, prospect)|
  {
    hide LostOf, Waiting;
    out, closed := entries, 0;
    var todo := entries.Keys;
    ghost var hit: set<Id32> := {};
    while todo != {}
      invariant todo <= entries.Keys && out.Keys == entries.Keys
      invariant forall id :: id in entries ==> out[id] == if id in hit then entries[id].(status := Invalidated) else entries[id]
      invariant forall id :: id in hit <==> id in LostOf(entries, prospect) && id !in todo
      invariant closed == |hit|
    {
      var id :| id in todo;
      InLost(entries, prospect, id);
      if Waiting(out[id]) && prospect(out[id].wish) == Lasting {
        out, closed := out[id := out[id].(status := Invalidated)], closed + 1;
        hit := hit + {id};
      }
      todo := todo - {id};
    }
    assert hit == LostOf(entries, prospect);
  }

  lemma InLost(entries: Entries, prospect: Wish -> Prospect, id: Id32)
    requires id in entries
    ensures id in LostOf(entries, prospect) <==> Waiting(entries[id]) && prospect(entries[id].wish) == Lasting
  {
  }

  method MarkAll(entries: Entries, ids: seq<Id32>, status: Status) returns (out: Entries)
    requires forall k :: 0 <= k < |ids| ==> ids[k] in entries
    ensures out == Marked(entries, ids, status)
  {
    out := entries;
    for k := 0 to |ids|
      invariant out.Keys == entries.Keys
      invariant forall id :: id in entries ==> out[id] == if id in ids[..k] then entries[id].(status := status) else entries[id]
    {
      out := out[ids[k] := out[ids[k]].(status := status)];
    }
    assert ids[..|ids|] == ids;
  }

  method Candidates(entries: Entries, shares: Wish -> Option<nat>) returns (found: seq<Ledger.Candidate>)
    ensures Listed(entries, shares, found)
  {
    found := [];
    var todo := entries.Keys;
    while todo != {}
      invariant todo <= entries.Keys
      invariant forall k :: 0 <= k < |found| ==> Lists(entries, shares, found[k]) && found[k].id !in todo
      invariant forall j, k :: 0 <= j < k < |found| ==> found[j].id != found[k].id
      invariant forall id :: id in entries && id !in todo && Waiting(entries[id]) && shares(entries[id].wish).Some? ==> Names(found, id)
    {
      var id :| id in todo;
      var e, before := entries[id], found;
      if Waiting(e) && shares(e.wish).Some? {
        found := found + [Ledger.Candidate(id, e.wish.action, e.work, shares(e.wish).value)];
        assert found[|before|].id == id;
      }
      forall other | Names(before, other)
        ensures Names(found, other)
      {
        var k :| 0 <= k < |before| && before[k].id == other;
        assert found[k].id == other;
      }
      todo := todo - {id};
    }
  }

  /** What is selected waits in the table. */
  lemma SelectionStands(entries: Entries, shares: Wish -> Option<nat>, candidates: seq<Ledger.Candidate>, price: nat,
      priceMin: nat, tie: Id32 -> nat)
    requires Listed(entries, shares, candidates)
    ensures var s := Ledger.Select(candidates, price, priceMin, tie);
      && (forall k :: 0 <= k < |s.ready| ==> s.ready[k] in entries && Waiting(entries[s.ready[k]]))
      && (forall k :: 0 <= k < |s.selected| ==> s.selected[k] in s.ready)
      && (forall j, k :: 0 <= j < k < |s.selected| ==> s.selected[j] != s.selected[k])
      && (forall k :: 0 <= k < |s.selected| ==> s.selected[k] in entries)
  {
    hide Ledger.Select;
    SelectedAreListed(candidates, price, priceMin, tie);
    var s := Ledger.Select(candidates, price, priceMin, tie);
    forall k | 0 <= k < |s.ready|
      ensures s.ready[k] in entries && Waiting(entries[s.ready[k]])
    {
      assert Names(candidates, s.ready[k]);
      var j :| 0 <= j < |candidates| && candidates[j].id == s.ready[k];
      assert Lists(entries, shares, candidates[j]);
    }
  }

  datatype Placing = At(index: nat) | Refuses(refusal: Refusal)

  function LogAfter(accepts: bool, log: seq<Spark>, sparks: seq<Spark>): seq<Spark> {
    if accepts then Taken(log, sparks) else log
  }

  /** Where a spark of a batch is placed: behind the log and those before it, unless it is among them. */
  function PlaceFor(accepts: bool, log: seq<Spark>, sparks: seq<Spark>, k: nat): Placing
    requires k < |sparks|
  {
    var before := Taken(log, sparks[..k]);
    if !accepts then Refuses(WindowClosed) else if sparks[k] in before then Refuses(Duplicate) else At(|before|)
  }

  /** A spark that is placed gets a receipt under the head, with its path in the log. */
  ghost predicate Receives(r: Placed, p: Placing, s: Spark, h: Sth, leaves: seq<Hash>) {
    match p
    case Refuses(refusal) => r == NotPlaced(refusal)
    case At(index) => index < |leaves| && r == Receipted(Receipt(s, index, h, AuditPath(leaves, index)))
  }

  // ---- What the tables and receipts say ----

  /** A spark of a batch gets a receipt exactly when its window is still open and it is not in the log or earlier in the
      batch; the receipt verifies, and it places the spark in every later state of the log. */
  lemma ReceiptsHold(r: Placed, accepts: bool, epoch: u64, log: seq<Spark>, sparks: seq<Spark>, k: nat, now: nat,
      later: seq<Spark>)
    requires k < |sparks| && NoDuplicates(log)
    requires var log' := LogAfter(accepts, log, sparks);
      Receives(r, PlaceFor(accepts, log, sparks, k), sparks[k], HeadNow(epoch, log', now), LeavesOf(epoch, log')) && log' <= later
    ensures r.Receipted? <==> accepts && sparks[k] !in log && sparks[k] !in sparks[..k]
    ensures r.Receipted? ==> (Verifies(r.receipt) && r.receipt.spark == sparks[k] &&
      r.receipt.leafIndex < |later| && later[r.receipt.leafIndex] == sparks[k])
  {
    hide Taken, LeavesOf, LogRoot, AuditPath, RootFromPath;
    TakenOnce(log, sparks[..k]);
    if accepts && sparks[k] !in Taken(log, sparks[..k]) {
      TakenNext(log, sparks, k);
      TakenGrows(log, sparks, k + 1, |sparks|);
      assert sparks[..|sparks|] == sparks;
      ReceiptVerifies(epoch, Taken(log, sparks), |Taken(log, sparks[..k])|, now);
    }
  }

  /** The heads are as they were when only a log has changed. */
  lemma SameRowHeads(db: Database, epoch: u64, log: seq<Spark>)
    ensures WithLog(db, epoch, log).sths == db.sths && WithLog(db, epoch, log).logs == db.logs
  {
  }

  /** A batch that comes after the window closed is refused, but a head is signed for it all the same: it takes the
      final head's place in the table, with the same root and size, and no head of the epoch is final any more. */
  method LateBatch(i: Intake, e: u64, prevRoot: Id32, ticket: Ticket, sparks: seq<Spark>, opening: nat, closing: nat,
      later: nat)
    requires i.Valid() && 1 <= e && i.past.horizon <= e && e !in i.db.logs
    requires forall k :: 0 <= k < |sparks| ==> sparks[k].proposalId in i.db.entries
    modifies i
    ensures i.Valid() && LogIn(i.db, e) == LogIn(old(i.db), e)
    ensures forall k :: k in i.db.sths && k.0 == e ==> !i.db.sths[k].final
    ensures exists k :: k in i.db.sths && k.0 == e
  {
    hide Kept, LogOf, LeavesOf, IdsOf, Recorded, Closed, WithLog, Signed;
    i.OpenWindow(e, prevRoot, opening);
    OpenedRows(old(i.db), e, i.challenge, i.target, i.sth.value);
    i.CloseWindow(closing);
    ghost var final, log := i.db, LogIn(i.db, e);
    assert FinalAt(final.sths, (e, |log|));
    var results := i.Append(ticket, sparks, later);
    SameRowHeads(final, e, LogIn(i.db, e));
    SignedOnce(WithLog(final, e, LogIn(i.db, e)), i.sth.value);
  }

  lemma OpenedRows(db: Database, e: u64, challenge: Id32, target: u64, h: Sth)
    ensures var db' := Signed(Opened(db, e, challenge, target), h, false);
      db'.entries == db.entries && forall d: u64 :: LogIn(db', d) == LogIn(db, d)
  {
  }

  lemma SignedOnce(db: Database, h: Sth)
    requires forall k: (u64, nat) :: k.0 == h.epoch ==> (k in db.sths <==> k == (h.epoch, h.treeSize))
    ensures var sths := Signed(db, h, false).sths;
      (h.epoch, h.treeSize) in sths && forall k :: k in sths && k.0 == h.epoch ==> !sths[k].final
  {
  }

  /** The wishes' work is what anyone can add up from the tables, when no window ran with a target above 2^63. */
  lemma WorkAddsUp(db: Database, past: History, id: Id32)
    requires Kept(db, past) && id in db.entries
    requires forall e :: e in past.targets ==> past.targets[e] <= 0x8000_0000_0000_0000
    ensures forall e :: e in db.logs ==> e in db.windows
    ensures db.entries[id].work == Earned(id, map e | e in db.logs :: db.windows[e].target, db.logs, past.horizon + 1)
  {
    hide HeadsKept, SparksKnown, FewOpen, ExecutionsKept, PendingKept, Earned, Recorded, NoDuplicates, LogOf;
    EarnedFromTheRecord(id, past.targets, db.logs, map e | e in db.logs :: db.windows[e].target, past.horizon + 1);
  }

  /** With the shares of one state, which are never zero, whoever reads the table selects the same. */
  lemma PricedListingsSelect(entries: Entries, patrons: Option<Ledger.Patrons>, census: Ledger.Census,
      shares: Wish -> Option<nat>, a: seq<Ledger.Candidate>, b: seq<Ledger.Candidate>, price: nat, priceMin: nat,
      tie: Id32 -> nat)
    requires forall w :: shares(w) == Ledger.PriceShare(patrons, census, w.action)
    requires Listed(entries, shares, a) && Listed(entries, shares, b)
    requires forall id, other :: id in entries && other in entries && tie(id) == tie(other) ==> id == other
    ensures Ledger.Select(a, price, priceMin, tie) == Ledger.Select(b, price, priceMin, tie)
  {
    hide Ledger.Select, Listed, Ledger.PriceShare;
    forall w
      ensures shares(w) != Some(0)
    {
      Ledger.SharesArePositive(patrons, census, w.action);
    }
    AnyListingSelects(entries, shares, a, b, price, priceMin, tie);
  }

  /** Whoever reads the table, in whatever order, selects the same. */
  lemma AnyListingSelects(entries: Entries, shares: Wish -> Option<nat>, a: seq<Ledger.Candidate>, b: seq<Ledger.Candidate>,
      price: nat, priceMin: nat, tie: Id32 -> nat)
    requires Listed(entries, shares, a) && Listed(entries, shares, b)
    requires forall w :: shares(w) != Some(0)
    requires forall id, other :: id in entries && other in entries && tie(id) == tie(other) ==> id == other
    ensures Ledger.Select(a, price, priceMin, tie) == Ledger.Select(b, price, priceMin, tie)
  {
    hide Ledger.Select;
    ListingsPermute(entries, shares, a, b);
    forall c | c in a
      ensures Lists(entries, shares, c) && c.share > 0
    {
    }
    forall c, d | c in a && d in a && tie(c.id) == tie(d.id)
      ensures c == d
    {
      assert Lists(entries, shares, c) && Lists(entries, shares, d);
    }
    Ledger.OrderDoesNotMatter(a, b, price, priceMin, tie);
  }
}
