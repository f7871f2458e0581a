/** The ledger's selection, protocol/src/ledger.rs: which wishes are ready, which become the epoch's
    miracles, and the next price. */
module Ledger {
  import opened Arithmetic
  import opened Hashing
  import opened Options
  import opened Sorting
  import opened Wishes

  const PER_EPOCH: nat := 3
  const PRICE_MULT: seq<nat> := [100, 120, 200, 100, 100, 100, 150, 250, 120, 120, 120]

  function Mult(a: Action): (m: nat)
    ensures m >= 100
  {
    PRICE_MULT[Code(a)]
  }

  datatype Candidate = Candidate(id: Id32, action: Action, work: nat, share: nat)

  function PriceOf(price: nat, c: Candidate): nat {
    price * Mult(c.action) * c.share / 10_000
  }

  // ---- Conflicts ----

  function Far(p: Place, q: Place): nat {
    Max(Abs(p.x - q.x), Abs(p.y - q.y))
  }

  function Target(a: Action): Option<Place> {
    match a
    case Migrate(_, _, to) => Some(to)
    case Revive(_, _, _, at) => Some(at)
    case Hybrid(_, _, at) => Some(at)
    case _ => None
  }

  predicate SamePair(a: nat, b: nat, c: nat, d: nat) {
    (a == c && b == d) || (a == d && b == c)
  }

  /** Two miracles that cannot go in one epoch. */
  predicate Conflicts(a: Action, b: Action) {
    if a.Weather? && b.Weather? then Far(a.at, b.at) <= 6
    else if a.Migrate? && b.Migrate? && a.cladeId == b.cladeId then true
    else if a.Clade? && b.Clade? && a.cladeId == b.cladeId then a.action == b.action || (a.action.Gift? && b.action.Gift?)
    else if a.Hybrid? && b.Hybrid? && SamePair(a.cladeA, a.cladeB, b.cladeA, b.cladeB) then true
    else Target(a).Some? && Target(b).Some? && Far(Target(a).value, Target(b).value) <= 2
  }

  /** A conflict is mutual, so it does not matter which of the two came first. */
  lemma ConflictsAreMutual(a: Action, b: Action)
    ensures Conflicts(a, b) <==> Conflicts(b, a)
  {
  }

  /** A weather's square reaches three cells, a target's area one. */
  const WEATHER_REACH: nat := 3

  /** A place near both, within the same reach. */
  predicate Shared(p: Place, q: Place, z: Place, reach: nat) {
    Far(p, z) <= reach && Far(z, q) <= reach
  }

  /** Squares of one size share a place exactly when their centers are at most twice the reach apart. */
  lemma AreasMeet(p: Place, q: Place, reach: nat)
    ensures Far(p, q) <= 2 * reach <==> exists z :: Shared(p, q, z, reach)
  {
    if Far(p, q) <= 2 * reach {
      var z := Place((p.x + q.x) / 2, (p.y + q.y) / 2);
      MiddleIsNear(p.x, q.x, reach);
      MiddleIsNear(p.y, q.y, reach);
      assert Shared(p, q, z, reach);
    }
  }

  lemma MiddleIsNear(a: nat, b: nat, reach: nat)
    requires Abs(a - b) <= 2 * reach
    ensures Abs(a - (a + b) / 2) <= reach && Abs((a + b) / 2 - b) <= reach
  {
  }

  /** Two rains or dry spells conflict exactly when the squares they change share a place; actions for one clade,
      exactly when they are of one kind, all gifts being one; two hybrids, when they cross the same two clades in
      either order, and otherwise as all others with a target do: when the cells around their targets share a
      place, or one clade is relocated twice. Anything else goes together. */
  lemma ConflictsExactly(a: Action, b: Action)
    ensures a.Weather? && b.Weather? ==> (Conflicts(a, b) <==> exists z :: Shared(a.at, b.at, z, WEATHER_REACH))
    ensures a.Clade? && b.Clade? ==> (Conflicts(a, b) <==> a.cladeId == b.cladeId && Code(a) == Code(b))
    ensures a.Hybrid? && b.Hybrid? ==>
      (Conflicts(a, b) <==> {a.cladeA, a.cladeB} == {b.cladeA, b.cladeB} || exists z :: Shared(a.at, b.at, z, 1))
    ensures a.Migrate? && b.Migrate? ==>
      (Conflicts(a, b) <==> a.cladeId == b.cladeId || exists z :: Shared(a.to, b.to, z, 1))
    ensures a.Migrate? && (b.Revive? || b.Hybrid?) ==> (Conflicts(a, b) <==> exists z :: Shared(a.to, b.at, z, 1))
    ensures a.Revive? && (b.Revive? || b.Hybrid?) ==> (Conflicts(a, b) <==> exists z :: Shared(a.at, b.at, z, 1))
    ensures a.Weather? && !b.Weather? ==> !Conflicts(a, b)
    ensures a.Clade? && !b.Clade? ==> !Conflicts(a, b)
  {
    hide Shared;
    if a.Weather? && b.Weather? {
      AreasMeet(a.at, b.at, WEATHER_REACH);
    } else if Target(a).Some? && Target(b).Some? {
      AreasMeet(Target(a).value, Target(b).value, 1);
    }
    if a.Hybrid? && b.Hybrid? {
      SamePairs(a.cladeA, a.cladeB, b.cladeA, b.cladeB);
    }
  }

  lemma SamePairs(a: nat, b: nat, c: nat, d: nat)
    ensures SamePair(a, b, c, d) <==> {a, b} == {c, d}
  {
    if {a, b} == {c, d} {
      assert a in {c, d} && b in {c, d} && c in {a, b} && d in {a, b};
    }
  }

  /** What each action costs of the price, in percent. */
  lemma Multipliers(a: Action)
    ensures a.Weather? ==> Mult(a) == 100
    ensures a.Migrate? ==> Mult(a) == 120
    ensures a.Revive? ==> Mult(a) == 200
    ensures a.Hybrid? ==> Mult(a) == 250
    ensures a.Clade? ==> Mult(a) == if a.action.Gift? then 150 else if Harms(a.action) then 120 else 100
  {
  }

  // ---- Ranking ----

  function Weight(c: Candidate): nat {
    Mult(c.action) * c.share
  }

  /** The larger share of its price covered goes first, compared by cross-multiplication; then the smaller
      tiebreak, a hash of the wish's id under the epoch's beacon. */
  predicate Outranks(tie: Id32 -> nat, a: Candidate, b: Candidate) {
    b.work * Weight(a) < a.work * Weight(b) || (b.work * Weight(a) == a.work * Weight(b) && tie(a.id) <= tie(b.id))
  }

  /** The tiebreak tells candidates apart. */
  ghost predicate Distinguished(tie: Id32 -> nat, candidates: seq<Candidate>) {
    forall a, b :: a in candidates && b in candidates && tie(a.id) == tie(b.id) ==> a == b
  }

  predicate Positive(candidates: seq<Candidate>) {
    forall a :: a in candidates ==> a.share > 0
  }

  function Ranking(tie: Id32 -> nat): (Candidate, Candidate) -> bool {
    (a: Candidate, b: Candidate) => Outranks(tie, a, b)
  }

  lemma WeightPositive(c: Candidate)
    requires c.share > 0
    ensures Weight(c) > 0
  {
  }

  /** Comparing fractions by cross-multiplication is transitive when the denominators are positive. */
  lemma CrossTransitive(x: nat, p: nat, y: nat, q: nat, z: nat, r: nat)
    requires p > 0 && q > 0 && r > 0 && y * p <= x * q && z * q <= y * r
    ensures z * p <= x * r
    ensures z * p == x * r ==> y * p == x * q && z * q == y * r
  {
    MulMonotone(y * p, x * q, r);
    MulMonotone(z * q, y * r, p);
    assert (z * p) * q == (z * q) * p <= (y * r) * p == (y * p) * r <= (x * q) * r == (x * r) * q;
    Cancel(z * p, x * r, q);
    if z * p == x * r {
      assert (z * q) * p == (y * r) * p && (y * p) * r == (x * q) * r;
      Cancel(y * r, z * q, p);
      Cancel(x * q, y * p, r);
    }
  }

  lemma Cancel(a: nat, b: nat, c: nat)
    requires c > 0 && a * c <= b * c
    ensures a <= b
  {
    if a > b {
      MulMonotone(b + 1, a, c);
    }
  }

  lemma RankTransitive(tie: Id32 -> nat, a: Candidate, b: Candidate, c: Candidate)
    requires a.share > 0 && b.share > 0 && c.share > 0 && Outranks(tie, a, b) && Outranks(tie, b, c)
    ensures Outranks(tie, a, c)
  {
    hide Mult;
    WeightPositive(a);
    WeightPositive(b);
    WeightPositive(c);
    CrossTransitive(a.work, Weight(a), b.work, Weight(b), c.work, Weight(c));
  }

  /** With positive shares and a tiebreak that tells candidates apart the ranking is a total order. */
  lemma RankIsAnOrder(tie: Id32 -> nat, candidates: seq<Candidate>)
    requires Distinguished(tie, candidates) && Positive(candidates)
    ensures Orders(Ranking(tie), candidates)
  {
    forall a, b, c | a in candidates && b in candidates && c in candidates && Outranks(tie, a, b) && Outranks(tie, b, c)
      ensures Outranks(tie, a, c)
    {
      RankTransitive(tie, a, b, c);
    }
    hide Weight;
  }

  // ---- The share of a price ----

  /** The rules of patrons that protect small clades. */
  datatype Patrons = Patrons(protectMinLiving: nat, protectMinPermille: nat)

  /** How many of each clade live, and how many in all. */
  datatype Census = Census(living: u32 -> nat, population: nat)

  predicate Harms(a: CladeAction) {
    a.Blight? || a.Expose? || a.Sickness?
  }

  function HarmMult(permille: nat): nat {
    if permille < 50 then 400 else if permille < 100 then 200 else if permille < 200 then 100 else 75
  }

  function HelpMult(permille: nat): nat {
    if permille * permille / 100 < 75 then 75 else permille * permille / 100
  }

  /** What part of the price a patron's action for or against a clade costs, in percent; none when it is closed. */
  function ShareMult(patrons: Option<Patrons>, action: CladeAction, permille: nat, living: nat): Option<nat> {
    match patrons
    case None => None
    case Some(p) =>
      if Harms(action) then
        (if living < p.protectMinLiving || permille < p.protectMinPermille then None else Some(HarmMult(permille)))
      else if permille >= 500 && action != Cure then None
      else Some(HelpMult(permille))
  }

  function Permille(census: Census, cladeId: u32): nat {
    census.living(cladeId) * 1000 / if census.population > 1 then census.population else 1
  }

  /** A hybrid costs what easing its first clade does; what names no clade costs the whole price. */
  function PriceShare(patrons: Option<Patrons>, census: Census, a: Action): Option<nat> {
    match a
    case Clade(action, id, _) => ShareMult(patrons, action, Permille(census, id), census.living(id))
    case Hybrid(id, _, _) => ShareMult(patrons, Shelter, Permille(census, id), census.living(id))
    case _ => Some(100)
  }

  /** Nothing is free: a share that is not closed is at least three quarters of the price. Help costs more the larger
      the clade, harm less. */
  lemma SharesArePositive(patrons: Option<Patrons>, census: Census, a: Action)
    ensures PriceShare(patrons, census, a).Some? ==> PriceShare(patrons, census, a).value >= 75
    ensures forall p: nat, q: nat :: p <= q ==> HarmMult(q) <= HarmMult(p)
    ensures forall p: nat, q: nat :: p <= q ==> HelpMult(p) <= HelpMult(q)
  {
    forall p: nat, q: nat | p <= q
      ensures HelpMult(p) <= HelpMult(q)
    {
      MulMonotone(p, q, p);
      MulMonotone(p, q, q);
    }
  }

  /** Harm is dearest against the smallest clades: it costs four times the price below a twentieth of the living,
      twice below a tenth, the price below a fifth, and three quarters above. Help costs the square of the share,
      rounded down, but no less than three quarters. */
  lemma ShareSteps(permille: nat)
    ensures HarmMult(0) == HarmMult(49) == 400 && HarmMult(50) == HarmMult(99) == 200
    ensures HarmMult(100) == HarmMult(199) == 100 && HarmMult(200) == HarmMult(1000) == 75
    ensures 75 <= HelpMult(permille) && permille * permille < 100 * (HelpMult(permille) + 1)
    ensures HelpMult(permille) > 75 ==> 100 * HelpMult(permille) <= permille * permille
  {
    var square := permille * permille;
    assert square == 100 * (square / 100) + square % 100;
  }

  /** What is closed to patrons: everything where the rules have none; harm to a clade too few or too rare; and
      help, but for a cure, to a clade of half of the living. */
  /** What a share of the price costs: a clade that lives in great numbers costs less to harm and more to help; what names no
      clade costs the whole price. */
  lemma SharesExactly(patrons: Option<Patrons>, census: Census, a: Action)
    ensures !a.Clade? && !a.Hybrid? ==> PriceShare(patrons, census, a) == Some(100)
    ensures (a.Clade? || a.Hybrid?) && PriceShare(patrons, census, a).Some? ==>
      (var permille := Permille(census, if a.Clade? then a.cladeId else a.cladeA);
      PriceShare(patrons, census, a).value == if a.Clade? && Code(a) >= 8 then HarmMult(permille) else HelpMult(permille))
    ensures a.Clade? ==> RoundsDown(Permille(census, a.cladeId), 1000 * census.living(a.cladeId), Max(1, census.population))
    ensures a.Hybrid? ==> RoundsDown(Permille(census, a.cladeA), 1000 * census.living(a.cladeA), Max(1, census.population))
  {
    if a.Clade? {
      DivRoundsDown(census.living(a.cladeId) * 1000, Max(1, census.population));
    } else if a.Hybrid? {
      DivRoundsDown(census.living(a.cladeA) * 1000, Max(1, census.population));
    }
    hide HarmMult, HelpMult, RoundsDown;
  }

  lemma ClosedExactly(patrons: Option<Patrons>, census: Census, a: Action)
    requires a.Clade? || a.Hybrid?
    ensures PriceShare(patrons, census, a) == None <==>
      var id := if a.Clade? then a.cladeId else a.cladeA;
      || patrons == None
      || (a.Clade? && Code(a) >= 8 && (census.living(id) < patrons.value.protectMinLiving
            || Permille(census, id) < patrons.value.protectMinPermille))
      || ((a.Hybrid? || Code(a) in {3, 4, 6}) && Permille(census, id) >= 500)
  {
  }

  /** Candidates with the shares of one state are ranked in a total order, so the order never fails. */
  lemma PricedIsAnOrder(tie: Id32 -> nat, patrons: Option<Patrons>, census: Census, candidates: seq<Candidate>)
    requires Distinguished(tie, candidates)
    requires forall c :: c in candidates ==> PriceShare(patrons, census, c.action) == Some(c.share)
    ensures Orders(Ranking(tie), candidates)
  {
    hide Ranking, PriceShare;
    forall c | c in candidates
      ensures c.share > 0
    {
      SharesArePositive(patrons, census, c.action);
    }
    RankIsAnOrder(tie, candidates);
  }

  // ---- Selection ----

  predicate IsReady(price: nat, c: Candidate) {
    c.work >= PriceOf(price, c)
  }

  function Ready(candidates: seq<Candidate>, price: nat): seq<Candidate> {
    if candidates == [] then []
    else
      var last := candidates[|candidates| - 1];
      Ready(candidates[..|candidates| - 1], price) + if IsReady(price, last) then [last] else []
  }

  predicate Clashes(ranked: seq<Candidate>, picks: seq<nat>, c: Candidate) {
    exists k :: 0 <= k < |picks| && picks[k] < |ranked| && Conflicts(ranked[picks[k]].action, c.action)
  }

  /** The ranks that are taken, best first: each that conflicts with none before it, while there are slots. */
  function Picks(ranked: seq<Candidate>, k: nat): seq<nat>
    requires k <= |ranked|
  {
    if k == 0 then []
    else
      var before := Picks(ranked, k - 1);
      if |before| == PER_EPOCH || Clashes(ranked, before, ranked[k - 1]) then before else before + [k - 1]
  }

  function Ids(cs: seq<Candidate>): seq<Id32> {
    seq(|cs|, k requires 0 <= k < |cs| => cs[k].id)
  }

  function IdsAt(ranked: seq<Candidate>, picks: seq<nat>): seq<Id32>
    requires forall k :: 0 <= k < |picks| ==> picks[k] < |ranked|
  {
    seq(|picks|, k requires 0 <= k < |picks| => ranked[picks[k]].id)
  }

  /** The price rises by an eighth while ready wishes remain, falls by an eighth but not below the floor while
      slots stay empty, and holds otherwise. */
  function NextPrice(price: nat, priceMin: nat, ready: nat, selected: nat): nat {
    if ready > selected then price + price / 8
    else if selected < PER_EPOCH then (if price - price / 8 > priceMin then price - price / 8 else priceMin)
    else price
  }

  datatype Selection = Selection(ready: seq<Id32>, selected: seq<Id32>, nextPrice: nat)

  function Select(candidates: seq<Candidate>, price: nat, priceMin: nat, tie: Id32 -> nat): Selection {
    var ranked := Sort(Ready(candidates, price), Ranking(tie));
    PicksInRange(ranked, |ranked|);
    var picks := Picks(ranked, |ranked|);
    Selection(Ids(ranked), IdsAt(ranked, picks), NextPrice(price, priceMin, |ranked|, |picks|))
  }

  lemma {:induction false} PicksInRange(ranked: seq<Candidate>, k: nat)
    requires k <= |ranked|
    ensures forall j :: 0 <= j < |Picks(ranked, k)| ==> Picks(ranked, k)[j] < k
  {
    if k > 0 {
      PicksInRange(ranked, k - 1);
    }
  }

  method SelectMiracles(candidates: seq<Candidate>, price: nat, priceMin: nat, tie: Id32 -> nat) returns (s: Selection)
    ensures s == Select(candidates, price, priceMin, tie)
    ensures DistinctIds(candidates) ==> forall c :: c in candidates ==>
      (c.id in s.ready <==> price * Mult(c.action) * c.share < 10_000 * (c.work + 1))
  {
    hide PriceOf, Conflicts, Mult, IsReady;
    if DistinctIds(candidates) {
      forall c | c in candidates
        ensures c.id in Select(candidates, price, priceMin, tie).ready
          <==> price * Mult(c.action) * c.share < 10_000 * (c.work + 1)
      {
        ReadyExactly(candidates, price, priceMin, tie, c);
      }
    }
    var ready := [];
    for k := 0 to |candidates|
      invariant ready == Ready(candidates[..k], price)
    {
      assert candidates[..k + 1][..k] == candidates[..k];
      if IsReady(price, candidates[k]) {
        ready := ready + [candidates[k]];
      } else {
        assert ready + [] == ready;
      }
    }
    assert candidates[..|candidates|] == candidates;
    var ranked := Sort(ready, Ranking(tie));
    var picks: seq<nat> := [];
    PicksInRange(ranked, |ranked|);
    var k := 0;
    while k < |ranked|
      invariant k <= |ranked| && picks == Picks(ranked, k)
    {
      if |picks| == PER_EPOCH {
        SlotsStayFull(ranked, k, |ranked|);
        break;
      }
      if !Clashes(ranked, picks, ranked[k]) {
        picks := picks + [k];
      }
      k := k + 1;
    }
    s := Selection(Ids(ranked), IdsAt(ranked, picks), NextPrice(price, priceMin, |ranked|, |picks|));
  }

  lemma {:induction false} SlotsStayFull(ranked: seq<Candidate>, k: nat, n: nat)
    requires k <= n <= |ranked| && |Picks(ranked, k)| == PER_EPOCH
    ensures Picks(ranked, n) == Picks(ranked, k)
  {
    if k < n {
      SlotsStayFull(ranked, k, n - 1);
    }
  }

  // ---- What is selected ----

  /** Up to three, best first, no two in conflict; and whoever is left out conflicts with a better one that is
      taken, or finds all slots taken by better ones. */
  ghost predicate Greedy(ranked: seq<Candidate>, picks: seq<nat>, n: nat)
    requires n <= |ranked|
  {
    && |picks| <= PER_EPOCH
    && (forall k :: 0 <= k < |picks| ==> picks[k] < n)
    && (forall j, k :: 0 <= j < k < |picks| ==> picks[j] < picks[k])
    && (forall j, k :: 0 <= j < k < |picks| ==> !Conflicts(ranked[picks[j]].action, ranked[picks[k]].action))
    && (forall i :: 0 <= i < n ==> i in picks || LeftOut(ranked, picks, i))
  }

  ghost predicate LeftOut(ranked: seq<Candidate>, picks: seq<nat>, i: nat)
    requires i < |ranked|
  {
    || (|picks| == PER_EPOCH && forall k :: 0 <= k < |picks| ==> picks[k] < i)
    || (exists k :: 0 <= k < |picks| && picks[k] < i && Conflicts(ranked[picks[k]].action, ranked[i].action))
  }

  lemma {:induction false} PicksAreGreedy(ranked: seq<Candidate>, n: nat)
    requires n <= |ranked|
    ensures Greedy(ranked, Picks(ranked, n), n)
  {
    hide Conflicts, Greedy, Clashes;
    if n == 0 {
      NobodyPicked(ranked);
    } else {
      PicksAreGreedy(ranked, n - 1);
      GreedyNext(ranked, Picks(ranked, n - 1), n - 1);
    }
  }

  lemma NobodyPicked(ranked: seq<Candidate>)
    ensures Greedy(ranked, [], 0)
  {
  }

  lemma GreedyNext(ranked: seq<Candidate>, picks: seq<nat>, n: nat)
    requires n < |ranked| && Greedy(ranked, picks, n)
    ensures Greedy(ranked,
      if |picks| == PER_EPOCH || Clashes(ranked, picks, ranked[n]) then picks else picks + [n], n + 1)
  {
    if |picks| == PER_EPOCH || Clashes(ranked, picks, ranked[n]) {
      NextLeftOut(ranked, picks, n);
    } else {
      NextTaken(ranked, picks, n);
    }
  }

  lemma NextLeftOut(ranked: seq<Candidate>, picks: seq<nat>, n: nat)
    requires n < |ranked| && Greedy(ranked, picks, n)
    requires |picks| == PER_EPOCH || Clashes(ranked, picks, ranked[n])
    ensures Greedy(ranked, picks, n + 1)
  {
    hide Conflicts;
    assert LeftOut(ranked, picks, n);
  }

  lemma NextTaken(ranked: seq<Candidate>, picks: seq<nat>, n: nat)
    requires n < |ranked| && Greedy(ranked, picks, n) && |picks| < PER_EPOCH && !Clashes(ranked, picks, ranked[n])
    ensures Greedy(ranked, picks + [n], n + 1)
  {
    hide Conflicts, LeftOut;
    StillLeftOut(ranked, picks, n);
  }

  /** Who was left out before another is taken still is. */
  lemma StillLeftOut(ranked: seq<Candidate>, picks: seq<nat>, n: nat)
    requires n < |ranked| && Greedy(ranked, picks, n) && |picks| < PER_EPOCH
    ensures forall i :: 0 <= i < n + 1 ==> i in picks + [n] || LeftOut(ranked, picks + [n], i)
  {
    hide Conflicts;
    var more := picks + [n];
    forall i | 0 <= i < n + 1 && i !in more
      ensures LeftOut(ranked, more, i)
    {
      assert more[|picks|] == n;
      assert i in picks ==> i in more;
      assert i in picks || LeftOut(ranked, picks, i);
      var k :| 0 <= k < |picks| && picks[k] < i && Conflicts(ranked[picks[k]].action, ranked[i].action);
      assert more[k] == picks[k];
    }
  }

  /** There is one way to be greedy. */
  lemma GreedyIsUnique(ranked: seq<Candidate>, p: seq<nat>, q: seq<nat>)
    requires Greedy(ranked, p, |ranked|) && Greedy(ranked, q, |ranked|)
    ensures p == q
  {
    hide Conflicts;
    var n := if |p| < |q| then |p| else |q|;
    GreedyPrefix(ranked, p, q, n);
    if |p| <= |q| {
      NoMore(ranked, p, q);
    } else {
      NoMore(ranked, q, p);
    }
    assert p == p[..n] && q == q[..n];
  }

  lemma {:induction false} GreedyPrefix(ranked: seq<Candidate>, p: seq<nat>, q: seq<nat>, n: nat)
    requires Greedy(ranked, p, |ranked|) && Greedy(ranked, q, |ranked|) && n <= |p| && n <= |q|
    ensures p[..n] == q[..n]
  {
    hide Conflicts;
    if n > 0 {
      GreedyPrefix(ranked, p, q, n - 1);
      NotSooner(ranked, p, q, n - 1);
      NotSooner(ranked, q, p, n - 1);
      assert p[..n] == p[..n - 1] + [p[n - 1]] && q[..n] == q[..n - 1] + [q[n - 1]];
    }
  }

  /** After the same picks, the next one cannot come later than another could. */
  lemma NotSooner(ranked: seq<Candidate>, p: seq<nat>, q: seq<nat>, n: nat)
    requires Greedy(ranked, p, |ranked|) && Greedy(ranked, q, |ranked|) && n < |p| && n < |q| && p[..n] == q[..n]
    ensures q[n] <= p[n]
  {
    hide Conflicts;
    SameBelow(p, q, n);
    assert p[n] in q || LeftOut(ranked, q, p[n]);
  }

  lemma SameBelow(p: seq<nat>, q: seq<nat>, n: nat)
    requires n <= |p| && n <= |q| && p[..n] == q[..n]
    ensures forall k :: 0 <= k < n ==> p[k] == q[k]
  {
    forall k | 0 <= k < n
      ensures p[k] == q[k]
    {
      assert p[..n][k] == q[..n][k];
    }
  }

  lemma NoMore(ranked: seq<Candidate>, p: seq<nat>, q: seq<nat>)
    requires Greedy(ranked, p, |ranked|) && Greedy(ranked, q, |ranked|) && |p| <= |q| && p[..|p|] == q[..|p|]
    ensures |p| == |q|
  {
    hide Conflicts;
    SameBelow(p, q, |p|);
    assert |p| < |q| ==> q[|p|] in p || LeftOut(ranked, p, q[|p|]);
  }

  // ---- The order of the candidates does not matter ----

  lemma {:induction false} ReadyCounts(candidates: seq<Candidate>, price: nat, c: Candidate)
    ensures multiset(Ready(candidates, price))[c] == if IsReady(price, c) then multiset(candidates)[c] else 0
  {
    hide IsReady;
    if candidates != [] {
      var n := |candidates| - 1;
      ReadyCounts(candidates[..n], price, c);
      assert candidates == candidates[..n] + [candidates[n]];
    }
  }

  lemma ReadyPermutes(a: seq<Candidate>, b: seq<Candidate>, price: nat)
    requires multiset(a) == multiset(b)
    ensures multiset(Ready(a, price)) == multiset(Ready(b, price))
    ensures forall c :: c in Ready(a, price) ==> c in a
  {
    hide IsReady, Ready;
    forall c: Candidate
      ensures multiset(Ready(a, price))[c] == multiset(Ready(b, price))[c] && (c in Ready(a, price) ==> c in a)
    {
      ReadyCounts(a, price, c);
      ReadyCounts(b, price, c);
      assert c in Ready(a, price) <==> c in multiset(Ready(a, price));
      assert c in a <==> c in multiset(a);
    }
  }

  /** Any arrangement of the candidates gives the same ready list, the same miracles and the same price, so the
      server and every watcher decide alike. */
  lemma OrderDoesNotMatter(a: seq<Candidate>, b: seq<Candidate>, price: nat, priceMin: nat, tie: Id32 -> nat)
    requires multiset(a) == multiset(b) && Distinguished(tie, a) && Positive(a)
    ensures Select(a, price, priceMin, tie) == Select(b, price, priceMin, tie)
  {
    hide Ready, Sort, Picks, Ids, IdsAt, Orders;
    ReadyPermutes(a, b, price);
    RankIsAnOrder(tie, Ready(a, price));
    SortUnique(Ready(a, price), Ready(b, price), Ranking(tie));
  }

  /** A wish's work covers its price, rounded down, exactly when one unit more would exceed the price in full. */
  lemma CoveredExactly(price: nat, c: Candidate)
    ensures IsReady(price, c) <==> price * Mult(c.action) * c.share < 10_000 * (c.work + 1)
  {
    var full := price * Mult(c.action) * c.share;
    assert full == 10_000 * (full / 10_000) + full % 10_000;
  }

  /** No smaller share of its price covered; with an equal one no later tiebreak. */
  predicate RanksBefore(tie: Id32 -> nat, a: Candidate, b: Candidate) {
    && b.work * (Mult(a.action) * a.share) <= a.work * (Mult(b.action) * b.share)
    && (b.work * (Mult(a.action) * a.share) == a.work * (Mult(b.action) * b.share) ==> tie(a.id) <= tie(b.id))
  }

  lemma OutranksInNumbers(tie: Id32 -> nat, a: Candidate, b: Candidate)
    requires Outranks(tie, a, b)
    ensures RanksBefore(tie, a, b)
  {
  }

  lemma FewPicks(ranked: seq<Candidate>)
    ensures |Picks(ranked, |ranked|)| <= 3
  {
    PicksAreGreedy(ranked, |ranked|);
  }

  /** Who is ready does not need the ranking: more work never takes a wish off the list, and a higher price never
      puts one on. */
  lemma ReadinessGrows(price: nat, lower: nat, c: Candidate, more: nat)
    requires lower <= price && IsReady(price, c)
    ensures IsReady(lower, c) && IsReady(price, c.(work := c.work + more))
  {
    hide Mult;
    CoveredExactly(price, c);
    CoveredExactly(lower, c);
    MulMonotone(lower, price, Mult(c.action));
    MulMonotone(lower * Mult(c.action), price * Mult(c.action), c.share);
  }

  predicate DistinctIds(candidates: seq<Candidate>) {
    forall j, k :: 0 <= j < k < |candidates| ==> candidates[j].id != candidates[k].id
  }

  /** Of candidates with ids of their own, exactly those whose work covers their price are on the ready list. */
  lemma {:induction false} ReadyExactly(candidates: seq<Candidate>, price: nat, priceMin: nat, tie: Id32 -> nat, c: Candidate)
    requires DistinctIds(candidates) && c in candidates
    ensures c.id in Select(candidates, price, priceMin, tie).ready
      <==> price * Mult(c.action) * c.share < 10_000 * (c.work + 1)
  {
    hide IsReady, Ready, Sort, Picks, Mult, Ranking;
    var ready := Ready(candidates, price);
    var ranked := Sort(ready, Ranking(tie));
    SortPermutes(ready, Ranking(tie));
    SameElements(ranked, ready);
    ReadyCounts(candidates, price, c);
    CoveredExactly(price, c);
    assert c in ready <==> multiset(ready)[c] > 0;
    assert c in multiset(candidates);
    if c in ready {
      var k :| 0 <= k < |ranked| && ranked[k] == c;
      assert Ids(ranked)[k] == c.id;
    }
    if c.id in Ids(ranked) {
      var k :| 0 <= k < |ranked| && Ids(ranked)[k] == c.id;
      assert ranked[k] in ready;
      ReadyPermutes(candidates, candidates, price);
      OnlyOneOfId(candidates, ranked[k], c);
    }
  }

  lemma OnlyOneOfId(candidates: seq<Candidate>, a: Candidate, b: Candidate)
    requires DistinctIds(candidates) && a in candidates && b in candidates && a.id == b.id
    ensures a == b
  {
    var j :| 0 <= j < |candidates| && candidates[j] == a;
    var k :| 0 <= k < |candidates| && candidates[k] == b;
  }

  /** What is selected: the ready wishes, all of them, in rank order; and of these the greedy choice, which is
      the only one of its kind. */
  lemma SelectionIsGreedy(candidates: seq<Candidate>, price: nat, priceMin: nat, tie: Id32 -> nat)
    requires Distinguished(tie, candidates) && Positive(candidates)
    ensures var ranked := Sort(Ready(candidates, price), Ranking(tie));
      var s := Select(candidates, price, priceMin, tie);
      && (forall c :: multiset(ranked)[c] ==
            if price * Mult(c.action) * c.share < 10_000 * (c.work + 1) then multiset(candidates)[c] else 0)
      && s.ready == Ids(ranked) && |s.selected| <= 3
      && (forall i, j :: 0 <= i < j < |ranked| ==> RanksBefore(tie, ranked[i], ranked[j]))
      && (forall picks :: Greedy(ranked, picks, |ranked|) ==> (|s.selected| == |picks| &&
            forall k :: 0 <= k < |picks| ==> s.selected[k] == ranked[picks[k]].id))
      && Greedy(ranked, Picks(ranked, |ranked|), |ranked|)
  {
    hide Ready, Sort, Picks, Greedy, Outranks, Orders, RanksBefore, IsReady, Mult;
    var ready := Ready(candidates, price);
    var ranked := Sort(ready, Ranking(tie));
    ReadyPermutes(candidates, candidates, price);
    RankIsAnOrder(tie, ready);
    SortPermutes(ready, Ranking(tie));
    SortSorts(ready, Ranking(tie));
    SortedRanks(tie, ranked);
    forall i, j | 0 <= i < j < |ranked|
      ensures RanksBefore(tie, ranked[i], ranked[j])
    {
      OutranksInNumbers(tie, ranked[i], ranked[j]);
    }
    forall c: Candidate
      ensures multiset(ranked)[c] ==
        if price * Mult(c.action) * c.share < 10_000 * (c.work + 1) then multiset(candidates)[c] else 0
    {
      ReadyCounts(candidates, price, c);
      CoveredExactly(price, c);
    }
    FewPicks(ranked);
    PicksAreGreedy(ranked, |ranked|);
    PicksInRange(ranked, |ranked|);
    forall picks | Greedy(ranked, picks, |ranked|)
      ensures picks == Picks(ranked, |ranked|)
    {
      GreedyIsUnique(ranked, picks, Picks(ranked, |ranked|));
    }
  }

  lemma SortedRanks(tie: Id32 -> nat, ranked: seq<Candidate>)
    requires Sorted(Ranking(tie), ranked)
    ensures forall i, j :: 0 <= i < j < |ranked| ==> Outranks(tie, ranked[i], ranked[j])
  {
    forall i, j | 0 <= i < j < |ranked|
      ensures Outranks(tie, ranked[i], ranked[j])
    {
      assert Ranking(tie)(ranked[i], ranked[j]);
    }
  }

  /** The price never falls below its floor; it rises by an eighth, rounded down, exactly when wishes are left over,
      and falls by an eighth, rounded down, or to the floor exactly when slots are left empty. */
  lemma PriceMoves(price: nat, priceMin: nat, ready: nat, selected: nat)
    requires price >= priceMin && selected <= ready && selected <= PER_EPOCH
    ensures var next := NextPrice(price, priceMin, ready, selected);
      && next >= priceMin
      && (next > price <==> ready > selected && price >= 8)
      && (next < price ==> ready == selected < PER_EPOCH)
      && (ready == selected == PER_EPOCH ==> next == price)
      && (ready > selected ==> 8 * (next - price) <= price < 8 * (next - price + 1))
      && (ready == selected < 3 ==> 8 * (price - next) <= price && (next == priceMin || price < 8 * (price - next + 1)))
      && (ready == selected == 3 ==> next == price)
  {
  }
}
