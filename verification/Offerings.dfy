/** The miracles of an epoch, core/src/miracle.rs:575-600: each is checked when its turn comes. */
module Offerings {
  import opened Acts
  import opened Applying
  import opened Cohesion
  import opened Environment
  import opened Genomes
  import opened Grid
  import opened Hashing
  import opened Kinship
  import opened Miracles
  import opened Options
  import opened Possible
  import opened Revivals
  import opened Sorting
  import opened Steadiness
  import opened TickState
  import opened WorldState

  datatype Outcomes = Outcomes(applied: seq<nat>, refused: seq<(nat, Refusal)>)

  /** Cooldowns that have not run out. */
  function StillRunning(cooldowns: seq<Cooldown>, epoch: nat): seq<Cooldown> {
    if cooldowns == [] then []
    else
      var last := cooldowns[|cooldowns| - 1];
      StillRunning(cooldowns[..|cooldowns| - 1], epoch) + if last.until > epoch then [last] else []
  }

  lemma {:induction false} RunningOnes(cooldowns: seq<Cooldown>, epoch: nat, c: Cooldown)
    ensures c in StillRunning(cooldowns, epoch) <==> c in cooldowns && c.until > epoch
  {
    if cooldowns != [] {
      var n := |cooldowns| - 1;
      RunningOnes(cooldowns[..n], epoch, c);
      assert cooldowns == cooldowns[..n] + [cooldowns[n]];
    }
  }

  /** Dropping the cooldowns that have run out changes no check. */
  lemma SameChecks(rules: Ruleset, s: Situation, m: Miracle)
    ensures Check(rules, s.(cooldowns := StillRunning(s.cooldowns, s.epoch)), m) == Check(rules, s, m)
  {
    hide Chebyshev, StillRunning, EffectNear, Nearby, RoomAround, OriginOf, EditedGenome;
    var left := StillRunning(s.cooldowns, s.epoch);
    match m {
      case Weather(center, _) => SameRegionCools(rules, s.epoch, s.cooldowns, left, center);
      case Migrate(id, _, _) => SameKeyCools(s.epoch, s.cooldowns, left, MigrateCooldown, id);
      case Revive(fromMuseum, id, _, _) => SameKeyCools(s.epoch, s.cooldowns, left, KindOf(fromMuseum), id);
    }
  }

  lemma SameKeyCools(epoch: nat, all: seq<Cooldown>, left: seq<Cooldown>, kind: u8, key: nat)
    requires left == StillRunning(all, epoch)
    ensures KeyCools(epoch, left, kind, key) <==> KeyCools(epoch, all, kind, key)
  {
    hide StillRunning;
    forall c: Cooldown
      ensures c in left <==> c in all && c.until > epoch
    {
      RunningOnes(all, epoch, c);
    }
    if KeyCools(epoch, all, kind, key) {
      var k :| 0 <= k < |all| && Running(all[k], kind, epoch) && all[k].key == key;
      assert all[k] in left;
    }
    if KeyCools(epoch, left, kind, key) {
      var k :| 0 <= k < |left| && Running(left[k], kind, epoch) && left[k].key == key;
      assert left[k] in left;
    }
  }

  lemma SameRegionCools(rules: Ruleset, epoch: nat, all: seq<Cooldown>, left: seq<Cooldown>, center: nat)
    requires left == StillRunning(all, epoch)
    ensures RegionCools(rules, epoch, left, center) <==> RegionCools(rules, epoch, all, center)
  {
    hide StillRunning, Chebyshev;
    forall c: Cooldown
      ensures c in left <==> c in all && c.until > epoch
    {
      RunningOnes(all, epoch, c);
    }
    if RegionCools(rules, epoch, all, center) {
      var k :| 0 <= k < |all| && Running(all[k], WeatherCooldown, epoch)
        && Chebyshev(rules.size, all[k].key, center) <= 2 * rules.miracles.weatherRadius;
      assert all[k] in left;
    }
    if RegionCools(rules, epoch, left, center) {
      var k :| 0 <= k < |left| && Running(left[k], WeatherCooldown, epoch)
        && Chebyshev(rules.size, left[k].key, center) <= 2 * rules.miracles.weatherRadius;
      assert left[k] in left;
    }
  }

  // ---- The order of application ----

  /** Weather, then relocations, then revivals. */
  function Precedence(m: Miracle): nat {
    match m case Weather(_, _) => 0 case Migrate(_, _, _) => 1 case Revive(_, _, _, _) => 2
  }

  /** Miracle i is applied before miracle j: by kind, and within a kind in the order given. */
  predicate Before(miracles: seq<Miracle>, i: nat, j: nat) {
    i < |miracles| && j < |miracles|
    && (Precedence(miracles[i]) < Precedence(miracles[j])
        || (Precedence(miracles[i]) == Precedence(miracles[j]) && i <= j))
  }

  /** Whatever is applied before weather is weather, whatever comes after a revival is one, and within a kind the order
      given counts. */
  lemma KindsInOrder(miracles: seq<Miracle>, i: nat, j: nat)
    requires Before(miracles, i, j)
    ensures miracles[j].Weather? ==> miracles[i].Weather?
    ensures miracles[i].Revive? ==> miracles[j].Revive?
    ensures (miracles[i].Weather? <==> miracles[j].Weather?) && (miracles[i].Revive? <==> miracles[j].Revive?) ==> i <= j
  {
  }

  function UpTo(n: nat): seq<nat> {
    if n == 0 then [] else UpTo(n - 1) + [n - 1]
  }

  lemma {:induction false} UpToHas(n: nat, i: nat)
    ensures i in UpTo(n) <==> i < n
    ensures |UpTo(n)| == n && (i < n ==> UpTo(n)[i] == i)
  {
    if n > 0 {
      UpToHas(n - 1, i);
    }
  }

  lemma BeforeOrders(miracles: seq<Miracle>, places: seq<nat>)
    requires forall i: nat :: i in places ==> i < |miracles|
    ensures Orders((i: nat, j: nat) => Before(miracles, i, j), places)
  {
  }

  method Arrange(miracles: seq<Miracle>) returns (order: seq<nat>)
    ensures multiset(order) == multiset(UpTo(|miracles|))
    ensures forall a, b :: 0 <= a < b < |order| ==> Before(miracles, order[a], order[b])
  {
    hide Precedence, Orders;
    var before := (i: nat, j: nat) => Before(miracles, i, j);
    var places: seq<nat> := [];
    for i := 0 to |miracles|
      invariant places == UpTo(i)
    {
      places := places + [i];
    }
    forall i: nat
      ensures i in places <==> i < |miracles|
    {
      UpToHas(|miracles|, i);
    }
    order := Sort(places, before);
    SortPermutes(places, before);
    BeforeOrders(miracles, places);
    SortSorts(places, before);
    forall a, b | 0 <= a < b < |order|
      ensures Before(miracles, order[a], order[b])
    {
      assert before(order[a], order[b]);
    }
  }

  // ---- All miracles ----

  /** One turn: a miracle that passes its check is done, one that does not changes nothing. */
  ghost predicate Turn(rules: Ruleset, m: Miracle, a: Situation, b: Situation)
    requires rules.ticksPerEpoch > 0
  {
    if Check(rules, a, m) == None then Done(rules, m, a, b) else b == a
  }

  /** The states the world passes through. */
  ghost predicate Trace(rules: Ruleset, miracles: seq<Miracle>, order: seq<nat>, states: seq<Situation>)
    requires rules.ticksPerEpoch > 0
  {
    && |states| >= 1 && |states| - 1 <= |order|
    && (forall j :: 0 <= j < |states| - 1 ==>
          order[j] < |miracles| && Turn(rules, miracles[order[j]], states[j], states[j + 1]))
  }

  /** What was applied and what was refused in the first k turns, and why. */
  function OutcomesOf(rules: Ruleset, miracles: seq<Miracle>, order: seq<nat>, states: seq<Situation>, k: nat): Outcomes
    requires k <= |order| && k <= |states| && forall j :: 0 <= j < k ==> order[j] < |miracles|
  {
    if k == 0 then Outcomes([], [])
    else
      var before := OutcomesOf(rules, miracles, order, states, k - 1);
      match Check(rules, states[k - 1], miracles[order[k - 1]])
      case None => before.(applied := before.applied + [order[k - 1]])
      case Some(why) => before.(refused := before.refused + [(order[k - 1], why)])
  }

  /** Every miracle is reported once, by what its demands decide when its turn comes. */
  ghost predicate Reported(rules: Ruleset, miracles: seq<Miracle>, order: seq<nat>, states: seq<Situation>, k: nat, out: Outcomes)
    requires k <= |order| && k <= |states| && forall j :: 0 <= j < k ==> order[j] < |miracles|
  {
    && |out.applied| + |out.refused| == k
    && (forall j :: 0 <= j < k ==>
          (order[j] in out.applied <==> Decides(Demands(rules, states[j], miracles[order[j]]), None)))
    && (forall j, why :: 0 <= j < k ==>
          ((order[j], why) in out.refused <==> Decides(Demands(rules, states[j], miracles[order[j]]), Some(why))))
  }

  lemma {:induction false} OutcomesReported(rules: Ruleset, miracles: seq<Miracle>, order: seq<nat>, states: seq<Situation>, k: nat)
    requires k <= |order| && k <= |states| && forall j :: 0 <= j < k ==> order[j] < |miracles|
    requires forall i, j :: 0 <= i < j < |order| ==> order[i] != order[j]
    ensures Reported(rules, miracles, order, states, k, OutcomesOf(rules, miracles, order, states, k))
    ensures forall i :: i in OutcomesOf(rules, miracles, order, states, k).applied ==> i in order[..k]
    ensures forall p :: p in OutcomesOf(rules, miracles, order, states, k).refused ==> p.0 in order[..k]
  {
    hide Check, Demands, Decides;
    if k > 0 {
      OutcomesReported(rules, miracles, order, states, k - 1);
      CheckExactly(rules, states[k - 1], miracles[order[k - 1]]);
      assert order[..k] == order[..k - 1] + [order[k - 1]];
      assert order[k - 1] !in order[..k - 1];
    }
  }

  /** All can be done as the world is, and no two get in each other's way. */
  ghost predicate Compatible(rules: Ruleset, s: Situation, miracles: seq<Miracle>) {
    && (forall i :: 0 <= i < |miracles| ==> Check(rules, s, miracles[i]) == None)
    && (forall i, j :: 0 <= i < |miracles| && 0 <= j < |miracles| && i != j ==> Apart(rules, miracles[i], miracles[j]))
  }

  /** An arrangement names each place once. */
  lemma Arranged(order: seq<nat>, n: nat)
    requires multiset(order) == multiset(UpTo(n))
    ensures |order| == n && (forall j :: 0 <= j < |order| ==> order[j] < n)
    ensures forall j, k :: 0 <= j < k < |order| ==> order[j] != order[k]
  {
    SameElements(order, UpTo(n));
    UpToHas(n, 0);
    forall j | 0 <= j < |order|
      ensures order[j] < n
    {
      assert order[j] in UpTo(n);
      UpToHas(n, order[j]);
    }
    forall j, k | 0 <= j < k < |order|
      ensures order[j] != order[k]
    {
      if order[j] == order[k] {
        Twice(order, j, k);
        OnceInUpTo(n, order[j]);
      }
    }
  }

  lemma {:induction false} OnceInUpTo(n: nat, x: nat)
    ensures multiset(UpTo(n))[x] <= 1
  {
    if n > 0 {
      OnceInUpTo(n - 1, x);
      UpToHas(n - 1, n - 1);
      assert (n - 1) !in multiset(UpTo(n - 1));
    }
  }

  /** Compatible miracles stay possible all the way. */
  lemma {:induction false} StayPossible(rules: Ruleset, miracles: seq<Miracle>, order: seq<nat>, states: seq<Situation>, k: nat)
    requires rules.ticksPerEpoch > 0
    requires Trace(rules, miracles, order, states) && multiset(order) == multiset(UpTo(|miracles|))
    requires Compatible(rules, states[0], miracles) && k < |states|
    ensures forall j :: k <= j < |order| ==> order[j] < |miracles| && Check(rules, states[k], miracles[order[j]]) == None
  {
    hide Check, Apart, Done;
    Arranged(order, |miracles|);
    if k > 0 {
      StayPossible(rules, miracles, order, states, k - 1);
      var m := miracles[order[k - 1]];
      assert Turn(rules, m, states[k - 1], states[k]);
      forall j | k <= j < |order|
        ensures order[j] < |miracles| && Check(rules, states[k], miracles[order[j]]) == None
      {
        DoneLeavesApart(rules, m, states[k - 1], states[k], miracles[order[j]]);
      }
    }
  }

  /** The ledger's rule suffices for the world: compatible miracles are all applied. */
  lemma {:induction false} CompatibleAllApplied(rules: Ruleset, miracles: seq<Miracle>, order: seq<nat>,
      states: seq<Situation>, k: nat)
    requires rules.ticksPerEpoch > 0
    requires Trace(rules, miracles, order, states) && multiset(order) == multiset(UpTo(|miracles|))
    requires Compatible(rules, states[0], miracles) && k <= |order| && k <= |states|
    ensures forall j :: 0 <= j < |order| ==> order[j] < |miracles|
    ensures OutcomesOf(rules, miracles, order, states, k) == Outcomes(order[..k], [])
  {
    hide Check, Apart, Done, Trace, Compatible;
    Arranged(order, |miracles|);
    if k > 0 {
      CompatibleAllApplied(rules, miracles, order, states, k - 1);
      StayPossible(rules, miracles, order, states, k - 1);
      assert order[..k] == order[..k - 1] + [order[k - 1]];
    }
  }

  lemma TraceNext(rules: Ruleset, miracles: seq<Miracle>, order: seq<nat>, states: seq<Situation>, b: Situation)
    requires rules.ticksPerEpoch > 0 && Trace(rules, miracles, order, states) && |states| - 1 < |order|
    requires order[|states| - 1] < |miracles| && Turn(rules, miracles[order[|states| - 1]], states[|states| - 1], b)
    ensures Trace(rules, miracles, order, states + [b])
  {
    hide Turn;
  }

  lemma {:induction false} OutcomesNext(rules: Ruleset, miracles: seq<Miracle>, order: seq<nat>, states: seq<Situation>,
      b: Situation, k: nat)
    requires k <= |order| && k <= |states| && forall j :: 0 <= j < k ==> order[j] < |miracles|
    ensures OutcomesOf(rules, miracles, order, states + [b], k) == OutcomesOf(rules, miracles, order, states, k)
  {
    hide Check;
    if k > 0 {
      OutcomesNext(rules, miracles, order, states, b, k - 1);
    }
  }

  // ---- What miracles keep ----

  /** Whatever is revived has a valid genome and an id above zero: every stored genome is valid, in the museum,
      in the spore bank and among the living clades that may enter the museum; nothing is asked where nothing
      can be revived. */
  predicate Fertile(rules: Ruleset, s: Situation) {
    rules.miracles.reviveCount > 0 ==>
      s.nextOrganismId > 0 && StockValid(rules, s.clades, s.museum) && SporesValid(rules, s.sporeBank)
  }

  lemma FertileHolds(rules: Ruleset, s: Situation, m: Miracle)
    requires Fertile(rules, s) && m.Revive?
    ensures ReviveHolds(rules, s, m)
  {
    hide IsValid, Nearby, KeyCools, RoomAround, Distance, ReferencesValid;
    if Check(rules, s, m) == None && rules.miracles.reviveCount > 0 {
      RevivedIsValid(rules, s.epoch, s.museum, s.sporeBank, m);
    }
  }

  /** A miracle keeps stored genomes valid, clades together and effects running. */
  lemma DoneKeeps(rules: Ruleset, m: Miracle, a: Situation, b: Situation)
    requires Sound(rules) && rules.ticksPerEpoch > 0 && Check(rules, a, m) == None && Done(rules, m, a, b)
    requires Numbered(a.clades, a.nextCladeId)
    ensures Fertile(rules, a) ==> Fertile(rules, b)
    ensures Cohesive(rules, a.organisms, a.clades) ==> Cohesive(rules, b.organisms, b.clades)
    ensures Lasting(a.effects) ==> Lasting(b.effects)
  {
    hide Cohesive, ReferencesValid, MuseumValid, SporesValid, WateredBy, WeatherRest, Sound, Check, Planted, Sprouted,
      WithNewClade, OriginOf, EditedGenome, Relocated, Chosen, IsValid, Numbered, Lasting, WeatherOf;
    match m {
      case Weather(center, rain) =>
        if Lasting(a.effects) {
          WeatherLasts(rules, a.effects, center, rain);
        }
      case Migrate(id, from, to) =>
        var movers, moved :| ResettledBy(rules, a.cells, a.organisms, b.organisms, id, from, to, movers, moved);
        RelocatedSameKin(rules, a.cells, a.organisms, b.organisms, movers, moved, to);
        SameRefsHere(a.clades);
        SameKinCohere(rules, a.organisms, a.clades, b.organisms, b.clades);
      case Revive(_, _, _, _) =>
        var origin, genome, placed :| RevivedBy(rules, a, b, m, origin, genome, placed);
        NumberedNext(a.clades, a.nextCladeId, origin.parent, genome, a.epoch, |placed|);
        FoundingCoheres(rules, a.cells, a.organisms, placed, a.nextOrganismId, 0, a.clades, a.nextCladeId, origin.parent,
          genome, a.epoch);
        if Fertile(rules, a) && rules.miracles.reviveCount > 0 {
          RevivedIsValid(rules, a.epoch, a.museum, a.sporeBank, m);
        } else if Fertile(rules, a) {
        }
    }
  }

  lemma SteadyNumbered(w: World, rules: Ruleset)
    requires Steady(w, rules)
    ensures Numbered(w.clades, w.nextCladeId) && Sound(rules) && rules.ticksPerEpoch > 0
  {
    hide Tally;
    forall id | id in w.clades
      ensures id < w.nextCladeId
    {
      assert CladeFine(id, w.clades[id], w.nextCladeId, w.organisms);
    }
  }

  lemma SteadyTicks(w: World, rules: Ruleset)
    requires Steady(w, rules)
    ensures rules.ticksPerEpoch > 0
  {
  }

  /** Cooldowns that have run out are dropped; then each miracle is checked in its turn and applied or
      refused. */
  method Apply(w: World, rules: Ruleset, miracles: seq<Miracle>)
    returns (out: Outcomes, ghost order: seq<nat>, ghost states: seq<Situation>)
    requires Steady(w, rules) && Fertile(rules, SituationOf(w))
    modifies w`cells, w`effects, w`organisms, w`clades, w`nextOrganismId, w`nextCladeId, w`cooldowns, w`births
    ensures (forall i :: 0 <= i < |miracles| ==> !miracles[i].Migrate?) ==>
      |w.organisms| >= |old(w.organisms)| && w.births == Added(old(w.births), w.organisms[|old(w.organisms)|..])
    ensures Steady(w, rules) && Fertile(rules, SituationOf(w)) && rules.ticksPerEpoch > 0
    ensures old(Cohesive(rules, w.organisms, w.clades)) ==> Cohesive(rules, w.organisms, w.clades)
    ensures old(Lasting(w.effects)) ==> Lasting(w.effects)
    ensures multiset(order) == multiset(UpTo(|miracles|))
    ensures forall a, b :: 0 <= a < b < |order| ==> Before(miracles, order[a], order[b])
    ensures Trace(rules, miracles, order, states) && |states| == |miracles| + 1 == |order| + 1
    ensures states[0] == old(SituationOf(w)).(cooldowns := StillRunning(old(w.cooldowns), w.epoch))
    ensures states[|miracles|] == SituationOf(w)
    ensures (forall j :: 0 <= j < |order| ==> order[j] < |miracles|)
      && out == OutcomesOf(rules, miracles, order, states, |miracles|)
      && Reported(rules, miracles, order, states, |miracles|, out)
  {
    hide Steady, Peopled, CellsFine, RiftsFine, AllStand, Lasting, Check, Turn, Before, StillRunning, Trace, Cohesive,
      Fertile, Added, Reported;
    AddedNone(w.births);
    assert w.organisms[|w.organisms|..] == [];
    SteadyTicks(w, rules);
    SteadyIsPeopleOnGround(w, rules);
    FertileAnyCooldowns(rules, SituationOf(w), StillRunning(w.cooldowns, w.epoch));
    w.cooldowns := StillRunning(w.cooldowns, w.epoch);
    SteadyIsPeopleOnGround(w, rules);
    var arranged := Arrange(miracles);
    order := arranged;
    Arranged(order, |miracles|);
    states := [SituationOf(w)];
    assert Trace(rules, miracles, order, states) by {
      TraceStart(rules, miracles, order, SituationOf(w));
    }
    out := Outcomes([], []);
    for k := 0 to |arranged|
      invariant Steady(w, rules) && |states| == k + 1 && Trace(rules, miracles, order, states)
      invariant Fertile(rules, SituationOf(w)) && (old(Lasting(w.effects)) ==> Lasting(w.effects))
      invariant old(Cohesive(rules, w.organisms, w.clades)) ==> Cohesive(rules, w.organisms, w.clades)
      invariant (forall i :: 0 <= i < |miracles| ==> !miracles[i].Migrate?) ==>
        |w.organisms| >= |old(w.organisms)| && w.births == Added(old(w.births), w.organisms[|old(w.organisms)|..])
      invariant states[0] == old(SituationOf(w)).(cooldowns := StillRunning(old(w.cooldowns), w.epoch))
      invariant states[k] == SituationOf(w) && out == OutcomesOf(rules, miracles, order, states, k)
    {
      var verdict := TakeTurn(w, rules, miracles[arranged[k]], old(w.births), |old(w.organisms)|);
      if verdict == None {
        out := out.(applied := out.applied + [arranged[k]]);
      } else {
        out := out.(refused := out.refused + [(arranged[k], verdict.value)]);
      }
      TraceNext(rules, miracles, order, states, SituationOf(w));
      OutcomesNext(rules, miracles, order, states, SituationOf(w), k + 1);
      states := states + [SituationOf(w)];
    }
    OutcomesReported(rules, miracles, order, states, |miracles|);
  }

  /** A miracle's turn: it is done if it passes its check. */
  method TakeTurn(w: World, rules: Ruleset, m: Miracle, ghost first: map<nat, Birth>, ghost n: nat)
    returns (verdict: Option<Refusal>)
    requires Steady(w, rules) && Fertile(rules, SituationOf(w)) && rules.ticksPerEpoch > 0
    modifies w`cells, w`effects, w`organisms, w`clades, w`nextOrganismId, w`nextCladeId, w`cooldowns, w`births
    ensures Steady(w, rules) && Fertile(rules, SituationOf(w))
    ensures verdict == Check(rules, old(SituationOf(w)), m)
    ensures Turn(rules, m, old(SituationOf(w)), SituationOf(w))
    ensures old(Cohesive(rules, w.organisms, w.clades)) ==> Cohesive(rules, w.organisms, w.clades)
    ensures old(Lasting(w.effects)) ==> Lasting(w.effects)
    ensures !m.Migrate? && |old(w.organisms)| >= n && old(w.births) == Added(first, old(w.organisms)[n..]) ==>
      |w.organisms| >= n && w.births == Added(first, w.organisms[n..])
  {
    hide Steady, Lasting, Check, Done, Cohesive, Fertile, ReviveHolds, Added, OnlyFoundlings;
    ghost var a, births := SituationOf(w), w.births;
    verdict := Check(rules, SituationOf(w), m);
    if verdict == None {
      SteadyNumbered(w, rules);
      if m.Revive? {
        FertileHolds(rules, a, m);
      }
      ApplyOne(w, rules, m);
      DoneKeeps(rules, m, a, SituationOf(w));
      if !m.Migrate? && |a.organisms| >= n {
        DoneOnGround(rules, m, a, SituationOf(w));
        BirthsNext(first, n, m, a, births, SituationOf(w), w.births);
      }
    }
  }

  lemma FertileAnyCooldowns(rules: Ruleset, s: Situation, cooldowns: seq<Cooldown>)
    ensures Fertile(rules, s.(cooldowns := cooldowns)) <==> Fertile(rules, s)
  {
  }

  lemma TraceStart(rules: Ruleset, miracles: seq<Miracle>, order: seq<nat>, a: Situation)
    requires rules.ticksPerEpoch > 0
    ensures Trace(rules, miracles, order, [a])
  {
  }

  /** Compatible miracles: none is refused because of another. */
  lemma NoneRefused(rules: Ruleset, miracles: seq<Miracle>, s: Situation, order: seq<nat>, states: seq<Situation>)
    requires rules.ticksPerEpoch > 0 && Compatible(rules, s, miracles)
    requires multiset(order) == multiset(UpTo(|miracles|)) && Trace(rules, miracles, order, states)
    requires |states| == |miracles| + 1 && states[0] == s.(cooldowns := StillRunning(s.cooldowns, s.epoch))
    ensures |order| == |miracles| && forall j :: 0 <= j < |order| ==> order[j] < |miracles|
    ensures OutcomesOf(rules, miracles, order, states, |miracles|) == Outcomes(order, [])
  {
    hide Check, Apart, Trace, StillRunning;
    Arranged(order, |miracles|);
    assert Compatible(rules, states[0], miracles) by {
      forall i | 0 <= i < |miracles|
        ensures Check(rules, states[0], miracles[i]) == None
      {
        SameChecks(rules, s, miracles[i]);
      }
    }
    CompatibleAllApplied(rules, miracles, order, states, |miracles|);
    assert order[..|miracles|] == order;
  }

  // ---- What miracles do to places ----

  /** Nobody moved, and whoever is new came from nowhere. */
  predicate OnlyFoundlings(cells: seq<Cell>, next: nat, os: seq<Organism>, os': seq<Organism>, next': nat) {
    && |os| <= |os'| && os'[..|os|] == os && next' == next + |os'| - |os|
    && Foundlings(cells, next, os'[|os|..])
  }

  lemma DoneOnGround(rules: Ruleset, m: Miracle, a: Situation, b: Situation)
    requires rules.ticksPerEpoch > 0 && Done(rules, m, a, b)
    ensures SameGround(a.cells, b.cells) && b.nextOrganismId >= a.nextOrganismId
    ensures m.Weather? ==> b.organisms == a.organisms
    ensures !m.Migrate? ==> OnlyFoundlings(a.cells, a.nextOrganismId, a.organisms, b.organisms, b.nextOrganismId)
  {
    hide WeatherOf, WeatherRest, MigrateRest, ReviveRest, OriginOf, EditedGenome, Planted, Resettled, WithNewClade;
    SameGroundHere(a.cells);
    match m {
      case Weather(center, rain) => WateredGround(rules, center, rain, a.cells, b.cells);
      case Migrate(_, _, _) =>
      case Revive(_, _, _, _) =>
        var origin, genome, placed :| RevivedBy(rules, a, b, m, origin, genome, placed);
        SproutsAreFoundlings(rules, a.cells, placed, a.nextOrganismId, 0, a.nextCladeId, genome);
        assert (a.organisms + placed)[|a.organisms|..] == placed;
    }
  }

  /** Whoever a miracle puts on the list is on the register. */
  lemma BirthsNext(first: map<nat, Birth>, n: nat, m: Miracle, a: Situation, births: map<nat, Birth>, b: Situation,
      births': map<nat, Birth>)
    requires OnlyFoundlings(a.cells, a.nextOrganismId, a.organisms, b.organisms, b.nextOrganismId)
    requires n <= |a.organisms| && (!m.Revive? ==> b.organisms == a.organisms)
    requires births' == if m.Revive? then Added(births, b.organisms[|a.organisms|..]) else births
    ensures |b.organisms| >= n
    ensures births == Added(first, a.organisms[n..]) ==> births' == Added(first, b.organisms[n..])
  {
    hide Added, Foundlings;
    AddedMore(first, a.organisms[n..], b.organisms[|a.organisms|..]);
    assert b.organisms[n..] == a.organisms[n..] + b.organisms[|a.organisms|..];
  }

  lemma FoundlingsThrough(cells: seq<Cell>, cells': seq<Cell>, a: seq<Organism>, next: nat, b: seq<Organism>, next': nat,
      c: seq<Organism>, next'': nat)
    requires OnlyFoundlings(cells, next, a, b, next') && OnlyFoundlings(cells', next', b, c, next'')
    requires SameGround(cells, cells')
    ensures OnlyFoundlings(cells, next, a, c, next'')
  {
    var first, second := b[|a|..], c[|b|..];
    assert c[..|a|] == b[..|a|];
    assert c[|a|..] == first + second by {
      assert c == c[..|b|] + second;
    }
    assert Foundlings(cells, next', second);
    MoreFoundlings(cells, next, first, second);
  }

  /** Without relocations nobody's place is touched, and the ground is what it was. */
  lemma {:induction false} TraceOnGround(rules: Ruleset, miracles: seq<Miracle>, order: seq<nat>, states: seq<Situation>,
      k: nat)
    requires rules.ticksPerEpoch > 0 && Trace(rules, miracles, order, states) && k < |states|
    ensures SameGround(states[0].cells, states[k].cells) && states[k].nextOrganismId >= states[0].nextOrganismId
    ensures (forall i :: 0 <= i < |miracles| ==> !miracles[i].Migrate?) ==>
      OnlyFoundlings(states[0].cells, states[0].nextOrganismId, states[0].organisms, states[k].organisms,
        states[k].nextOrganismId)
  {
    hide Check, Done, OnlyFoundlings, SameGround, Trace;
    SameGroundHere(states[0].cells);
    NobodyFound(states[0].cells, states[0].nextOrganismId, states[0].organisms);
    if k > 0 {
      TraceOnGround(rules, miracles, order, states, k - 1);
      TraceTurn(rules, miracles, order, states, k - 1);
      var m, a, b := miracles[order[k - 1]], states[k - 1], states[k];
      if Check(rules, a, m) == None {
        DoneOnGround(rules, m, a, b);
        SameGroundThrough(states[0].cells, a.cells, b.cells);
        if forall i :: 0 <= i < |miracles| ==> !miracles[i].Migrate? {
          FoundlingsThrough(states[0].cells, a.cells, states[0].organisms, states[0].nextOrganismId, a.organisms,
            a.nextOrganismId, b.organisms, b.nextOrganismId);
        }
      }
    }
  }

  lemma TraceTurn(rules: Ruleset, miracles: seq<Miracle>, order: seq<nat>, states: seq<Situation>, j: nat)
    requires rules.ticksPerEpoch > 0 && Trace(rules, miracles, order, states) && j < |states| - 1
    ensures j < |order| && order[j] < |miracles| && Turn(rules, miracles[order[j]], states[j], states[j + 1])
  {
  }

  lemma NobodyFound(cells: seq<Cell>, next: nat, os: seq<Organism>)
    ensures OnlyFoundlings(cells, next, os, os, next)
  {
  }
}
