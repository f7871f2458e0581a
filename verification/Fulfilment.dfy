/** The ledger's conflicts are enough for the world: wishes that the ledger selects together do not get in
    each other's way when they are applied (protocol/src/ledger.rs:23-76 against core/src/miracle.rs:351-407). */
module Fulfilment {
  import opened Applying
  import opened Grid
  import opened Ledger
  import opened Miracles
  import opened Offerings
  import opened Options
  import opened WorldState
  import W = Wishes

  function CellOf(size: Size, p: W.Place): Option<nat> {
    At(size, p.x, p.y)
  }

  /** The miracle a wish for weather or a relocation asks for, if its places are on the map. */
  function MiracleFor(size: Size, a: W.Action): Option<Miracle> {
    match a
    case Weather(at, kind) =>
      (match CellOf(size, at) case None => None case Some(c) => Some(Miracle.Weather(c, kind == W.Rain)))
    case Migrate(id, from, to) =>
      (match (CellOf(size, from), CellOf(size, to))
       case (Some(c), Some(d)) => Some(Miracle.Migrate(id, c, d))
       case _ => None)
    case _ => None
  }

  lemma FarIsChebyshev(size: Size, p: W.Place, q: W.Place)
    requires CellOf(size, p).Some? && CellOf(size, q).Some?
    ensures Chebyshev(size, CellOf(size, p).value, CellOf(size, q).value) == Far(p, q)
  {
  }

  /** The map is at most seven cells wide and high: on it any two places are within six cells. */
  predicate Small(size: Size) {
    size.w <= 7 && size.h <= 7
  }

  lemma NoConflictIsApart(rules: Ruleset, a: W.Action, b: W.Action)
    requires MiracleFor(rules.size, a).Some? && MiracleFor(rules.size, b).Some? && !Conflicts(a, b)
    requires rules.miracles.weatherRadius <= 3 || Small(rules.size)
    ensures Apart(rules, MiracleFor(rules.size, a).value, MiracleFor(rules.size, b).value)
  {
    hide Chebyshev;
    if a.Weather? && b.Weather? {
      FarIsChebyshev(rules.size, a.at, b.at);
    }
    if a.Migrate? && b.Migrate? {
      FarIsChebyshev(rules.size, a.to, b.to);
    }
  }

  /** Weather and relocations on the map, each possible as the world is, no two in conflict for the ledger; and
      the states that the world passes through when they are applied. */
  ghost predicate Fair(rules: Ruleset, s: Situation, actions: seq<W.Action>, miracles: seq<Miracle>, order: seq<nat>,
      states: seq<Situation>)
    requires rules.ticksPerEpoch > 0
  {
    && |actions| == |miracles|
    && (forall i :: 0 <= i < |miracles| ==>
          MiracleFor(rules.size, actions[i]) == Some(miracles[i]) && Check(rules, s, miracles[i]) == None)
    && (forall i, j :: 0 <= i < j < |actions| ==> !Conflicts(actions[i], actions[j]))
    && multiset(order) == multiset(UpTo(|miracles|)) && Trace(rules, miracles, order, states)
    && |states| == |miracles| + 1 && states[0] == s.(cooldowns := StillRunning(s.cooldowns, s.epoch))
  }

  ghost predicate AllApplied(rules: Ruleset, miracles: seq<Miracle>, order: seq<nat>, states: seq<Situation>) {
    && |order| == |miracles| <= |states| && (forall j :: 0 <= j < |order| ==> order[j] < |miracles|)
    && OutcomesOf(rules, miracles, order, states, |miracles|) == Outcomes(order, [])
  }

  /** What the ledger lets go together is never refused. */
  ghost predicate LedgerSuffices(rules: Ruleset)
    requires rules.ticksPerEpoch > 0
  {
    forall s, actions, miracles, order, states :: Fair(rules, s, actions, miracles, order, states) ==>
      AllApplied(rules, miracles, order, states)
  }

  lemma FairAllApplied(rules: Ruleset, s: Situation, actions: seq<W.Action>, miracles: seq<Miracle>, order: seq<nat>,
      states: seq<Situation>)
    requires rules.ticksPerEpoch > 0 && (rules.miracles.weatherRadius <= 3 || Small(rules.size))
    requires Fair(rules, s, actions, miracles, order, states)
    ensures AllApplied(rules, miracles, order, states)
  {
    hide Check, Apart, Conflicts, MiracleFor, Trace, StillRunning, OutcomesOf, Small;
    forall i, j | 0 <= i < |miracles| && 0 <= j < |miracles| && i != j
      ensures Apart(rules, miracles[i], miracles[j])
    {
      ConflictsAreMutual(actions[i], actions[j]);
      NoConflictIsApart(rules, actions[i], actions[j]);
    }
    NoneRefused(rules, miracles, s, order, states);
  }

  // ---- Where the ledger does not suffice ----

  /** A place seven cells from the corner, on a map that is not small. */
  function Yonder(size: Size): W.Place {
    if size.w > 7 then W.Place(7, 0) else W.Place(0, 7)
  }

  const CORNER: W.Place := W.Place(0, 0)

  /** A world with nothing in it. */
  function Bare(size: Size): Situation {
    Situation(0, seq(Cells(size), _ => Cell(Forest, 0, 0, 0, NoRift)), [], [], map[], [], [], [], 1, 1)
  }

  function Rained(rules: Ruleset, s: Situation, center: nat): Situation
    requires rules.ticksPerEpoch > 0
  {
    s.(cells := seq(|s.cells|, c requires 0 <= c < |s.cells| =>
         if Chebyshev(rules.size, center, c) <= rules.miracles.weatherRadius then Watered(rules, true, s.cells[c]) else s.cells[c]),
       effects := s.effects + [WeatherOf(rules, center, true)], cooldowns := s.cooldowns + [WeatherRest(rules, center, s.epoch)])
  }

  lemma RainedIsDone(rules: Ruleset, s: Situation, center: nat)
    requires rules.ticksPerEpoch > 0
    ensures Done(rules, Miracle.Weather(center, true), s, Rained(rules, s, center))
  {
    hide Chebyshev, Watered;
  }

  lemma YonderIsThere(size: Size)
    requires !Small(size) && Cells(size) > 0
    ensures CellOf(size, CORNER).Some? && CellOf(size, Yonder(size)).Some? && Far(CORNER, Yonder(size)) == 7
    ensures Chebyshev(size, CellOf(size, CORNER).value, CellOf(size, Yonder(size)).value) == 7
    ensures CellOf(size, CORNER).value < Cells(size) && CellOf(size, Yonder(size)).value < Cells(size)
  {
    assert size.w > 0 && size.h > 0;
    FarIsChebyshev(size, CORNER, Yonder(size));
  }

  /** Two rains seven cells apart: possible each, free of conflict for the ledger, and the second one is refused
      when their squares overlap. */
  lemma WideRainsOverlap(rules: Ruleset, s: Situation, actions: seq<W.Action>, miracles: seq<Miracle>,
      states: seq<Situation>)
    requires rules.ticksPerEpoch > 0 && rules.miracles.weatherRadius >= 4 && !Small(rules.size) && Cells(rules.size) > 0
    requires s == Bare(rules.size) && actions == [W.Weather(CORNER, W.Rain), W.Weather(Yonder(rules.size), W.Rain)]
    requires CellOf(rules.size, CORNER).Some? && CellOf(rules.size, Yonder(rules.size)).Some?
    requires miracles == [Miracle.Weather(CellOf(rules.size, CORNER).value, true),
      Miracle.Weather(CellOf(rules.size, Yonder(rules.size)).value, true)]
    requires states == [s, Rained(rules, s, miracles[0].center), Rained(rules, s, miracles[0].center)]
    ensures Fair(rules, s, actions, miracles, [0, 1], states)
    ensures OutcomesOf(rules, miracles, [0, 1], states, 2) == Outcomes([0], [(1, Overlaps)])
  {
    hide Chebyshev, Rained, Far, CellOf, Check, Trace, Yonder, Bare;
    YonderIsThere(rules.size);
    BareIsBare(rules.size);
    RainedOverlaps(rules, s, miracles[0].center, miracles[1].center);
    OneRefused(rules, s, miracles, states);
    TwoOutcomes(rules, miracles, states);
    ZeroOne();
  }

  lemma BareIsBare(size: Size)
    ensures |Bare(size).cells| == Cells(size) && Bare(size).effects == [] && Bare(size).cooldowns == []
    ensures Bare(size).(cooldowns := StillRunning([], 0)) == Bare(size) && Bare(size).epoch == 0
  {
  }

  lemma ZeroOne()
    ensures UpTo(2) == [0, 1]
  {
    UpToHas(2, 0);
    UpToHas(2, 1);
  }

  lemma OneRefused(rules: Ruleset, s: Situation, miracles: seq<Miracle>, states: seq<Situation>)
    requires rules.ticksPerEpoch > 0 && |miracles| == 2 && miracles[0].Weather? && miracles[0].rain
    requires states == [s, Rained(rules, s, miracles[0].center), Rained(rules, s, miracles[0].center)]
    requires Check(rules, s, miracles[0]) == None && Check(rules, states[1], miracles[1]) != None
    ensures Trace(rules, miracles, [0, 1], states)
  {
    hide Rained, Check, Done;
    RainedIsDone(rules, s, miracles[0].center);
    assert Turn(rules, miracles[0], states[0], states[1]) && Turn(rules, miracles[1], states[1], states[2]);
  }

  lemma RainedOverlaps(rules: Ruleset, s: Situation, a: nat, b: nat)
    requires rules.ticksPerEpoch > 0 && rules.miracles.weatherRadius >= 4 && s.effects == [] && s.cooldowns == []
    requires a < |s.cells| && b < |s.cells| && Chebyshev(rules.size, a, b) == 7
    ensures Check(rules, s, Miracle.Weather(a, true)) == Check(rules, s, Miracle.Weather(b, true)) == None
    ensures Check(rules, Rained(rules, s, a), Miracle.Weather(b, true)) == Some(Overlaps)
  {
    hide Chebyshev, Watered, WeatherRest;
    var effects := Rained(rules, s, a).effects;
    assert effects[0] == WeatherOf(rules, a, true);
    assert EffectNear(rules, effects, b);
  }

  lemma TwoOutcomes(rules: Ruleset, miracles: seq<Miracle>, states: seq<Situation>)
    requires |miracles| == 2 && |states| == 3
    requires Check(rules, states[0], miracles[0]) == None && Check(rules, states[1], miracles[1]) == Some(Overlaps)
    ensures OutcomesOf(rules, miracles, [0, 1], states, 2) == Outcomes([0], [(1, Overlaps)])
  {
    hide Check;
    assert OutcomesOf(rules, miracles, [0, 1], states, 0) == Outcomes([], []);
    assert OutcomesOf(rules, miracles, [0, 1], states, 1) == Outcomes([0], []);
  }

  /** The ledger's rule suffices for the world exactly when rains reach at most three cells, or the map is so
      small that no two of them go together. */
  lemma LedgerSufficesExactly(rules: Ruleset)
    requires rules.ticksPerEpoch > 0 && Cells(rules.size) > 0
    ensures LedgerSuffices(rules) <==> rules.miracles.weatherRadius <= 3 || Small(rules.size)
  {
    hide Fair, AllApplied, Small, Chebyshev, CellOf;
    if rules.miracles.weatherRadius <= 3 || Small(rules.size) {
      forall s, actions, miracles, order, states | Fair(rules, s, actions, miracles, order, states)
        ensures AllApplied(rules, miracles, order, states)
      {
        FairAllApplied(rules, s, actions, miracles, order, states);
      }
    } else {
      YonderIsThere(rules.size);
      var s := Bare(rules.size);
      var actions := [W.Weather(CORNER, W.Rain), W.Weather(Yonder(rules.size), W.Rain)];
      var miracles := [Miracle.Weather(CellOf(rules.size, CORNER).value, true),
        Miracle.Weather(CellOf(rules.size, Yonder(rules.size)).value, true)];
      var after := Rained(rules, s, miracles[0].center);
      WideRainsOverlap(rules, s, actions, miracles, [s, after, after]);
      RefusedOne(rules, miracles, [s, after, after]);
    }
  }

  lemma RefusedOne(rules: Ruleset, miracles: seq<Miracle>, states: seq<Situation>)
    requires |miracles| == 2 && |states| == 3
    requires OutcomesOf(rules, miracles, [0, 1], states, 2) == Outcomes([0], [(1, Overlaps)])
    ensures !AllApplied(rules, miracles, [0, 1], states)
  {
  }
}
