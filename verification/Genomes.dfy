/** The genome, core/src/genome.rs: validity, the distance in mutation steps, mutation, and the crossing
    of two genomes of core/src/miracle.rs. */
module Genomes {
  import opened Gifts
  import opened Hashing
  import opened Options
  import opened Randomness

  const TRAIT_COUNT: nat := 6
  const LANES: nat := 8
  const MOVEMENT: nat := 0
  const PERCEPTION: nat := 1
  const PLANT: nat := 2
  const HUNTING: nat := 3
  const DEFENSE: nat := 4
  const FERTILITY: nat := 5
  const TRAIT_MAX: nat := 8
  const HABITAT_GENERALIST: nat := 5
  const DISPERSAL_MAX: nat := 3
  const BOLDNESS_MAX: nat := 3
  const HUE_RANGE: nat := 360

  /** Six traits, then the two lanes that only later rules use (size and longevity). */
  type Lanes = t: seq<nat> | |t| == LANES witness [0, 0, 0, 0, 0, 0, 0, 0]

  datatype Genome = Genome(lanes: Lanes, habitat: nat, dispersal: nat, boldness: nat, hue: nat, gifts: nat)

  function Sum(t: seq<nat>): nat {
    if t == [] then 0 else t[0] + Sum(t[1..])
  }

  predicate InRange(t: seq<nat>) {
    forall k :: 0 <= k < |t| ==> t[k] <= TRAIT_MAX
  }

  predicate IsValid(g: Genome, budget: nat) {
    InRange(g.lanes) && Sum(g.lanes) == budget
    && g.habitat <= HABITAT_GENERALIST && g.dispersal <= DISPERSAL_MAX && g.boldness <= BOLDNESS_MAX
    && g.hue < HUE_RANGE && g.gifts < 64
  }

  /** A genome is valid exactly when its lanes, none above eight, make up the budget and its genes are in range. */
  lemma ValidExactly(g: Genome, budget: nat)
    ensures var t := g.lanes;
      IsValid(g, budget) <==>
        && (forall k :: 0 <= k < 8 ==> t[k] <= 8) && t[0] + t[1] + t[2] + t[3] + t[4] + t[5] + t[6] + t[7] == budget
        && g.habitat <= 5 && g.dispersal <= 3 && g.boldness <= 3 && g.hue <= 359 && g.gifts <= 63
  {
    var t := g.lanes;
    SumFrom(t, 0);
    SumFrom(t, 2);
    SumFrom(t, 4);
    SumFrom(t, 6);
    hide Sum;
    assert t[0..] == t;
  }

  lemma SumFrom(t: Lanes, k: nat)
    requires k <= 6
    ensures Sum(t[k..]) == t[k] + t[k + 1] + Sum(t[k + 2..])
    ensures Sum(t[8..]) == 0
  {
    assert t[k..][1..] == t[k + 1..] && t[k + 1..][1..] == t[k + 2..];
  }

  // ---- Distance ----

  function AbsDiff(a: nat, b: nat): nat {
    if a < b then b - a else a - b
  }

  function Gap(a: seq<nat>, b: seq<nat>): nat
    requires |a| == |b|
  {
    if a == [] then 0 else AbsDiff(a[0], b[0]) + Gap(a[1..], b[1..])
  }

  /** Mutation steps between two genomes. */
  function Distance(a: Genome, b: Genome): nat {
    Gap(a.lanes, b.lanes) / 2
  }

  lemma {:induction false} GapFrom(a: seq<nat>, b: seq<nat>, k: nat)
    requires |a| == |b| && k < |a|
    ensures Gap(a[k..], b[k..]) == AbsDiff(a[k], b[k]) + Gap(a[k + 1..], b[k + 1..])
  {
    assert a[k..][1..] == a[k + 1..] && b[k..][1..] == b[k + 1..];
  }

  method ComputeDistance(a: Genome, b: Genome) returns (d: nat)
    ensures d == Distance(a, b)
  {
    var total := 0;
    for k := 0 to LANES
      invariant total + Gap(a.lanes[k..], b.lanes[k..]) == Gap(a.lanes, b.lanes)
    {
      GapFrom(a.lanes, b.lanes, k);
      total := total + AbsDiff(a.lanes[k], b.lanes[k]);
    }
    d := total / 2;
  }

  /** The sum of the differences is even exactly as the sum of the sums is. */
  lemma {:induction false} GapParity(a: seq<nat>, b: seq<nat>)
    requires |a| == |b|
    ensures exists h: nat :: Gap(a, b) + 2 * h == Sum(a) + Sum(b)
  {
    if a != [] {
      GapParity(a[1..], b[1..]);
      var h: nat :| Gap(a[1..], b[1..]) + 2 * h == Sum(a[1..]) + Sum(b[1..]);
      var low := if a[0] < b[0] then a[0] else b[0];
      assert Gap(a, b) + 2 * (h + low) == Sum(a) + Sum(b);
    } else {
      assert Gap(a, b) + 2 * 0 == Sum(a) + Sum(b);
    }
  }

  lemma {:induction false} GapTriangle(a: seq<nat>, b: seq<nat>, c: seq<nat>)
    requires |a| == |b| == |c|
    ensures Gap(a, c) <= Gap(a, b) + Gap(b, c)
  {
    if a != [] {
      GapTriangle(a[1..], b[1..], c[1..]);
    }
  }

  lemma {:induction false} GapSymmetric(a: seq<nat>, b: seq<nat>)
    requires |a| == |b|
    ensures Gap(a, b) == Gap(b, a)
  {
    if a != [] {
      GapSymmetric(a[1..], b[1..]);
    }
  }

  lemma {:induction false} GapZero(a: seq<nat>, b: seq<nat>)
    requires |a| == |b|
    ensures Gap(a, b) == 0 <==> a == b
  {
    if a != [] {
      GapZero(a[1..], b[1..]);
      assert a == [a[0]] + a[1..] && b == [b[0]] + b[1..];
    }
  }

  /** Halving loses nothing exactly when the sums are both even or both odd. */
  lemma EvenExactly(a: Genome, b: Genome)
    ensures 2 * Distance(a, b) == Gap(a.lanes, b.lanes) <==> Sum(a.lanes) % 2 == Sum(b.lanes) % 2
  {
    GapParity(a.lanes, b.lanes);
    var h: nat :| Gap(a.lanes, b.lanes) + 2 * h == Sum(a.lanes) + Sum(b.lanes);
  }

  /** The distance keeps the triangle exactly unless both sides lose a half step that the way between does not
      save. */
  lemma TriangleExactly(a: Genome, b: Genome, c: Genome)
    ensures Distance(a, c) <= Distance(a, b) + Distance(b, c) <==>
      !(Sum(a.lanes) % 2 != Sum(b.lanes) % 2 && Sum(b.lanes) % 2 != Sum(c.lanes) % 2
        && Gap(a.lanes, c.lanes) == Gap(a.lanes, b.lanes) + Gap(b.lanes, c.lanes))
  {
    EvenExactly(a, b);
    EvenExactly(b, c);
    EvenExactly(a, c);
    GapTriangle(a.lanes, b.lanes, c.lanes);
  }

  /** Two genomes are no step apart exactly when their traits are equal or one point apart. */
  lemma NoStepExactly(a: Genome, b: Genome)
    ensures Distance(a, b) == 0 <==> a.lanes == b.lanes || Gap(a.lanes, b.lanes) == 1
  {
    GapZero(a.lanes, b.lanes);
  }

  /** Between genomes whose sums are all even or all odd, as those of one budget are, the distance is a metric of
      their traits. */
  lemma DistanceIsAMetric(a: Genome, b: Genome, c: Genome)
    requires Sum(a.lanes) % 2 == Sum(b.lanes) % 2 == Sum(c.lanes) % 2
    ensures 2 * Distance(a, b) == Gap(a.lanes, b.lanes)
    ensures Distance(a, b) == 0 <==> a.lanes == b.lanes
    ensures Distance(a, b) == Distance(b, a)
    ensures Distance(a, c) <= Distance(a, b) + Distance(b, c)
  {
    EvenExactly(a, b);
    NoStepExactly(a, b);
    TriangleExactly(a, b, c);
    GapSymmetric(a.lanes, b.lanes);
  }

  // ---- One trait up or down ----

  lemma {:induction false} SumUpdate(t: seq<nat>, k: nat, v: nat)
    requires k < |t|
    ensures Sum(t[k := v]) + t[k] == Sum(t) + v
  {
    if k == 0 {
      assert t[k := v][1..] == t[1..];
    } else {
      assert t[k := v][1..] == t[1..][k - 1 := v];
      SumUpdate(t[1..], k - 1, v);
    }
  }

  lemma {:induction false} GapUpdate(t: seq<nat>, k: nat, v: nat)
    requires k < |t|
    ensures Gap(t, t[k := v]) == AbsDiff(t[k], v)
  {
    if k == 0 {
      assert t[k := v][1..] == t[1..];
      GapZero(t[1..], t[1..]);
    } else {
      assert t[k := v][1..] == t[1..][k - 1 := v];
      GapUpdate(t[1..], k - 1, v);
    }
  }

  /** A point moved onto lane i from lane j. */
  function Moved(t: Lanes, i: nat, j: nat): Lanes
    requires i < LANES && j < LANES && i != j && t[j] > 0
  {
    t[i := t[i] + 1][j := t[j] - 1]
  }

  predicate CanMove(t: Lanes, i: nat, j: nat)
    requires i < LANES && j < LANES
  {
    i != j && t[i] < TRAIT_MAX && t[j] > 0
  }

  lemma MovedIsOneStep(t: Lanes, i: nat, j: nat)
    requires i < LANES && j < LANES && CanMove(t, i, j)
    ensures Sum(Moved(t, i, j)) == Sum(t)
    ensures Gap(t, Moved(t, i, j)) == 2
    ensures InRange(t) ==> InRange(Moved(t, i, j))
  {
    var up := t[i := t[i] + 1];
    SumUpdate(t, i, t[i] + 1);
    SumUpdate(up, j, t[j] - 1);
    GapMoved(t, i, j);
  }

  lemma {:induction false} GapMoved(t: seq<nat>, i: nat, j: nat)
    requires i < |t| && j < |t| && i != j && t[j] > 0
    ensures Gap(t, t[i := t[i] + 1][j := t[j] - 1]) == 2
  {
    var moved := t[i := t[i] + 1][j := t[j] - 1];
    if i == 0 {
      assert moved[1..] == t[1..][j - 1 := t[j] - 1];
      GapUpdate(t[1..], j - 1, t[j] - 1);
    } else if j == 0 {
      assert moved[1..] == t[1..][i - 1 := t[i] + 1];
      GapUpdate(t[1..], i - 1, t[i] + 1);
    } else {
      assert moved[1..] == t[1..][i - 1 := t[i] + 1][j - 1 := t[j] - 1];
      GapMoved(t[1..], i - 1, j - 1);
    }
  }

  // ---- Mutation ----

  /** Gifts are lost in worlds with patrons only. */
  datatype MutationRules = MutationRules(mutationPpm: nat, behaviorPpm: nat, huePpm: nat, eight: bool, giftLoss: Option<nat>)

  function LanesInPlay(eight: bool): nat {
    if eight then LANES else TRAIT_COUNT
  }

  /** The pairs of lanes between which a point can move. */
  predicate MovablePair(t: Lanes, count: nat, p: (nat, nat))
    requires count <= LANES
  {
    p.0 < count && p.1 < count && CanMove(t, p.0, p.1)
  }

  /** One pair is listed before another. */
  predicate PairBefore(p: (nat, nat), q: (nat, nat)) {
    p.0 < q.0 || (p.0 == q.0 && p.1 < q.1)
  }

  /** All pairs between which a point can move, each once and in order. */
  ghost predicate AllPairs(t: Lanes, count: nat, pairs: seq<(nat, nat)>)
    requires count <= LANES
  {
    && (forall p :: p in pairs <==> p.0 < count && p.1 < count && p.0 != p.1 && t[p.0] < 8 && t[p.1] > 0)
    && (forall a, b :: 0 <= a < b < |pairs| ==> PairBefore(pairs[a], pairs[b]))
  }

  method MovablePairs(t: Lanes, count: nat) returns (pairs: seq<(nat, nat)>)
    requires count <= LANES
    ensures forall p :: p in pairs <==> MovablePair(t, count, p)
    ensures AllPairs(t, count, pairs)
  {
    pairs := [];
    for i := 0 to count
      invariant forall p :: p in pairs <==> p.0 < i && MovablePair(t, count, p)
      invariant forall a, b :: 0 <= a < b < |pairs| ==> PairBefore(pairs[a], pairs[b])
      invariant forall a :: 0 <= a < |pairs| ==> PairBefore(pairs[a], (i, 0))
    {
      ghost var before := pairs;
      for j := 0 to count
        invariant forall p :: p in pairs <==> (p in before || (p.0 == i && p.1 < j && MovablePair(t, count, p)))
        invariant forall a, b :: 0 <= a < b < |pairs| ==> PairBefore(pairs[a], pairs[b])
        invariant forall a :: 0 <= a < |pairs| ==> PairBefore(pairs[a], (i, j))
      {
        if CanMove(t, i, j) {
          pairs := pairs + [(i, j)];
        }
      }
    }
  }

  /** One step up or down, bouncing off the ends of 0..=max. */
  function Nudge(value: nat, max: nat, up: bool): (r: nat)
    requires value <= max && max > 0
    ensures r <= max && AbsDiff(r, value) == 1
  {
    if up then (if value < max then value + 1 else value - 1)
    else if value == 0 then 1 else value - 1
  }

  /** The two hues are at most 8 apart around the circle. */
  predicate HueNear(a: nat, b: nat) {
    AbsDiff(a, b) <= 8 || AbsDiff(a, b) >= HUE_RANGE - 8
  }

  /** What mutation makes of a genome under its draws: a point moved, one behavioral gene another, the hue turned, and each gift
      kept unless its draw loses it. */
  ghost predicate Mutant(parent: Genome, g: Genome, rules: MutationRules, rng: Rng, tick: u32, subject: u64) {
    && (if ChancePpm(rng, tick, MutationChance, subject, rules.mutationPpm)
            && exists p :: MovablePair(parent.lanes, LanesInPlay(rules.eight), p)
        then exists pairs :: PairDrawn(parent.lanes, LanesInPlay(rules.eight), rng, tick, subject, pairs, g.lanes)
        else g.lanes == parent.lanes)
    && (if ChancePpm(rng, tick, BehaviorChance, subject, rules.behaviorPpm)
        then OneGeneChanged(parent, g, rng, tick, subject)
        else g.habitat == parent.habitat && g.dispersal == parent.dispersal && g.boldness == parent.boldness)
    && (if ChancePpm(rng, tick, HueChance, subject, rules.huePpm)
        then parent.hue < HUE_RANGE && g.hue == Turned(parent.hue, Below(rng, tick, HueStep, subject, 16))
        else g.hue == parent.hue)
    && (rules.giftLoss == None ==> g.gifts == parent.gifts)
    && (rules.giftLoss.Some? ==> forall j :: 0 <= j < GIFTS ==>
          (Holds(g.gifts, j) <==> Holds(parent.gifts, j) && !Loses(rng, tick, subject, rules.giftLoss.value, j)))
  }

  /** Which gene is drawn evenly, and so is its value: another habitat, or a step up or down that turns back at an end. */
  ghost predicate OneGeneChanged(parent: Genome, g: Genome, rng: Rng, tick: u32, subject: u64) {
    var up := Below(rng, tick, BehaviorValue, subject, 2) == 0;
    match Below(rng, tick, BehaviorGene, subject, 3)
    case 0 =>
      && g.habitat == OtherHabitat(parent.habitat, Below(rng, tick, BehaviorValue, subject, HABITAT_GENERALIST))
      && g.dispersal == parent.dispersal && g.boldness == parent.boldness
    case 1 => g.habitat == parent.habitat && Stepped(parent.dispersal, g.dispersal, 3, up) && g.boldness == parent.boldness
    case _ => g.habitat == parent.habitat && g.dispersal == parent.dispersal && Stepped(parent.boldness, g.boldness, 3, up)
  }

  /** One step in the direction drawn, and in the other one at the end of the range. */
  predicate Stepped(value: nat, r: nat, max: nat, up: bool) {
    r == value + (if (up && value < max) || (!up && value == 0) then 1 else -1)
  }

  /** A child's genome: at most one point moved, and only if the draw says so and some point can move; at
      most one behavioral gene changed; the hue drifted by at most 8; each gift kept unless its draw loses it. */
  method Mutate(parent: Genome, rules: MutationRules, rng: Rng, tick: u32, subject: u64, budget: nat)
    returns (g: Genome)
    requires IsValid(parent, budget)
    ensures IsValid(g, budget)
    ensures Distance(parent, g) <= 1
    ensures g.lanes != parent.lanes <==> (ChancePpm(rng, tick, MutationChance, subject, rules.mutationPpm)
      && exists p :: MovablePair(parent.lanes, LanesInPlay(rules.eight), p))
    ensures !ChancePpm(rng, tick, BehaviorChance, subject, rules.behaviorPpm) ==>
      g.habitat == parent.habitat && g.dispersal == parent.dispersal && g.boldness == parent.boldness
    ensures ChancePpm(rng, tick, BehaviorChance, subject, rules.behaviorPpm) ==>
      || (g.habitat != parent.habitat && g.dispersal == parent.dispersal && g.boldness == parent.boldness)
      || (g.habitat == parent.habitat && AbsDiff(g.dispersal, parent.dispersal) == 1 && g.boldness == parent.boldness)
      || (g.habitat == parent.habitat && g.dispersal == parent.dispersal && AbsDiff(g.boldness, parent.boldness) == 1)
    ensures if ChancePpm(rng, tick, HueChance, subject, rules.huePpm)
      then g.hue != parent.hue && HueNear(g.hue, parent.hue) else g.hue == parent.hue
    ensures rules.giftLoss == None ==> g.gifts == parent.gifts
    ensures rules.giftLoss.Some? ==> forall j :: 0 <= j < GIFTS ==>
      (Holds(g.gifts, j) <==> Holds(parent.gifts, j) && !Loses(rng, tick, subject, rules.giftLoss.value, j))
    ensures Mutant(parent, g, rules, rng, tick, subject)
  {
    var lanes := MutateTraits(parent.lanes, rules, rng, tick, subject);
    var h := Behave(parent, rules, rng, tick, subject);
    Behaved(parent, h, rules, rng, tick, subject);
    hide Distance, Sum, InRange, ChancePpm, Holds, Loses, OneGeneChanged, PairDrawn;
    g := h.(lanes := lanes, hue := Drift(parent.hue, rules, rng, tick, subject));
    if g.gifts != 0 && rules.giftLoss.Some? {
      var left := LoseGifts(g.gifts, rng, tick, subject, rules.giftLoss.value);
      g := g.(gifts := left);
    } else if rules.giftLoss.Some? {
      NobodyHolds();
    }
    WithinOneStep(parent, g);
  }

  lemma Behaved(parent: Genome, g: Genome, rules: MutationRules, rng: Rng, tick: u32, subject: u64)
    requires parent.habitat <= HABITAT_GENERALIST && parent.dispersal <= DISPERSAL_MAX && parent.boldness <= BOLDNESS_MAX
    requires g == Behave(parent, rules, rng, tick, subject)
    ensures ChancePpm(rng, tick, BehaviorChance, subject, rules.behaviorPpm) ==> OneGeneChanged(parent, g, rng, tick, subject)
  {
  }

  lemma WithinOneStep(a: Genome, b: Genome)
    requires Gap(a.lanes, b.lanes) <= 2
    ensures Distance(a, b) <= 1
  {
  }

  /** A point has moved along the pair drawn evenly among all pairs: up by one, and down by one. */
  ghost predicate PairDrawn(t: Lanes, count: nat, rng: Rng, tick: u32, subject: u64, pairs: seq<(nat, nat)>, lanes: Lanes)
    requires count <= LANES
  {
    && pairs != [] && AllPairs(t, count, pairs)
    && var p := pairs[Below(rng, tick, MutationPair, subject, |pairs|)];
      p in pairs && lanes == t[p.0 := t[p.0] + 1][p.1 := t[p.1] - 1]
  }

  method MutateTraits(t: Lanes, rules: MutationRules, rng: Rng, tick: u32, subject: u64) returns (lanes: Lanes)
    ensures Sum(lanes) == Sum(t) && Gap(t, lanes) <= 2
    ensures InRange(t) ==> InRange(lanes)
    ensures lanes != t <==> (ChancePpm(rng, tick, MutationChance, subject, rules.mutationPpm)
      && exists p :: MovablePair(t, LanesInPlay(rules.eight), p))
    ensures lanes != t ==> exists pairs :: PairDrawn(t, LanesInPlay(rules.eight), rng, tick, subject, pairs, lanes)
  {
    hide Sum, Gap, InRange, ChancePpm;
    GapZero(t, t);
    if ChancePpm(rng, tick, MutationChance, subject, rules.mutationPpm) {
      var pairs := MovablePairs(t, LanesInPlay(rules.eight));
      if pairs != [] {
        var p := pairs[Below(rng, tick, MutationPair, subject, |pairs|)];
        assert p in pairs;
        MovedIsOneStep(t, p.0, p.1);
        GapZero(t, Moved(t, p.0, p.1));
        assert PairDrawn(t, LanesInPlay(rules.eight), rng, tick, subject, pairs, Moved(t, p.0, p.1));
        return Moved(t, p.0, p.1);
      }
    }
    return t;
  }

  function Drift(hue: nat, rules: MutationRules, rng: Rng, tick: u32, subject: u64): (h: nat)
    requires hue < HUE_RANGE
    ensures h < HUE_RANGE && HueNear(h, hue)
    ensures h != hue <==> ChancePpm(rng, tick, HueChance, subject, rules.huePpm)
  {
    if !ChancePpm(rng, tick, HueChance, subject, rules.huePpm) then hue
    else
      Turned(hue, Below(rng, tick, HueStep, subject, 16))
  }

  /** The hue that a draw leads to: up for even draws, down for odd ones. */
  function Turned(hue: nat, r: nat): (h: nat)
    requires hue < HUE_RANGE && r < 16
    ensures h < HUE_RANGE && h != hue && HueNear(h, hue)
  {
    var delta := 1 + r / 2;
    if r % 2 == 0 then (hue + delta) % HUE_RANGE else (hue + HUE_RANGE - delta) % HUE_RANGE
  }

  /** Sixteen draws, sixteen hues: all within eight steps are equally likely. */
  lemma HuesAreEquallyLikely(hue: nat, r: nat, r': nat)
    requires hue < HUE_RANGE && r < 16 && r' < 16 && Turned(hue, r) == Turned(hue, r')
    ensures r == r'
  {
    TurnedBy(hue, r);
    TurnedBy(hue, r');
    hide Turned;
  }

  lemma TurnedBy(hue: nat, r: nat)
    requires hue < HUE_RANGE && r < 16
    ensures var steps := Turned(hue, r) - hue - if r % 2 == 0 then 1 + r / 2 else -(1 + r / 2);
      steps == 0 || steps == HUE_RANGE || steps + HUE_RANGE == 0
  {
  }

  /** Five draws, five habitats, and none is the parent's. */
  lemma HabitatsAreEquallyLikely(habitat: nat, v: nat, v': nat)
    requires habitat <= HABITAT_GENERALIST && v < HABITAT_GENERALIST && v' < HABITAT_GENERALIST
    ensures OtherHabitat(habitat, v) <= HABITAT_GENERALIST && OtherHabitat(habitat, v) != habitat
    ensures OtherHabitat(habitat, v) == OtherHabitat(habitat, v') ==> v == v'
  {
  }

  function OtherHabitat(habitat: nat, v: nat): nat {
    if v >= habitat then v + 1 else v
  }

  /** The behavioral genes of a child. */
  function Behave(g: Genome, rules: MutationRules, rng: Rng, tick: u32, subject: u64): Genome
    requires g.habitat <= HABITAT_GENERALIST && g.dispersal <= DISPERSAL_MAX && g.boldness <= BOLDNESS_MAX
  {
    if !ChancePpm(rng, tick, BehaviorChance, subject, rules.behaviorPpm) then g
    else
      var gene := Below(rng, tick, BehaviorGene, subject, 3);
      if gene == 0 then
        var v := Below(rng, tick, BehaviorValue, subject, HABITAT_GENERALIST);
        g.(habitat := OtherHabitat(g.habitat, v))
      else if gene == 1 then
        g.(dispersal := Nudge(g.dispersal, DISPERSAL_MAX, Below(rng, tick, BehaviorValue, subject, 2) == 0))
      else
        g.(boldness := Nudge(g.boldness, BOLDNESS_MAX, Below(rng, tick, BehaviorValue, subject, 2) == 0))
  }

  // ---- Edits of a revived genome ----

  datatype EditResult = NotPossible | Edited(genome: Genome)

  /** A point off trait i and onto trait j, among the six traits. */
  predicate CanEdit(t: Lanes, step: (nat, nat)) {
    step.0 < TRAIT_COUNT && step.1 < TRAIT_COUNT && CanMove(t, step.1, step.0)
  }

  /** The genome after its edit steps, each possible when its turn comes; at most two. */
  function EditSteps(base: Genome, steps: seq<(nat, nat)>): EditResult {
    if steps == [] then Edited(base)
    else
      var last := steps[|steps| - 1];
      match EditSteps(base, steps[..|steps| - 1])
      case NotPossible => NotPossible
      case Edited(g) =>
        if CanEdit(g.lanes, last) then Edited(g.(lanes := Moved(g.lanes, last.1, last.0))) else NotPossible
  }

  method EditGenome(base: Genome, steps: seq<(nat, nat)>) returns (r: EditResult)
    ensures r == if |steps| > 2 then NotPossible else EditSteps(base, steps)
  {
    if |steps| > 2 {
      return NotPossible;
    }
    var g := base;
    assert steps[..0] == [];
    for k := 0 to |steps|
      invariant EditSteps(base, steps[..k]) == Edited(g)
    {
      assert steps[..k + 1][..k] == steps[..k];
      if !CanEdit(g.lanes, steps[k]) {
        NeverAgainPossible(base, steps, k + 1);
        return NotPossible;
      }
      g := g.(lanes := Moved(g.lanes, steps[k].1, steps[k].0));
    }
    assert steps[..|steps|] == steps;
    r := Edited(g);
  }

  lemma {:induction false} NeverAgainPossible(base: Genome, steps: seq<(nat, nat)>, k: nat)
    requires k <= |steps| && EditSteps(base, steps[..k]) == NotPossible
    ensures EditSteps(base, steps) == NotPossible
    decreases |steps| - k
  {
    if k < |steps| {
      assert steps[..k + 1][..k] == steps[..k];
      NeverAgainPossible(base, steps, k + 1);
    } else {
      assert steps[..k] == steps;
    }
  }

  /** An edited genome spends the same budget and is at most one mutation step away per edit. */
  lemma {:induction false} EditsStayClose(base: Genome, steps: seq<(nat, nat)>, budget: nat)
    requires IsValid(base, budget) && EditSteps(base, steps).Edited?
    ensures IsValid(EditSteps(base, steps).genome, budget)
    ensures Distance(base, EditSteps(base, steps).genome) <= |steps|
  {
    if steps == [] {
      GapZero(base.lanes, base.lanes);
    } else {
      var before := steps[..|steps| - 1];
      EditsStayClose(base, before, budget);
      EditStaysClose(base, EditSteps(base, before).genome, steps[|steps| - 1], budget);
    }
  }

  lemma EditStaysClose(base: Genome, g: Genome, step: (nat, nat), budget: nat)
    requires IsValid(base, budget) && IsValid(g, budget) && CanEdit(g.lanes, step)
    ensures var e := g.(lanes := Moved(g.lanes, step.1, step.0));
      IsValid(e, budget) && Distance(base, e) <= Distance(base, g) + 1
  {
    var e := g.(lanes := Moved(g.lanes, step.1, step.0));
    MovedIsOneStep(g.lanes, step.1, step.0);
    hide Sum, Gap;
    DistanceIsAMetric(base, g, e);
  }

  // ---- Hybrids ----

  predicate FromSecond(rng: Rng, subject: u32, k: nat) {
    rng.raw(0, HybridGene, subject, k) % 2 == 1
  }

  /** A lane of a hybrid before evening: from one parent or the other, as drawn. */
  function Inherited(a: Lanes, b: Lanes, rng: Rng, subject: u32, k: nat): nat
    requires k < LANES
  {
    if FromSecond(rng, subject, k) then b[k] else a[k]
  }

  method CrossLanes(a: Lanes, b: Lanes, rng: Rng, subject: u32) returns (t: Lanes)
    ensures forall k :: 0 <= k < LANES ==> t[k] == Inherited(a, b, rng, subject, k)
  {
    t := a;
    for k := 0 to LANES
      invariant forall j :: 0 <= j < k ==> t[j] == Inherited(a, b, rng, subject, j)
      invariant forall j :: k <= j < LANES ==> t[j] == a[j]
    {
      if FromSecond(rng, subject, k) {
        t := t[k := b[k]];
      }
    }
  }

  predicate Open(t: Lanes, over: bool, k: nat)
    requires k < LANES
  {
    if over then t[k] > 0 else t[k] < TRAIT_MAX
  }

  /** The lanes that can still take a step, in order. */
  ghost predicate Listing(t: Lanes, count: nat, over: bool, open: seq<nat>)
    requires count <= LANES
  {
    && (forall k :: k in open <==> 0 <= k < count && (if over then t[k] >= 1 else t[k] <= 7))
    && (forall i, j :: 0 <= i < j < |open| ==> open[i] < open[j])
  }

  /** One step towards the budget, of a lane drawn evenly among those that can take one. */
  ghost predicate EvenedOnce(t: Lanes, t': Lanes, count: nat, over: bool, rng: Rng, subject: u32, step: nat)
    requires count <= LANES
  {
    exists open :: Listing(t, count, over, open) && DrawnStep(t, t', over, rng, subject, step, open)
  }

  ghost predicate DrawnStep(t: Lanes, t': Lanes, over: bool, rng: Rng, subject: u32, step: nat, open: seq<nat>) {
    open != []
    && var pick := open[Below(rng, 0, HybridBudget, (subject + step * 0x1_0000_0000) % WORDS, |open|)];
    pick < LANES && (over ==> t[pick] > 0) && t' == t[pick := if over then t[pick] - 1 else t[pick] + 1]
  }

  /** All the steps, in the direction in which the budget lies. */
  ghost predicate Evened(crossed: Lanes, t: Lanes, count: nat, over: bool, rng: Rng, subject: u32, trail: seq<Lanes>)
    requires count <= LANES
  {
    && |trail| > 0 && trail[0] == crossed && trail[|trail| - 1] == t
    && (forall k :: 0 <= k < |trail| - 1 ==> EvenedOnce(trail[k], trail[k + 1], count, over, rng, subject, k))
  }

  lemma IsDrawnStep(t: Lanes, t': Lanes, over: bool, rng: Rng, subject: u32, step: nat, open: seq<nat>, pick: nat)
    requires open != [] && pick == open[Below(rng, 0, HybridBudget, (subject + step * 0x1_0000_0000) % WORDS, |open|)]
    requires pick < LANES && (over ==> t[pick] > 0) && t' == t[pick := if over then t[pick] - 1 else t[pick] + 1]
    ensures DrawnStep(t, t', over, rng, subject, step, open)
  {
  }

  lemma EvenedNext(crossed: Lanes, t: Lanes, t': Lanes, count: nat, over: bool, rng: Rng, subject: u32, trail: seq<Lanes>,
      open: seq<nat>)
    requires count <= LANES && Evened(crossed, t, count, over, rng, subject, trail)
    requires Listing(t, count, over, open) && DrawnStep(t, t', over, rng, subject, |trail| - 1, open)
    ensures Evened(crossed, t', count, over, rng, subject, trail + [t'])
  {
    assert EvenedOnce(t, t', count, over, rng, subject, |trail| - 1);
    hide EvenedOnce;
  }

  method OpenLanes(t: Lanes, count: nat, over: bool) returns (open: seq<nat>)
    requires count <= LANES
    ensures forall k :: k in open <==> 0 <= k < count && Open(t, over, k)
    ensures Listing(t, count, over, open)
  {
    open := [];
    for k := 0 to count
      invariant forall j :: j in open <==> 0 <= j < k && Open(t, over, j)
      invariant forall i, j :: 0 <= i < j < |open| ==> open[i] < open[j]
      invariant forall i :: 0 <= i < |open| ==> open[i] < k
    {
      if Open(t, over, k) {
        open := open + [k];
      }
    }
  }

  lemma {:induction false} SumBounds(t: seq<nat>)
    ensures (forall k :: 0 <= k < |t| ==> t[k] == 0) ==> Sum(t) == 0
    ensures (forall k :: 0 <= k < |t| ==> t[k] >= TRAIT_MAX) ==> Sum(t) >= TRAIT_MAX * |t|
  {
    if t != [] {
      SumBounds(t[1..]);
    }
  }

  lemma {:induction false} SumSplit(t: seq<nat>, count: nat)
    requires count <= |t|
    ensures Sum(t) == Sum(t[..count]) + Sum(t[count..])
  {
    if count == 0 {
      assert t[0..] == t;
    } else {
      assert t[1..][..count - 1] == t[..count][1..] && t[1..][count - 1..] == t[count..];
      SumSplit(t[1..], count - 1);
    }
  }

  /** Single steps bring the lanes in play to the budget: exactly as many as the sum is away from it,
      each within range, and the lanes out of play untouched. */
  method EvenOut(crossed: Lanes, rng: Rng, subject: u32, budget: nat, eight: bool)
    returns (t: Lanes, steps: nat, ghost trail: seq<Lanes>)
    requires InRange(crossed) && budget <= TRAIT_COUNT * TRAIT_MAX
    ensures InRange(t)
    ensures Sum(t[..LanesInPlay(eight)]) == budget
    ensures t[LanesInPlay(eight)..] == crossed[LanesInPlay(eight)..]
    ensures steps == AbsDiff(Sum(crossed[..LanesInPlay(eight)]), budget)
    ensures Evened(crossed, t, LanesInPlay(eight), Sum(crossed[..LanesInPlay(eight)]) > budget, rng, subject, trail)
    ensures |trail| == steps + 1
  {
    var count := LanesInPlay(eight);
    t, steps, trail := crossed, 0, [crossed];
    hide DrawnStep, Listing;
    ghost var sum0 := Sum(crossed[..count]);
    while Sum(t[..count]) != budget
      invariant InRange(t) && t[count..] == crossed[count..]
      invariant |trail| == steps + 1 && Evened(crossed, t, count, sum0 > budget, rng, subject, trail)
      invariant if sum0 > budget then budget <= Sum(t[..count]) == sum0 - steps
        else Sum(t[..count]) == sum0 + steps <= budget
      decreases AbsDiff(Sum(t[..count]), budget)
    {
      var over := Sum(t[..count]) > budget;
      var open := OpenLanes(t, count, over);
      SomethingOpen(t, count, over, budget, open);
      var pick := open[Below(rng, 0, HybridBudget, (subject + steps * 0x1_0000_0000) % WORDS, |open|)];
      assert pick in open;
      SumUpdate(t[..count], pick, if over then t[pick] - 1 else t[pick] + 1);
      ghost var before := t;
      if over {
        t := t[pick := t[pick] - 1];
      } else {
        t := t[pick := t[pick] + 1];
      }
      assert t[..count] == before[..count][pick := t[pick]] && t[count..] == before[count..];
      IsDrawnStep(before, t, over, rng, subject, steps, open, pick);
      EvenedNext(crossed, before, t, count, over, rng, subject, trail, open);
      trail := trail + [t];
      steps := steps + 1;
    }
  }

  lemma SomethingOpen(t: Lanes, count: nat, over: bool, budget: nat, open: seq<nat>)
    requires TRAIT_COUNT <= count <= LANES && budget <= TRAIT_COUNT * TRAIT_MAX
    requires if over then Sum(t[..count]) > budget else Sum(t[..count]) < budget
    requires forall k :: k in open <==> 0 <= k < count && Open(t, over, k)
    ensures open != []
  {
    if open == [] {
      forall k | 0 <= k < count
        ensures if over then t[..count][k] == 0 else t[..count][k] >= TRAIT_MAX
      {
        assert k !in open;
      }
    }
    SumBounds(t[..count]);
  }

  lemma SumPair(x: nat, y: nat)
    ensures Sum([x, y]) == x + y
  {
    assert [x, y][1..] == [y];
    assert Sum([y]) == y + Sum([y][1..]);
  }

  /** A hybrid inherits nothing in the two lanes that six-trait rules leave alone. */
  predicate NothingLeftOver(a: Genome, b: Genome, rng: Rng, subject: u32) {
    forall k :: TRAIT_COUNT <= k < LANES ==> Inherited(a.lanes, b.lanes, rng, subject, k) == 0
  }

  /** A hybrid of two reference genomes, with some of the gifts offered. It is valid under rules that play all
      eight lanes, and under the others exactly when the draws let it inherit nothing in the two lanes they
      leave alone. */
  method CrossGenomes(a: Genome, b: Genome, rng: Rng, subject: u32, budget: nat, eight: bool, offered: nat, giftPpm: nat,
      most: nat) returns (g: Genome, ghost crossed: Lanes, ghost trail: seq<Lanes>)
    requires IsValid(a, budget) && IsValid(b, budget) && budget <= TRAIT_COUNT * TRAIT_MAX
    ensures IsValid(g, budget) <==> eight || NothingLeftOver(a, b, rng, subject)
    ensures Sum(g.lanes[..LanesInPlay(eight)]) == budget && InRange(g.lanes)
    ensures g.habitat == if rng.raw(0, HybridGene, subject, 8) % 2 == 1 then b.habitat else a.habitat
    ensures g.dispersal == if rng.raw(0, HybridGene, subject, 9) % 2 == 1 then b.dispersal else a.dispersal
    ensures g.boldness == if rng.raw(0, HybridGene, subject, 10) % 2 == 1 then b.boldness else a.boldness
    ensures g.hue == if rng.raw(0, HybridGene, subject, 11) % 2 == 1 then b.hue else a.hue
    ensures Held(g.gifts, GIFTS) <= most && forall k: nat :: k < GIFTS ==>
      (Holds(g.gifts, k) <==> Holds(offered, k) && Passes(rng, subject, giftPpm, k) && Held(g.gifts, k) < most)
    ensures CrossedFrom(a.lanes, b.lanes, rng, subject, crossed)
    ensures Evened(crossed, g.lanes, LanesInPlay(eight), Sum(crossed[..LanesInPlay(eight)]) > budget, rng, subject, trail)
  {
    hide Holds, Passes, Held, Sum, InRange, NothingLeftOver, CrossedFrom, Evened;
    var lanes;
    lanes, crossed, trail := CrossTraits(a, b, rng, subject, budget, eight);
    g := a.(lanes := lanes);
    if FromSecond(rng, subject, LANES) {
      g := g.(habitat := b.habitat);
    }
    if FromSecond(rng, subject, LANES + 1) {
      g := g.(dispersal := b.dispersal);
    }
    if FromSecond(rng, subject, LANES + 2) {
      g := g.(boldness := b.boldness);
    }
    if FromSecond(rng, subject, LANES + 3) {
      g := g.(hue := b.hue);
    }
    var gifts := PassGifts(offered, most, rng, subject, giftPpm);
    g := g.(gifts := gifts);
    NobodyHolds();
  }

  /** Every lane comes from the parent that its draw says: the second for odd ones. */
  ghost predicate CrossedFrom(a: Lanes, b: Lanes, rng: Rng, subject: u32, crossed: Lanes) {
    && (forall k :: 0 <= k < LANES && rng.raw(0, HybridGene, subject, k) % 2 == 0 ==> crossed[k] == a[k])
    && (forall k :: 0 <= k < LANES && rng.raw(0, HybridGene, subject, k) % 2 == 1 ==> crossed[k] == b[k])
  }

  lemma IsCrossed(a: Lanes, b: Lanes, rng: Rng, subject: u32, crossed: Lanes)
    requires forall k :: 0 <= k < LANES ==> crossed[k] == Inherited(a, b, rng, subject, k)
    ensures CrossedFrom(a, b, rng, subject, crossed)
  {
  }

  /** The traits of a hybrid: crossed as drawn, then evened out. */
  method CrossTraits(a: Genome, b: Genome, rng: Rng, subject: u32, budget: nat, eight: bool)
    returns (lanes: Lanes, ghost crossed: Lanes, ghost trail: seq<Lanes>)
    requires InRange(a.lanes) && InRange(b.lanes) && budget <= TRAIT_COUNT * TRAIT_MAX
    ensures InRange(lanes) && Sum(lanes[..LanesInPlay(eight)]) == budget
    ensures Sum(lanes) == budget <==> eight || NothingLeftOver(a, b, rng, subject)
    ensures CrossedFrom(a.lanes, b.lanes, rng, subject, crossed)
    ensures Evened(crossed, lanes, LanesInPlay(eight), Sum(crossed[..LanesInPlay(eight)]) > budget, rng, subject, trail)
  {
    hide FromSecond, Sum, Evened;
    var mixed := CrossLanes(a.lanes, b.lanes, rng, subject);
    crossed := mixed;
    IsCrossed(a.lanes, b.lanes, rng, subject, crossed);
    var steps;
    lanes, steps, trail := EvenOut(mixed, rng, subject, budget, eight);
    var count := LanesInPlay(eight);
    SumSplit(lanes, count);
    if eight {
      assert lanes[count..] == [];
      SumBounds(lanes[count..]);
    } else {
      LeftOver(lanes, crossed);
    }
  }

  lemma LeftOver(lanes: Lanes, crossed: Lanes)
    requires lanes[TRAIT_COUNT..] == crossed[TRAIT_COUNT..]
    ensures Sum(lanes[TRAIT_COUNT..]) == 0 <==> forall k :: TRAIT_COUNT <= k < LANES ==> crossed[k] == 0
  {
    assert lanes[6..] == [lanes[6], lanes[7]] && lanes[6] == lanes[6..][0] && lanes[7] == lanes[6..][1];
    assert crossed[6] == crossed[6..][0] && crossed[7] == crossed[6..][1];
    SumPair(lanes[6], lanes[7]);
  }

  /** Whatever is drawn, six-trait rules make valid hybrids exactly of parents that have nothing in the last two
      lanes. */
  lemma HybridsAlwaysValid(a: Genome, b: Genome, subject: u32)
    ensures (forall rng: Rng :: NothingLeftOver(a, b, rng, subject))
      <==> forall k :: TRAIT_COUNT <= k < LANES ==> a.lanes[k] == 0 && b.lanes[k] == 0
  {
    if forall rng: Rng :: NothingLeftOver(a, b, rng, subject) {
      var first, second := Rng((t: u32, p: Purpose, s: u64, k: nat) => 0), Rng((t: u32, p: Purpose, s: u64, k: nat) => 1);
      assert NothingLeftOver(a, b, first, subject) && NothingLeftOver(a, b, second, subject);
      forall k | TRAIT_COUNT <= k < LANES
        ensures a.lanes[k] == 0 && b.lanes[k] == 0
      {
        assert Inherited(a.lanes, b.lanes, first, subject, k) == a.lanes[k];
        assert Inherited(a.lanes, b.lanes, second, subject, k) == b.lanes[k];
      }
    }
  }

  const ODD_PARENT: Genome := Genome([1, 0, 0, 0, 0, 0, 1, 0], 0, 0, 0, 0, 0)
  const OTHER_PARENT: Genome := Genome([0, 1, 0, 0, 0, 0, 1, 0], 0, 0, 0, 0, 0)

  lemma OddParents()
    ensures IsValid(ODD_PARENT, 2) && IsValid(OTHER_PARENT, 2)
  {
    SumOfOnes(ODD_PARENT.lanes, 0, 6);
    SumOfOnes(OTHER_PARENT.lanes, 1, 6);
  }

  /** Two valid parents whose hybrid is never valid under six-trait rules. */
  method InvalidHybrid(rng: Rng, subject: u32) returns (a: Genome, b: Genome, g: Genome)
    ensures IsValid(a, 2) && IsValid(b, 2) && !IsValid(g, 2)
  {
    a, b := ODD_PARENT, OTHER_PARENT;
    OddParents();
    hide IsValid, Holds, Passes, Held, FromSecond;
    ghost var crossed, trail;
    g, crossed, trail := CrossGenomes(a, b, rng, subject, 2, false, 0, 0, 0);
    assert Inherited(a.lanes, b.lanes, rng, subject, 6) == 1;
  }

  lemma SumOfOnes(t: Lanes, i: nat, j: nat)
    requires i < j < LANES && forall k :: 0 <= k < LANES ==> t[k] == if k == i || k == j then 1 else 0
    ensures Sum(t) == 2
  {
    SumSplit(t, j);
    SumOfOne(t[..j], i);
    SumOfOne(t[j..], 0);
  }

  lemma SumOfOne(t: seq<nat>, i: nat)
    requires i < |t| && forall k :: 0 <= k < |t| ==> t[k] == if k == i then 1 else 0
    ensures Sum(t) == 1
  {
    SumSplit(t, i);
    SumBounds(t[..i]);
    assert t[i..][1..] == t[i + 1..];
    SumBounds(t[i + 1..]);
  }
}
