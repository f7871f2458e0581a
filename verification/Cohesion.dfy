/** What an epoch keeps beyond check_invariants of core/src/state.rs: clades hold together, and every genome
    kept for later is valid. */
module Cohesion {
  import opened Genomes
  import opened TickState
  import opened WorldState

  /** An organism is fewer steps from its clade's reference than the distance at which clades split. */
  predicate Close(rules: Ruleset, o: Organism, reference: Genome) {
    rules.cladeSplitDistance >= 1 ==> Distance(o.genome, reference) < rules.cladeSplitDistance
  }

  predicate Cohesive(rules: Ruleset, os: seq<Organism>, clades: map<nat, Clade>) {
    forall i :: 0 <= i < |os| ==> os[i].cladeId in clades && Close(rules, os[i], clades[os[i].cladeId].reference)
  }

  predicate ReferencesValid(rules: Ruleset, clades: map<nat, Clade>) {
    forall id :: id in clades ==> IsValid(clades[id].reference, rules.traitBudget)
  }

  predicate MuseumValid(rules: Ruleset, museum: seq<MuseumEntry>) {
    forall k :: 0 <= k < |museum| ==> IsValid(museum[k].reference, rules.traitBudget)
  }

  predicate SporesValid(rules: Ruleset, spores: seq<Founder>) {
    forall k :: 0 <= k < |spores| ==> IsValid(spores[k].genome, rules.traitBudget)
  }

  /** Every reference is valid, of the living clades and of those in the museum. */
  predicate StockValid(rules: Ruleset, clades: map<nat, Clade>, museum: seq<MuseumEntry>) {
    ReferencesValid(rules, clades) && MuseumValid(rules, museum)
  }

  /** The same clades with the same references, whatever their members. */
  predicate SameRefs(clades: map<nat, Clade>, clades': map<nat, Clade>) {
    clades'.Keys == clades.Keys && forall id :: id in clades ==> clades'[id].reference == clades[id].reference
  }

  lemma SameRefsHere(clades: map<nat, Clade>)
    ensures SameRefs(clades, clades)
  {
  }

  lemma SameRefsThrough(a: map<nat, Clade>, b: map<nat, Clade>, c: map<nat, Clade>)
    requires SameRefs(a, b) && SameRefs(b, c)
    ensures SameRefs(a, c)
  {
  }

  lemma FewerSameRefs(clades: map<nat, Clade>, id: nat)
    requires id in clades
    ensures SameRefs(clades, Fewer(clades, id))
  {
  }

  /** The same organisms as far as clades see them. */
  predicate SameKin(os: seq<Organism>, os': seq<Organism>) {
    |os'| == |os| && forall i :: 0 <= i < |os| ==> os'[i].cladeId == os[i].cladeId && os'[i].genome == os[i].genome
  }

  lemma SameKinHere(os: seq<Organism>)
    ensures SameKin(os, os)
  {
  }

  lemma SameKinCohere(rules: Ruleset, os: seq<Organism>, clades: map<nat, Clade>, os': seq<Organism>,
      clades': map<nat, Clade>)
    requires SameKin(os, os') && SameRefs(clades, clades')
    ensures Cohesive(rules, os, clades) ==> Cohesive(rules, os', clades')
    ensures ReferencesValid(rules, clades) ==> ReferencesValid(rules, clades')
  {
    hide Distance, IsValid;
  }

  // ---- Births ----

  /** The clades after some births: the old ones keep their references, new ones have valid references, and
      everyone listed from place n on is close to its clade. */
  predicate Branched(rules: Ruleset, clades: map<nat, Clade>, os': seq<Organism>, clades': map<nat, Clade>, n: nat) {
    && (forall id :: id in clades ==> id in clades' && clades'[id].reference == clades[id].reference)
    && (forall id :: id in clades' && id !in clades ==> IsValid(clades'[id].reference, rules.traitBudget))
    && (forall k :: n <= k < |os'| ==> os'[k].cladeId in clades' && Close(rules, os'[k], clades'[os'[k].cladeId].reference))
  }

  lemma NothingBranched(rules: Ruleset, clades: map<nat, Clade>, os: seq<Organism>)
    ensures Branched(rules, clades, os, clades, |os|)
  {
  }

  lemma BranchedThrough(rules: Ruleset, a: map<nat, Clade>, os: seq<Organism>, b: map<nat, Clade>, n: nat,
      os': seq<Organism>, c: map<nat, Clade>)
    requires Branched(rules, a, os, b, n) && Branched(rules, b, os', c, |os|) && n <= |os| <= |os'|
    requires SameKin(os, os'[..|os|])
    ensures Branched(rules, a, os', c, n)
  {
    hide IsValid, Distance;
    forall k | n <= k < |os'|
      ensures os'[k].cladeId in c && Close(rules, os'[k], c[os'[k].cladeId].reference)
    {
      if k < |os| {
        assert os'[..|os|][k] == os'[k];
      }
    }
  }

  lemma BranchedCohere(rules: Ruleset, os: seq<Organism>, clades: map<nat, Clade>, os': seq<Organism>,
      clades': map<nat, Clade>)
    requires |os| <= |os'| && SameKin(os, os'[..|os|]) && Branched(rules, clades, os', clades', |os|)
    ensures Cohesive(rules, os, clades) ==> Cohesive(rules, os', clades')
    ensures ReferencesValid(rules, clades) ==> ReferencesValid(rules, clades')
  {
    hide IsValid, Distance;
    forall i | 0 <= i < |os|
      ensures os'[i].cladeId == os[i].cladeId && os'[i].genome == os[i].genome
    {
      assert os'[..|os|][i] == os'[i];
    }
  }
}
