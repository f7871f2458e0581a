/** Counter-based randomness, core/src/rng.rs: a stateless source, and unbiased draws by rejection. The
    source is any function of the counter; module Philox gives the one the repository uses. */
module Randomness {
  import opened Hashing

  datatype Purpose =
    | Queue | MoveTie | AttackRoll | DefenseRoll | Senescence | Placement
    | MutationChance | MutationPair | BehaviorChance | BehaviorGene | BehaviorValue | HueChance | HueStep
    | WildfireChance | WildfireSite | WildfireRadius | DroughtChance | DroughtSite
    | PlagueChance | PlagueSite | PlagueDeath | FloodChance | FloodSite
    | GiftLoss | GenesisAge | GenesisSite | BridgeSite | BridgeOrder | RevivalSite | HybridGene | HybridBudget | HybridGift

  /** The value of each purpose in a counter; part of consensus. */
  function Code(p: Purpose): (c: nat)
    ensures 0 < c < 0x100
  {
    match p
    case Queue => 1 case MoveTie => 2 case AttackRoll => 3 case DefenseRoll => 4 case Senescence => 5
    case Placement => 6 case MutationChance => 7 case MutationPair => 8 case BehaviorChance => 9
    case BehaviorGene => 10 case BehaviorValue => 11 case HueChance => 12 case HueStep => 13 case GenesisAge => 14
    case GenesisSite => 15
    case WildfireChance => 18 case WildfireSite => 19 case WildfireRadius => 20 case DroughtChance => 21
    case DroughtSite => 22 case PlagueChance => 23 case PlagueSite => 24 case PlagueDeath => 25
    case FloodChance => 26 case FloodSite => 27 case BridgeSite => 32 case BridgeOrder => 33
    case RevivalSite => 34 case GiftLoss => 36 case HybridGene => 41 case HybridBudget => 42 case HybridGift => 43
  }

  const WORDS: nat := 0x1_0000_0000_0000_0000
  /** `k` shares the last counter word with the purpose. */
  const K_LIMIT: nat := 0x100_0000

  datatype Rng = Rng(raw: (u32, Purpose, u64, nat) -> u64)

  /** 2^64 mod n: raw values below it would bias a draw. */
  function RejectUnder(n: nat): nat
    requires n > 0
  {
    WORDS % n
  }

  /** The first attempt from k on that is not rejected; the source stops with an error when there is
      none, and the model answers 0. */
  function BelowFrom(rng: Rng, tick: u32, purpose: Purpose, subject: u64, n: nat, k: nat): (r: nat)
    requires 0 < n && k <= K_LIMIT
    ensures r < n
    decreases K_LIMIT - k
  {
    if k == K_LIMIT then 0
    else
      var x := rng.raw(tick, purpose, subject, k);
      if x >= RejectUnder(n) then x % n else BelowFrom(rng, tick, purpose, subject, n, k + 1)
  }

  function Below(rng: Rng, tick: u32, purpose: Purpose, subject: u64, n: nat): (r: nat)
    requires 0 < n
    ensures r < n
  {
    BelowFrom(rng, tick, purpose, subject, n, 0)
  }

  predicate ChancePpm(rng: Rng, tick: u32, purpose: Purpose, subject: u64, ppm: nat) {
    ppm != 0 && (ppm >= 1_000_000 || Below(rng, tick, purpose, subject, 1_000_000) < ppm)
  }

  /** A chance in parts of a million is a draw below it; the draws spared when it is none or certain change nothing. */
  lemma ChanceIsADraw(rng: Rng, tick: u32, purpose: Purpose, subject: u64, ppm: nat)
    ensures ChancePpm(rng, tick, purpose, subject, ppm) <==> Below(rng, tick, purpose, subject, 1_000_000) < ppm
  {
  }
}
