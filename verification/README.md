# Protogaea, modelled and proved

Protogaea is a simulated world that anyone can check: a server runs it epoch by epoch, commits to every state and to
every log of work in Merkle trees, and selects the miracles of an epoch by rules that watchers recompute. This project
models the parts on which that rests and proves what they promise, for every input, every state and every run.

* **Commitments.** `MerkleTree`, `MerkleLevels`, `SparkLog`, `StateTree`: both implementations of the trees of sections
  2.1.1 to 2.1.4 of RFC 9162, their proofs by recursion and their verifiers by shifting. `Leaves`, `Layouts`,
  `StateRoot`: every leaf encoding of the world state, where each field is found in it, its root, and proofs of
  organisms against it.
* **The world.** `WorldState` has the world as a class and what its invariants are; `Herd`, `TickState`,
  `Environment`, `Threats`, `Choices`, `Weighing`, `Walks`, `Acts`, `Deaths`, `Upkeep`, `Births`, `Steadiness` and
  `Ticks` are one tick over the changing list of organisms and its index by cell; `Rifting`, `Events`, `Plagues`,
  `Revivals`, `Miracles`, `Possible`, `Applying`, `Offerings` and `Epochs` are the epoch boundary, one epoch, and runs
  of any length; `Cohesion` says how clades hold together, `Kinship` keeps the register of births; `Checking` is the
  invariant check itself, `Unviable` has the states it accepts and a step breaks; `Genomes`, `Gifts` and `Climates`
  are what these read.
* **The breakup.** `Waves`, `RiftPlan`: the search from the ocean along the rifts and the schedule by which plates part.
  `Genesis`, `Seasons`: the beginning of a world, and whole seasons from it.
* **The ledger and the intake.** `Ledger`, `Fulfilment`: ranking, selection, price, and why the ledger's conflicts are
  enough for the world. `Sparks`, `IntakeTables`, `SparkIntake`: the spark log with its windows, heads,
  receipts, work and wish statuses, as a class over its tables. `Guard`: the token buckets before it.
* **Codec and chance.** `Wishes`, `WishReader`: the canonical wish codec. `Philox`, `Uniform`, `Randomness`: the
  counter-based source and exact draws below a bound.
* **Fast forms.** `Smix`: the straight loop of yespower against the unrolled ladder. `Densest`: prefix sums against
  counting.

Hashing is ideal: a hash is a value that remembers what was hashed (`Hashing`), so trees are told apart exactly when
their contents are. Randomness is any function of its counter in the world, and Philox in `Philox`. The remaining
modules (`Arithmetic`, `Bytes`, `Grid`, `Options`, `Powers`, `Sorting`) hold what the others share.

## How to read it

The methods are the source's methods, with the same branches, loops and updates in place; what they promise is stated
over specification functions and predicates, and lemmas say what those mean: by counts and distances, by inequalities
that determine a rounded value, by what grows with what, or by what a reader of the bytes gets. Methods of several steps
give the states between them: a tick its turns, payments and births (`Ticks.TickTaken`), an epoch its boundary and its
ticks (`Epochs.EpochTaken`), a run its epochs. The main results are `Seasons.Season` and
`Epochs.Run`, `MerkleTree.ProofExact` with the two verifiers of `SparkLog`, `StateRoot.RootDeterminesState`,
`Ledger.OrderDoesNotMatter`, `Fulfilment.LedgerSufficesExactly`, `SparkIntake.Intake.Valid` as kept by every method of
the class, `Wishes.EncodingIsABijection`, `Philox.PhiloxIsAPermutation`, `Uniform.DrawsAreUniform`, `Smix.Ladder` and
`RiftPlan.ScheduleInOrder`.

The world's results take the rules as `Ruleset::validate` accepts them (core/src/ruleset.rs:765-864) with what
`WorldState.Sound` adds: only deep water is impassable, costs are not negative, weather lasts at least a tick, and six
traits are in play.

**The invariant check.** `Steadiness.Steady` is what check_invariants accepts (core/src/state.rs:414-504), and nothing
more; every step starts from any such state. Which steps end in one is answered step by step:

* the movement of the rifts, floods, fires, droughts, plagues, rain, dry spells and relocations: always;
* a tick: exactly when no effect has run out of ticks; otherwise it panics (`Ticks.RunTick`);
* a possible revival by a patron: exactly when it puts nobody down, or the edited genome is valid and ids do not start
  from zero (`Applying.ApplyRevive`, and for all possible revivals of a state together `Applying.RevivalsHoldExactly`);
* the natural revival: exactly when none is needed, or the last one was in an earlier epoch and every genome that finds
  room at its turn is valid, with ids above zero (`Revivals.NaturalRevival`).

`Unviable` has an accepted world for each of these conditions that the step breaks, under rules that are sound.
`Epochs.Viable` is what a caller can check to have whole runs accepted: these conditions, as far as the rules let
anything come back at all. It holds at the beginning of every world (`Genesis.Begin`) and is kept by every epoch
(`Epochs.StepEpoch`), so `Seasons.Season` needs no condition on states. Clades holding together, deep rifts being water
and the isolation of plates are kept on top of that, each by itself.

**The register of births.** `WorldState.World.births` is a ghost field, written where an organism is put on the list
and nowhere else. `Kinship.Since` is the part of it that tells of those alive at a time and everyone since, and
`Kinship.Recorded` says what it tells: who was born has its parent on the register, born before it on linked ground, or
is a foundling put down on land; who lives has not left the ground linked to where it was first seen.

Where the code and its comments differ the code is followed: a step of a walk may leave the straight distance as it was
(core/src/sim.rs:1228-1229 says that it always shortens it), so `Walks.StepGoesNearer` states that it does not grow and
that the distance by rows and columns shrinks.

## Results that are not what one would expect

* The check of the invariants accepts states that the next steps break; the exact conditions are those above.
* A world can begin with more founders than it may have; the check accepts it exactly when it does not
  (`Genesis.Begin`).
* The recorded target of a window is cut at 2^63 - 1 while the window runs with the uncut one; above 2^63 a spark is
  credited one unit of work and the record says two (`IntakeTables.RecordedWeight`, an exact condition), and one spark
  in a window at the largest recorded target is enough to get there (`IntakeTables.TargetsPassTheRecord`).
* A batch that arrives after its window closed is refused, but the head signed for it replaces the final one and is not
  marked final; root and size are the same (`SparkIntake.LateBatch`). Appending spares every final mark exactly when
  none is in the new head's place, as is so while the window is open (`SparkIntake.Intake.Append`).
* The state root does not commit to the keys under which clades are filed: states share a root exactly when they agree
  otherwise and list the same clades in the order of their keys (`StateRoot.RootDeterminesAllButKeys`).
* What the ledger lets go together the world can refuse: exactly when the weather radius exceeds three and the map is
  larger than seven by seven (`Fulfilment.LedgerSufficesExactly`).
* A hybrid under the six-trait rules is valid exactly when the draws take nothing in the other two lanes
  (`Genomes.CrossGenomes`), and always exactly when neither parent has anything there (`Genomes.HybridsAlwaysValid`);
  `Genomes.InvalidHybrid` has valid parents of which every hybrid is invalid.
* Halving rounds: the distance keeps the triangle exactly unless both sides lose a half step that the way between does
  not save (`Genomes.TriangleExactly`), which genomes of one budget never do.

## Model

| member | source | states |
|---|---|---|
| `MerkleTree.SplitUnique` | protocol/src/log.rs:18-20 | The split is the only power of two k with k < n <= 2k, so every way of computing it agrees. |
| `SparkLog.SplitByShiftIsSplit` | protocol/src/log.rs:18-20 | The bit shift over leading zeros computes that power of two for every 64-bit size from 2. |
| `StateTree.SplitByDoubling` | core/src/merkle.rs:37-43 | Doubling from one reaches the same power of two: both crates split alike on every size. |
| `MerkleTree.RootInjective` | protocol/src/log.rs:23-32 | Two lists of one length with one root are the same list. |
| `MerkleTree.PathExact` | protocol/src/log.rs:35-51 | For every list, place, value and path: the path leads from the value to the root exactly when the value is the leaf at that place and the path is the generated one. |
| `MerkleLevels.LevelPromoted` | protocol/src/log.rs:54-79 | A last node without a sibling keeps its place through a level: the skipping loop of the verifier changes nothing. |
| `MerkleLevels.Level` | protocol/src/log.rs:54-79 | One shift of index and size, with one hash of the path folded in, leaves the root that a path leads to unchanged. |
| `MerkleLevels.LevelOld` | protocol/src/log.rs:126-152 | The same step for the root of the earlier tree, in which a sibling on the right does not exist yet. |
| `SparkLog.VerifyInclusion` | protocol/src/log.rs:54-79 | The shifting loop accepts exactly the paths that lead to the root by recursion from the top, for all 64-bit indices and sizes. |
| `MerkleTree.ProofComplete` | protocol/src/log.rs:83-102 | The generated consistency proof of a prefix leads to both roots, for every 0 < m <= n. |
| `MerkleTree.ProofSound` | protocol/src/log.rs:83-152 | A proof that leads to the roots of two lists makes the first a prefix of the second, and is the generated proof. |
| `MerkleTree.ProofExact` | protocol/src/log.rs:83-152 | Both directions together: a proof holds between the roots of a and b exactly when a is a prefix of b and the proof is the generated one. |
| `MerkleLevels.LevelEven` | protocol/src/log.rs:126-130 | While the earlier size is even, halving both sizes changes nothing: the loop that skips full levels. |
| `MerkleLevels.LevelOdd` | protocol/src/log.rs:106-152 | Once it is odd, a consistency proof is a node and its audit path, which leads to both roots. |
| `SparkLog.SkipFullLevels` | protocol/src/log.rs:126-130 | The skipping loop stops at an odd earlier size with the same proof obligation. |
| `SparkLog.FoldBoth` | protocol/src/log.rs:131-152 | The folding loop computes the pair of roots, or fails exactly when the path has the wrong length. |
| `SparkLog.VerifyConsistency` | protocol/src/log.rs:106-152 | The whole verifier accepts exactly the proofs that lead to both roots by recursion from the top, for all 64-bit sizes. |
| `StateTree.PushAuditPath` | core/src/merkle.rs:68-80 | The path pushed hash by hash is the audit path of the spark log. |
| `StateTree.Verify` | core/src/merkle.rs:84-107 | The second verifier accepts exactly what the first one does, on every input. |
| `Leaves.GenomeBytes` | core/src/state.rs:717-731 | Eleven to fourteen bytes: gifts and extra lanes are there only when nonzero, and only the length tells. |
| `Leaves.GenomeInjective` | core/src/state.rs:717-731 | Genomes are told apart by their bytes although no tag says which optional part follows. |
| `Leaves.GenomeThenOption` | core/src/state.rs:644-676 | A genome of unknown length before an optional second parent: the whole length tells both. |
| `Leaves.OrganismInjective` | core/src/state.rs:644-655 | Organism leaves determine the organism. |
| `Leaves.CladeInjective` | core/src/state.rs:663-675 | Clade leaves determine the clade, its optional second parent included. |
| `Leaves.CellInjective` | core/src/state.rs:633-642 | Cell leaves determine the place and the cell. |
| `Leaves.EntryInjective` | core/src/state.rs:677-689 | Museum leaves determine the entry, its optional second parent included. |
| `Leaves.EffectInjective` | core/src/state.rs:691-698 | Effect leaves determine the effect. |
| `Leaves.RiftInjective` | core/src/state.rs:700-708 | Rift leaves determine the schedule of the cell. |
| `Leaves.SporeInjective` | core/src/state.rs:710-715 | Spore leaves determine the stored genome and its home. |
| `Leaves.CooldownInjective` | core/src/state.rs:541-547 | Cooldown leaves determine the cooldown, whatever byte its kind is. |
| `Leaves.CladeEffectInjective` | core/src/state.rs:531-539 | Leaves of patrons' effects determine the effect. |
| `Layouts.OrganismLayout` | core/src/state.rs:644-655 | Where every field of an organism is found, by a reader that takes integers of the format's widths. |
| `Layouts.CellLayout` | core/src/state.rs:633-642 | The same for a cell. |
| `Layouts.CladeLayout` | core/src/state.rs:663-675 | The same for a clade, with its genome in the middle and an optional second parent. |
| `Layouts.EntryLayout` | core/src/state.rs:677-689 | The same for a museum entry. |
| `Layouts.GenomeLayout` | core/src/state.rs:717-731 | The same for a genome and its two optional parts. |
| `Layouts.RiftLayout` | core/src/state.rs:700-708 | The same for a rift. |
| `Layouts.EffectLayout` | core/src/state.rs:691-698 | The same for an effect. |
| `Layouts.CooldownLayout` | core/src/state.rs:541-547 | The same for a cooldown. |
| `Layouts.CladeEffectLayout` | core/src/state.rs:531-539 | The same for a patron's effect. |
| `Layouts.SporeLayout` | core/src/state.rs:710-715 | The same for a stored genome. |
| `Layouts.SparkLayout` | protocol/src/spark.rs:52-57 | The same for an entry of the spark log. |
| `StateRoot.GlobalLayout` | core/src/state.rs:280-303 | The same for the global leaf, the lengths of the lists behind it. |
| `StateRoot.TreeRootInjective` | core/src/merkle.rs:46-51 | A root over leaf hashes determines the leaves and so their number: no interior node passes for a leaf. |
| `StateRoot.CooldownsAreNotCladeEffects` | core/src/state.rs:379-390 | A tree of cooldowns is never a tree of patrons' effects, so the two optional roots cannot be confused. |
| `StateRoot.TailsEqual` | core/src/state.rs:581-604 | Of two lists with two optional last parts and no marks, either each part is in the same place in both, or the first of one is the second of the other. |
| `StateRoot.PartsEqual` | core/src/state.rs:581-604 | States with one root have the same parts, the unmarked optional ones included. |
| `StateRoot.GlobalsInjective` | core/src/state.rs:280-303 | The global leaf determines every number of the state, and whether it has ended. |
| `StateRoot.RootDeterminesState` | core/src/state.rs:348-392 | Under ideal hashing two states that file every clade under its id have one root exactly when they are equal. |
| `StateRoot.RootDeterminesAllButKeys` | core/src/state.rs:348-392 | Any two states have one root exactly when they agree in all but the keys of their clades and list the same clades in the order of the keys. |
| `StateRoot.VerifyOrganism` | core/src/state.rs:621-630 | The check of an organism proof accepts exactly the proofs whose parts combine to the root and whose path leads to the root of organisms. |
| `StateRoot.AcceptedLives` | core/src/state.rs:621-630 | Whatever index and size it claims, an accepted proof is of an organism that lives in the state. |
| `StateRoot.AcceptedInPlace` | core/src/state.rs:621-630 | With the true size its index and path are the true ones. |
| `StateRoot.ProveOrganism` | core/src/state.rs:402-411 | The search by id finds an organism exactly when it lives, and its proof is accepted. |
| `Genomes.ComputeDistance` | core/src/genome.rs:97-106 | The accumulating loop computes half the sum of the lane differences. |
| `Genomes.GapParity` | core/src/genome.rs:97-106 | The sum of the lane differences is even exactly as the sum of both genomes' points is. |
| `Genomes.DistanceIsAMetric` | core/src/genome.rs:97-106 | Between genomes whose sums are all even or all odd, as under one budget, the distance is zero exactly for equal traits, symmetric, and keeps the triangle. |
| `Genomes.EvenExactly` | core/src/genome.rs:97-106 | Halving loses nothing exactly when both sums are even or both odd. |
| `Genomes.TriangleExactly` | core/src/genome.rs:97-106 | A result: of any three genomes the distance keeps the triangle exactly unless both sides lose a half step that the way between does not save. |
| `Genomes.NoStepExactly` | core/src/genome.rs:97-106 | Genomes are no step apart exactly when their traits are equal or one point apart. |
| `Genomes.Mutate` | core/src/genome.rs:228-321 | A child is valid and at most one step away; everything its draws decide is given: the pair a point moves along, the gene that changes and how, the hue, and each gift. |
| `Gifts.LoseGifts` | core/src/genome.rs:307-317 | Clearing bits one by one leaves exactly the gifts that their draws do not lose. |
| `Genomes.MutateTraits` | core/src/genome.rs:230-270 | The trait part: moved along the pair drawn evenly among all that can move, or unchanged. |
| `Genomes.MovablePairs` | core/src/genome.rs:245-254 | The array of pairs lists exactly the pairs that can move, each once and in order. |
| `Genomes.HuesAreEquallyLikely` | core/src/genome.rs:299-307 | Sixteen draws lead to sixteen hues, all those within eight steps of the parent's. |
| `Genomes.HabitatsAreEquallyLikely` | core/src/genome.rs:271-284 | Five draws lead to the five habitats that are not the parent's. |
| `Genomes.ValidExactly` | core/src/genome.rs:72-89 | Validity by the sum of the eight lanes and the range of every part. |
| `Genomes.Nudge` | core/src/genome.rs:324-331 | One step that bounces off the ends, always within range. |
| `Genomes.EditGenome` | core/src/miracle.rs:296-315 | The loop that edits in place applies at most two steps in order, and fails exactly when there are more or one is not possible. |
| `Genomes.EditsStayClose` | core/src/miracle.rs:296-315 | An edited genome keeps the budget and is at most one step per edit away. |
| `Genomes.EvenOut` | core/src/miracle.rs:249-282 | The evening loop takes exactly as many steps as the sum is away from the budget, each of a lane drawn evenly among those that can take one, and leaves lanes out of play alone. |
| `Genomes.CrossGenomes` | core/src/miracle.rs:200-293 | A hybrid spends the budget in play; it is valid exactly under rules with eight lanes or when the draws take nothing from either parent in the two lanes left out; behavior and hue come from the parent drawn; of the gifts offered exactly those pass whose draw says so while there are fewer than the most. Every lane and gene comes from the parent its draw says, and then every step of the evening is given. |
| `Gifts.PassGifts` | core/src/miracle.rs:283-291 | Setting bits one by one passes on exactly the gifts offered and drawn, in order, never more than the most. |
| `Genomes.HybridsAlwaysValid` | core/src/miracle.rs:200-293 | Under six-trait rules hybrids are valid whatever is drawn exactly when both parents have nothing in the last two lanes. |
| `Genomes.InvalidHybrid` | core/src/miracle.rs:200-293 | A result: two valid parents whose hybrid is never valid under six-trait rules. |
| `Philox.RoundInverts` | core/src/rng.rs:27-43 | Every round is undone by the inverses of its odd multipliers, and undoes them. |
| `Philox.Philox4x32` | core/src/rng.rs:27-43 | The loop computes ten rounds with the keys bumped in between. |
| `Philox.PhiloxIsAPermutation` | core/src/rng.rs:27-43 | Under one key Philox is a bijection on counters. |
| `Philox.OrIsSum` | core/src/rng.rs:153-165 | Or of a purpose below 256 with k shifted past it loses neither. |
| `Philox.DrawsNeverCollide` | core/src/rng.rs:153-163 | Two draws under one key come from one block exactly when tick, purpose, subject and k are all equal. |
| `Uniform.DrawBelow` | core/src/rng.rs:167-178 | The rejection loop returns the first attempt that is not among the 2^64 mod n smallest, and fails exactly when all attempts are. |
| `Uniform.NegatedRemainder` | core/src/rng.rs:167-178 | The threshold computed by wrapping negation is 2^64 mod n. |
| `Uniform.DrawsAreUniform` | core/src/rng.rs:167-178 | Each result below n has exactly floor(2^64 / n) accepted raw values. |
| `Randomness.ChanceIsADraw` | core/src/rng.rs:181-187 | A chance in parts of a million is a draw below it; the draws spared at none and at certainty change nothing. |
| `Philox.CounterInWords` | core/src/rng.rs:153-165 | Where everything a draw depends on stands in the counter. |
| `Philox.XorBits` | core/src/rng.rs:27-43 | A bit of the mixed words is set exactly when it is set in one of the two. |
| `Herd.LeaveKeeps` | core/src/sim.rs:773-783 | Closing up a cell's list after a departure leaves an index that lists exactly the living of each cell. |
| `Herd.EnterKeeps` | core/src/sim.rs:766-771 | An arrival in a cell with room keeps the index exact. |
| `Herd.MoveKeeps` | core/src/sim.rs:1263-1264 | A step from one cell into another with room keeps the index exact. |
| `Herd.BirthKeeps` | core/src/sim.rs:1440-1455 | A newborn takes the next place and a slot in a cell with room. |
| `TickState.Scratch.Reset` | core/src/sim.rs:749-764 | Every list is emptied and everyone is alive. |
| `TickState.Scratch.Add` | core/src/sim.rs:766-771 | The cell's list gains one entry behind the others; nothing else changes. |
| `TickState.Scratch.Remove` | core/src/sim.rs:773-783 | The entry is taken out and the later ones move up; nothing else changes. |
| `Environment.SpreadEffect` | core/src/sim.rs:915-1008 | The scan of an effect's square applies it to exactly the cells it covers. |
| `Environment.Weather` | core/src/sim.rs:915-1008 | After the first step of a tick every cell has drifted, rotted and grown as the effects on it say, within its bounds; acting biomes and move costs are those of the effects; run-out effects are gone. |
| `Environment.Drift` | core/src/sim.rs:915-1008 | Moisture moves to its target without passing it. |
| `Climates.SeasonsTakeTurns` | core/src/climate.rs:20-23 | Spring, summer, autumn and winter last a quarter of the year each, in that order, year after year. |
| `Climates.MiddleTakesItsValue` | core/src/climate.rs:26-38 | In the middle of a quarter its own value holds. |
| `Climates.SeasonalIsLinear` | core/src/climate.rs:26-38 | From the middle of one quarter to that of the next values run along the straight line between theirs, rounded down, negative ones too. |
| `Climates.NoSteps` | core/src/climate.rs:26-38 | Values that differ by no more than a quarter has ticks change by at most one from one tick to the next. |
| `Climates.ColdBitesInTheNorth` | core/src/climate.rs:61-69 | Full cold in the middle of winter at the northern edge, none at the southern edge or in the middle of another quarter. |
| `Climates.ColdIsLinear` | core/src/climate.rs:61-69 | In between, the cold falls row by row along a straight line, rounded down. |
| `Climates.MoistureIsLinear` | core/src/climate.rs:73-79 | Growth by moisture runs along the line from its least to its most, rounded down. |
| `Environment.NothingLostButExcess` | core/src/sim.rs:971-997 | What rots turns into food, new food grows, and only what the biome cannot hold is lost; deep water and flooded cells wait. |
| `Environment.RegrowthExactly` | core/src/sim.rs:984-992 | Growth is in proportion to biome, time of year, moisture and effects, rounded down once, and once more on a fault. |
| `Environment.EffectsMultiply` | core/src/sim.rs:915-1008 | Each effect on a cell takes its share of what the earlier ones left, rounded down; floods leave growth alone. |
| `Environment.CoversExactly` | core/src/state.rs:157-166 | Fires and floods are discs by Pythagoras, floods on floodable land only; the other effects are squares. |
| `Threats.Tabulate` | core/src/sim.rs:1182-1210 | The table of the two strongest hunters answers for every clade what a scan of the 3 x 3 area would. |
| `Threats.ScanIsStrongest` | core/src/sim.rs:1182-1226 | That scan is the strongest hunter of another clade within one cell. |
| `Choices.Weigh` | core/src/sim.rs:1112-1150 | The score read from the table is the score by a scan. |
| `Choices.ChooseTarget` | core/src/sim.rs:1091-1167 | The chosen cell has the largest score in sight, and the smallest draw among the equals, although draws are made only for ties. |
| `Choices.ChoosePrey` | core/src/sim.rs:1276-1321 | The prey has the largest margin in reach and the smallest id among equals; none only when nobody can be hunted. |
| `Walks.StepGoesNearer` | core/src/sim.rs:1245-1262 | A step goes to a neighbouring cell that can be entered, strictly nearer by rows and columns and no farther in a straight line. |
| `Walks.StuckExactly` | core/src/sim.rs:1245-1262 | No step leads on exactly when no neighbouring cell that is nearer by rows and columns can be entered. |
| `Walks.DiagonalFirst` | core/src/sim.rs:1248 | A diagonal that gains in both is taken whenever it can be entered; otherwise a step along the row comes before one along the column. |
| `Walks.Walk` | core/src/sim.rs:1230-1273 | A walk follows, step by step, the neighbour preferred by the room there was when it began, charged cell by cell; it ends at the target, at its length, or where no step leads on. |
| `Deaths.Kill` | core/src/sim.rs:1323-1356 | A death takes the organism out of the index, its clade and the count, and adds its remains to its cell; nothing else changes. |
| `Acts.Move` | core/src/sim.rs:1020-1029 | An organism that can walk goes to the best cell in sight, as far as it can; the whole change of state is given: its place and what it has spent. |
| `Acts.Hunt` | core/src/sim.rs:1031-1059 | A hungry hunter attacks the prey with the largest margin, the smallest id among equals, and rests only when there is none; it wins exactly when the margin and its roll exceed the roll of the prey. |
| `Acts.Strike` | core/src/sim.rs:1034-1058 | An attack is paid for; it is won exactly when the margin plus the attacker's draw exceeds the defender's, and only then the prey dies, leaves remains, and its hunter feeds. |
| `Acts.OutsideTheRoll` | core/src/sim.rs:1037-1045 | A margin above the span of the rolls always wins, and one as far below never does. |
| `Acts.StrongerStillWins` | core/src/sim.rs:1037-1045 | Under the same draws more hunting and perception, or less defense, movement and perception of the prey, never lose a victory. |
| `Choices.MarginInPoints` | core/src/genome.rs:134-142 | Twice the margin, to within the half point of perception that is rounded: a weight for each point of hunting and of defense, one for perception and movement, and the cover of the ground. |
| `Acts.KillFeeds` | core/src/sim.rs:1048-1050 | A kill is worth a share of what the prey had left, rounded down, and a body, up to what an organism can hold. |
| `Acts.MealExactly` | core/src/sim.rs:1061-1087 | Plants first and as far as the bite and the cell allow, then for scavengers detritus up to the bite, worth 33 of 100; rounded down. |
| `Weighing.ScoreInParts` | core/src/sim.rs:1125-1150 | A cell's score in its parts: the rounded shares of the meal and of the peril, the chance of prey, habitat, crowd and distance. |
| `Weighing.FoodDrawsAndCrowdsRepel` | core/src/sim.rs:1125-1150 | More food never makes a cell worse, and each further organism makes it worse by exactly its price. |
| `Weighing.TheBoldFearLess` | core/src/sim.rs:1143 | The bolder an organism, the better it likes every cell. |
| `Weighing.HungryExactly` | core/src/sim.rs:1176-1179 | Hungry is who hunts and has less than the share of what it can hold, by a comparison without division. |
| `Acts.Graze` | core/src/sim.rs:1061-1087 | What is eaten leaves the cell, never more than there is, and becomes energy up to the cap. |
| `Acts.Act` | core/src/sim.rs:1011-1088 | A whole turn is its walk and then an attack or, with no prey to attack, a meal; the state after each is given, and the invariants of the tick hold. |
| `Upkeep.SurvivorsLive` | core/src/sim.rs:871-895 | Whoever survives upkeep has energy left and is younger than the age of certain death; starvation is exactly running out. |
| `Upkeep.LivesOnExactly` | core/src/sim.rs:871-895 | Who lives on, by a comparison without division: more energy than the cost, less than the greatest age, and past the start of old age a draw above its share of the way to the greatest. |
| `Upkeep.HomeIsCheaper` | core/src/sim.rs:850-859 | At home a share of the cost is saved, elsewhere it is added, half of it for the hardy; each rounded down; a generalist pays the same everywhere. |
| `Upkeep.CostInParts` | core/src/sim.rs:849-870 | The whole cost: traits, habitat, the cold of the row in winter rounded down, and the water for those who do not swim. |
| `Upkeep.PayAll` | core/src/sim.rs:833-896 | Everyone alive pays once in order of id; the state after each payment is given: what is left, who dies, and the body it leaves behind. |
| `Births.RoomsAreNeighbors` | core/src/sim.rs:1389-1399 | The candidate sites are exactly the neighbouring cells that can be entered. |
| `Births.ChooseSite` | core/src/sim.rs:1384-1402 | Home if it has room, otherwise the neighbour with room that the draw picks; none exactly when all are full. |
| `Births.Bear` | core/src/sim.rs:1408-1457 | Parent and child together have what the parent had, less the price; the child joins its parent's clade exactly when it is close to its reference, and otherwise founds one in its own likeness. |
| `Births.Breed` | core/src/sim.rs:1360-1462 | The whole change of state: who is not ready, held back by the cap or crowded out does not breed, and exactly those; otherwise a mutant is born at home or where the draw puts it, with the next id. |
| `Births.BreedAll` | core/src/sim.rs:1360-1462 | The state after each organism's chance to breed is given; newborns are numbered on, each next to its parent, and exactly they enter the register. |
| `Ticks.IndexOrganisms` | core/src/sim.rs:797-816 | The index built at the start lists everyone once and counts every cell, with the strongest hunter and weakest prey of each cell. |
| `Ticks.FillQueue` | core/src/sim.rs:818-823 | Everyone has one turn, with its own draw as key, in the order of keys and then ids. |
| `Ticks.ActAll` | core/src/sim.rs:825-831 | The state after each turn is given: the living take their turns in the order of the queue, and whoever died before does nothing. |
| `Steadiness.RetainedGathers` | core/src/sim.rs:901-908 | Dropping the dead leaves exactly the living, in order, with true counts. |
| `Steadiness.DropDead` | core/src/sim.rs:901-908 | The list after a tick is the living ones of before. |
| `Steadiness.CloseExtinctClades` | core/src/sim.rs:591-618 | Clades without members are removed in order of id, the named ones into the museum up to its capacity. |
| `Steadiness.ArchivedExactly` | core/src/sim.rs:602-616 | A named clade comes last into the museum, and when it is full the first entry goes; other clades leave no entry. |
| `Steadiness.ClosedIsSteady` | core/src/sim.rs:591-618 | After that every invariant holds again. |
| `Ticks.RunTick` | core/src/sim.rs:786-910 | From any state the check accepts, a tick panics exactly when an effect has no tick left; otherwise the check accepts the state after it, the ground stays, everyone below the old numbers walked where it stands, everyone above has its parent among those before on linked ground and is on the register as it was born; clades that held together and references that were valid stay so. The whole course of the tick is given as well: environment, index, queue, every turn, every payment, every birth, and who is left. |
| `Steadiness.CulledCohere` | core/src/sim.rs:591-618 | Dropping the dead and closing their clades, everyone left is still close to its clade's reference. |
| `Cohesion.BranchedCohere` | core/src/sim.rs:1408-1435 | Births leave clades that held together so: a child joins a clade only when it is close to its reference. |
| `Checking.CheckOrganisms` | core/src/state.rs:429-463 | The running checks of order, bodies and crowding pass exactly when they hold of every organism, and the counts per clade are true. |
| `Checking.CheckClades` | core/src/state.rs:464-477 | The checks of the clades pass exactly when each is filed under its id with its true count. |
| `Checking.CheckInvariants` | core/src/state.rs:414-504 | The check passes exactly on the states that keep the invariants. |
| `Rifting.ShiftedGround` | core/src/sim.rs:153-186 | A map moved along its schedule has caught up with it, has only sunk, and deep rifts are deep water. |
| `Rifting.PhasesInTurn` | core/src/state.rs:99-109 | A rift cracks, faults, sinks and is deep exactly from the epochs of its schedule on, and never comes back. |
| `Rifting.ShiftedExactly` | core/src/sim.rs:156-181 | What each phase makes of a cell that has not reached it. |
| `Rifting.NearestExactly` | core/src/sim.rs:197-216 | Whoever is carried lands in the nearest dry cell with room by straight distance, and of those as near in the first of the map. |
| `Rifting.Rescue` | core/src/sim.rs:191-240 | Everyone on a cell that sank is carried to the nearest land with room, or drowns where there is none; nobody else moves. |
| `Rifting.RiftChanges` | core/src/sim.rs:153-186 | From any state the check accepts, the first step of the boundary leads to one it accepts, brings every rift to its phase and leaves nobody on deep water; clades that died out are closed and kept in the museum with their references. |
| `Events.CellsWhere` | core/src/sim.rs:264-275 | The list of candidate cells holds exactly the cells that qualify, in order. |
| `Events.Flood` | core/src/sim.rs:264-299 | A flood starts exactly when its draw, its limit and a cell by the water allow, in a cell drawn evenly among these, and touches exactly what it covers. |
| `Events.HappensExactly` | core/src/sim.rs:242-244 | Whether an event may happen: fewer effects of its kind than the limit, by count, and the epoch's draw below its chance. |
| `Events.CanFloodExactly` | core/src/sim.rs:264-299 | What a flood can start from: swamps, and low land one step from water. |
| `Events.Drought` | core/src/sim.rs:347-378 | The same for a drought. |
| `Events.Wildfire` | core/src/sim.rs:301-345 | A fire burns exactly what it covers and singes, never kills, who stands there. |
| `Events.SingedExactly` | core/src/sim.rs:301-345 | A fire leaves an organism its share of energy, rounded down, and at least one. |
| `Plagues.Dominant` | core/src/sim.rs:435-439 | The dominant clade has the largest membership, the smallest id among equals. |
| `Plagues.Start` | core/src/sim.rs:429-457 | A plague starts exactly when one breaks out: in the dominant clade, above its share, when the chance that grows with the share is drawn, at a drawn member. |
| `Plagues.Plague` | core/src/sim.rs:429-495 | It strikes exactly when one breaks out and reaches enough members; it kills exactly those it reaches whose own draw says so; bodies, clades and museum afterwards are given. |
| `Plagues.DominanceIsDangerous` | core/src/sim.rs:443-448 | The chance grows along a line from none at the least share to the most when there is one clade only, rounded down. |
| `Plagues.ReachedExactly` | core/src/sim.rs:459-466 | It reaches the members of its clade in a disc like that of a fire. |
| `Revivals.RevivalOrder` | core/src/sim.rs:501-586 | The list of revivals stays ascending exactly when the last one is earlier than this epoch; a cooldown of at least one sees to it. |
| `Revivals.IdOrder` | core/src/state.rs:434-442 | A newborn keeps the ids ascending exactly when ids do not start from zero. |
| `Revivals.FoundingKeepsPeople` | core/src/sim.rs:531-572 | A clade founded from a valid genome, with room for its members and ids above zero, keeps every invariant of the organisms and clades. |
| `Revivals.FoundingExact` | core/src/sim.rs:531-572 | A founding keeps the invariants exactly when it placed nobody, or the genome is valid and ids do not start from zero. |
| `Revivals.Germinate` | core/src/sim.rs:519-574 | Sprouts stand on land with room, each in a cell drawn evenly among those free in its turn, of the genome's home where there is any, and found one new clade; there are none exactly when the world is full. |
| `Revivals.SproutsAreNew` | core/src/sim.rs:545-554 | Sprouts are of age zero, without parents, of the genome's lineage and clade, with the energy of a beginning. |
| `Revivals.FoundsOneClade` | core/src/sim.rs:557-572 | A founding adds exactly one clade of as many members as were placed, in the likeness of its founder, or none. |
| `Revivals.NoRescueExactly` | core/src/sim.rs:504-515 | When no rescue comes: a season over, no spore bank, none to place, enough alive, or the last revival too near. |
| `Revivals.SeasonOverExactly` | core/src/sim.rs:577-585 | The season ends exactly when as many revivals as it takes lie within its last days, by count. |
| `Revivals.Reseed` | core/src/sim.rs:519-574 | The whole spore bank in turn: each genome places nobody exactly when the world is full at its turn, and the invariants hold exactly when whoever was placed has a valid genome and an id above zero; what each genome in turn added is given. |
| `Revivals.NaturalRevival` | core/src/sim.rs:501-586 | From any state the check accepts: a revival happens exactly when the world has too few and the cooldown has passed; too many end the season; and the state after it is accepted exactly when nothing was needed, or the last revival was in an earlier epoch and whoever was placed has a valid genome and an id above zero. |
| `Miracles.SquareOf` | core/src/miracle.rs:133-144 | The square around a cell, clipped to the map, holds exactly the cells within the radius, in order. |
| `Miracles.FirstRoom` | core/src/miracle.rs:642-658 | The search finds the first land cell with room around the target, or none when there is none. |
| `Possible.CheckExactly` | core/src/miracle.rs:353-547 | For every kind of miracle: it is possible exactly when all its demands are met, and otherwise refused for the first that is not; demands are counts of organisms and distances on the map. |
| `Possible.WeatherExactly` | core/src/miracle.rs:357-376 | Weather: on the map, clear of every running effect, and no weather bought within twice the radius of late. |
| `Possible.MigrateExactly` | core/src/miracle.rs:377-407 | A relocation: both ends on the map, the clade alive, at least the least number of its members within the radius of the source, not relocated of late, and land with room within a step of the target. |
| `Possible.ReviveExactly` | core/src/miracle.rs:408-439 | A revival: on land, of an entry that is there and has been gone for long enough, edited by at most two possible steps, not revived of late, and with few enough around. |
| `Possible.ParentExactly` | core/src/miracle.rs:318-341 | A revival from the museum descends from the clade it names, one from the spore bank from none. |
| `Possible.StepsExactly` | core/src/miracle.rs:296-315 | Which edits are possible: at most two, each from a trait that has a point to one that is not full, the second after the first. |
| `Applying.ApplyMigrate` | core/src/miracle.rs:639-669 | Exactly the lowest ids near the source move, one by one, to the first land with room around the target. |
| `Applying.WateredExactly` | core/src/miracle.rs:612-621 | Rain adds moisture up to the most a cell holds, dry weather takes it down to none. |
| `Applying.WeatherExactly` | core/src/miracle.rs:622-637 | Weather makes one effect of its kind, and rests for the epochs it reaches into and those of the cooldown. |
| `Applying.RevivedIsValid` | core/src/miracle.rs:676-678 | A revived genome keeps the budget and is at most two steps from the stored one. |
| `Applying.ApplyRevive` | core/src/miracle.rs:670-736 | A possible revival founds one clade of the edited genome on land with room; from any state the check accepts, the state after it is accepted exactly when nobody was put down, or the edited genome is valid and ids do not start from zero. |
| `Applying.PlantedNobody` | core/src/miracle.rs:683-712 | Nobody is put down exactly when none is asked for, the world has its number, or the land around is full. |
| `Applying.RevivalsHoldExactly` | core/src/miracle.rs:670-736 | Every possible revival keeps the invariants exactly when every genome that can be revived somewhere is valid as stored, and ids do not start from zero if there is one. |
| `Applying.DoneLeavesApart` | core/src/miracle.rs:353-407 | A miracle that was applied leaves possible every miracle apart from it. |
| `Offerings.Apply` | core/src/miracle.rs:578-600 | The miracles are taken in a stable order by kind, each checked in its turn and applied or refused for its own reason; where stored genomes are valid as far as anything can be revived, the check accepts the state after them. Each is reported once: applied exactly when its demands are met in its turn, otherwise refused for the first that is not. |
| `Offerings.CompatibleAllApplied` | core/src/miracle.rs:578-600 | Miracles pairwise apart, each possible at first, are all applied. |
| `Offerings.NoneRefused` | core/src/miracle.rs:578-600 | The same from the state before expired cooldowns are dropped. |
| `Offerings.DoneKeeps` | core/src/miracle.rs:602-885 | Every miracle keeps stored genomes valid, clades together and effects running. |
| `Fulfilment.LedgerSufficesExactly` | protocol/src/ledger.rs:27-76 | Weather and relocations on the map that are each possible and pairwise free of the ledger's conflicts are all applied, in every state: exactly when the weather radius is at most 3 or the map is at most seven by seven. |
| `Fulfilment.FairAllApplied` | protocol/src/ledger.rs:27-76 | The direction that matters: with that radius, or on such a map, none of them is refused. |
| `Fulfilment.WideRainsOverlap` | protocol/src/ledger.rs:27-76 | The other direction: from radius 4 on, on any larger map, two rains seven apart are each possible and free of conflict, and the second is refused because it overlaps. |
| `Epochs.NaturalEvents` | core/src/sim.rs:133-145 | From any state the check accepts, the natural events lead to one it accepts; nobody moves and the ground stays. What happened is given: floods in spring, fires and then droughts in summer, and then perhaps a plague. |
| `Epochs.Boundary` | core/src/sim.rs:124-150 | The boundary of a viable world ends in an accepted one that is viable for the next epoch; once every rift is deep the ground stays, and without relocations survivors stay where they are and the others are foundlings put down on land, each on the register. The states between rifts, nature, miracles and natural revival are given, and what each of them did. |
| `Epochs.StepEpoch` | core/src/sim.rs:89-104 | One epoch of an accepted and viable world ends in one that is accepted and viable; with deep rifts and without relocations the register of births goes on. Its whole course is given: the boundary and every tick. |
| `Epochs.Run` | core/src/sim.rs:84-104 | The same for any number of epochs with any miracles and any randomness: the ground only sinks, and not at all once every rift is deep; from then on, without relocations, the register has everyone alive at the beginning and everyone born since, with its parent or as a foundling on land, over linked ground. The course of every epoch is given. |
| `Epochs.DeepAtLast` | core/src/sim.rs:153-186 | Past the last deep epoch a map that has caught up has only deep rifts. |
| `Epochs.DeepRiftsIsolate` | core/src/rifts.rs:182-186 | On a planned map whose rifts are deep, no step leads from one plate to another. |
| `Kinship.LinkedOnOnePlate` | core/src/sim.rs:1230-1273 | On isolated plates whatever is linked by passable steps is on one plate. |
| `Kinship.Record` | core/src/sim.rs:1358-1462 | The register goes on through births and foundings: newborns are traced to a registered parent born before on linked ground, or founded on land; the living have not left the ground linked to where they were first seen. |
| `Kinship.BirthOnPlate` | core/src/sim.rs:1358-1402 | On isolated plates everyone born since was born on the plate of its registered parent. |
| `Kinship.LifeOnPlate` | core/src/sim.rs:1230-1402 | On isolated plates everyone alive is on the plate where it was first seen, and on that of the one it descends from, who was alive at the beginning or has been founded since. |
| `Genesis.ChooseStart` | core/src/map.rs:85-116 | A lineage starts at a site of the most wanted kind that there is, of six; at none exactly when there is no land. |
| `Genesis.WelcomeExactly` | core/src/map.rs:71-117 | The six kinds of sites by what they ask: biome, plate, and distance from other plates. |
| `Genesis.Rings` | core/src/map.rs:120-160 | Founders fill rings of land around the site, numbered on, never above the limit of a cell; there are fewer than asked for only when all land within sixteen steps is full. |
| `Genesis.SettlersJoin` | core/src/map.rs:120-175 | A lineage of any ages joins the people: ids, counts of clades and cells, genomes and energies stay in order. |
| `Genesis.Begin` | core/src/map.rs:32-178 | A world at its beginning lies on its map with its schedule of rifts; the check accepts it exactly when its founders are not more than the world may have; its clades hold together and every epoch will be viable. |
| `Seasons.BrokenApart` | core/src/rifts.rs:163-341 | Past the last bridge day a planned map that has caught up with its schedule has only deep rifts and isolated plates. |
| `Seasons.RecordedKeptApart` | core/src/sim.rs:1230-1402 | What the register tells on isolated plates: no birth, no life and no line of descent crosses from one plate to another. |
| `Seasons.Season` | core/src/sim.rs:84-104 | From the beginning of a world, for all randomness and miracles, every epoch ends in an accepted state and clades hold together; after the last bridge day the plates are isolated, and without relocations everyone is on the plate of its birth, of its parent and of its first ancestor. |
| `Unviable.RevivedTwice` | core/src/state.rs:414-504 | A result: an accepted world that a revival breaks because no cooldown keeps it from coming twice in an epoch. |
| `Unviable.BornAsZero` | core/src/state.rs:414-504 | A result: an accepted world that a revival breaks because its ids start from zero. |
| `Unviable.BadSpore` | core/src/state.rs:414-504 | A result: an accepted world that a revival breaks because a spore is invalid. |
| `Unviable.BadMuseum` | core/src/state.rs:414-504 | A result: an accepted world that a possible miracle breaks because a museum entry is invalid. |
| `Unviable.BadReference` | core/src/state.rs:414-504 | A result: an accepted world whose only clade has an invalid reference; it drowns as a rift sinks, still accepted, and its revival breaks the world. |
| `Unviable.SpentEffect` | core/src/sim.rs:1000-1008 | A result: an accepted world whose next tick panics because an effect has no tick left. |
| `Waves.Search` | core/src/rifts.rs:188-204 | The breadth-first search gives every rift cell its true shortest distance from the ocean along rift cells, and none to those not reached. |
| `Waves.ExactlyOnce` | core/src/rifts.rs:188-204 | There is one true distance. |
| `RiftPlan.Chart` | core/src/rifts.rs:182-196 | The rift cells are exactly the passable cells next to another plate; the shore those next to the ocean. |
| `RiftPlan.BoundaryLiesOnRift` | core/src/rifts.rs:182-186 | Of two neighbours on two plates, a passable one is a rift cell. |
| `RiftPlan.CloseOrder` | core/src/rifts.rs:287-292 | The shuffle in place gives every bridge once. |
| `RiftPlan.CloseEpochs` | core/src/rifts.rs:293-298 | With n bridges the one at place p closes at the last whole epoch that is not past p of n parts of the way between the two bridge days. |
| `RiftPlan.OneByOne` | core/src/rifts.rs:293-298 | Things spread evenly start with the first at once, none comes earlier than the one before, and with an epoch for each they come one by one. |
| `RiftPlan.RiftsExactly` | core/src/rifts.rs:165-186 | Rift cells and shores by king's steps: passable cells beside another plate, and those with deep water beside them. |
| `RiftPlan.AssignBridges` | core/src/rifts.rs:270-282 | A rift cell belongs to the first bridge whose site has it within reach, and to none exactly when no site has. |
| `RiftPlan.WavesSinkInOrder` | core/src/rifts.rs:299-324 | Fault, shallows and deep come in order; a later wave sinks no earlier; all are deep before any bridge closes. |
| `RiftPlan.Plan` | core/src/rifts.rs:164-341 | The plan schedules exactly the rift cells, once each and in order, by their true distances and their bridges' epochs; bridges close one by one and the other cells sink in waves by distance, spread evenly, cells that no rift leads to with the last. |
| `RiftPlan.ScheduleInOrder` | core/src/rifts.rs:284-324 | Of any two scheduled cells: phases in order, farther waves no earlier, and every non-bridge cell deep no later than any bridge closes. |
| `RiftPlan.PlannedPlatesPart` | core/src/rifts.rs:164-324 | A planned map whose rifts are all deep has isolated plates. |
| `Ledger.ConflictsAreMutual` | protocol/src/ledger.rs:27-76 | The conflict relation is symmetric, for all kinds of actions. |
| `Ledger.ConflictsExactly` | protocol/src/ledger.rs:27-76 | For all kinds of actions: by the places they share, the clade with the same act, or the same pair of clades. |
| `Ledger.Multipliers` | protocol/src/ledger.rs:14-16 | The multiplier of every kind of action. |
| `Ledger.ReadinessGrows` | protocol/src/ledger.rs:104-108 | More work never takes a wish off the ready list, and a higher price never puts one on. |
| `Ledger.ReadyExactly` | protocol/src/ledger.rs:104-108 | The ready list has exactly the candidates whose work covers their price, by an inequality without division. |
| `Ledger.ShareSteps` | core/src/miracle.rs:93-110 | Where the share for harm steps down, and the square that bounds the share for help. |
| `Ledger.SharesExactly` | core/src/miracle.rs:114-125 | Which of the two a wish pays, and the whole price for what names no clade. |
| `Ledger.ClosedExactly` | core/src/miracle.rs:93-125 | When a patron's action has no price: harm to the few, help to the many, and worlds without patrons. |
| `Ledger.CrossTransitive` | protocol/src/ledger.rs:109-116 | Cross-multiplied fractions compare transitively when the denominators are positive. |
| `Ledger.RankIsAnOrder` | protocol/src/ledger.rs:109-116 | With positive shares and a tiebreak that tells candidates apart the ranking is a total order. |
| `Ledger.SharesArePositive` | core/src/miracle.rs:93-125 | No share of a price is below three quarters; help costs no less for a larger clade, harm no more. |
| `Ledger.PricedIsAnOrder` | protocol/src/ledger.rs:109-116 | So candidates priced in one state are always ranked in a total order. |
| `Ledger.SelectMiracles` | protocol/src/ledger.rs:104-139 | The sorting and picking loops compute the selection; of distinct wishes the ready ones are exactly those with price times multiplier times share below 10000 times one more than their work. |
| `Ledger.PicksAreGreedy` | protocol/src/ledger.rs:117-126 | At most three, no two in conflict; whoever is left out conflicts with a better one taken or finds three better ones. |
| `Ledger.GreedyIsUnique` | protocol/src/ledger.rs:117-126 | There is one such choice. |
| `Ledger.SelectionIsGreedy` | protocol/src/ledger.rs:104-139 | The ready list holds exactly the candidates whose work covers their price, by the same inequality, in rank order, and what is selected is that one greedy choice of at most three. |
| `Ledger.OrderDoesNotMatter` | protocol/src/ledger.rs:104-139 | Any arrangement of the candidates gives the same ready list, selection and price. |
| `Ledger.PriceMoves` | protocol/src/ledger.rs:127-133 | The price never falls below its floor, moves by an eighth, rounded down: up when ready wishes are left over, down when slots stay empty, and not at all otherwise. |
| `Sparks.LeafBytesInjective` | protocol/src/spark.rs:52-57 | The 80 bytes of a log entry determine the epoch and the spark. |
| `Sparks.IdsDiffer` | protocol/src/spark.rs:60-62 | Spark ids tell sparks of one epoch apart. |
| `Sparks.ReceiptVerifies` | protocol/src/sth.rs:78-88 | A path taken from the log under its head verifies. |
| `Sparks.ReceiptProves` | protocol/src/sth.rs:78-88 | A receipt that verifies under a head of a log proves its spark in the log at its place. |
| `IntakeTables.TargetMoves` | protocol/src/spark.rs:118-126 | A target moves by at most a quarter, and not after an empty window. |
| `IntakeTables.NextTargetExactly` | protocol/src/spark.rs:118-126 | The next target is the old one times 20 000 over the sparks accepted, rounded down, held between three and five quarters of the old one, and between one and what 64 bits hold. |
| `IntakeTables.RecordedWeight` | server/src/intake.rs:768-780 | A result: the recorded target gives the weight of the real one exactly up to 2^63; above, a spark is credited one unit and the record says two. |
| `IntakeTables.TargetsPassTheRecord` | server/src/intake.rs:768-780 | That point is reached: one spark in a window at the largest recorded target passes it. |
| `IntakeTables.WeightExactly` | pow/src/lib.rs:80-83 | A spark weighs 2^64 divided by its target, rounded down; one less for a target of one, which 64 bits do not hold. |
| `IntakeTables.LastBefore` | server/src/intake.rs:759-767 | The last window before an epoch, found by descending order. |
| `IntakeTables.TakenOnce` | server/src/intake.rs:1006-1020 | A log takes each spark once, forgets none, and holds exactly the old and the new ones. |
| `IntakeTables.HeadsAgree` | server/src/intake.rs:867-891 | Any two heads signed for an epoch, at any time, are consistent: the log has a proof that the verifier accepts. |
| `IntakeTables.EarnedMore` | server/src/intake.rs:837-855 | Closing a window adds to every wish the weight of its target for each of its sparks. |
| `IntakeTables.WorkCredited` | server/src/intake.rs:837-855 | After a close every wish's work is the sum over the closed windows; a wish not in the table has none. |
| `IntakeTables.EarnedFromTheRecord` | server/src/intake.rs:837-855 | The sum over recorded targets is the same when no target passed 2^63. |
| `IntakeTables.AnswerTo` | server/src/intake.rs:676-718 | A wish the world was given gets its own answer: executed in that epoch when it applied, waiting again when deferred, invalidated and never waiting again when refused; nothing else of it changes. |
| `IntakeTables.NoAnswerTo` | server/src/intake.rs:676-718 | No other wish changes. |
| `IntakeTables.KeptSigned` | server/src/intake.rs:867-891 | A new head keeps the tables: it is the root of the current log. |
| `IntakeTables.KeptAppended` | server/src/intake.rs:1006-1020 | A new spark keeps the tables: no duplicates, every earlier head still the root of a prefix, every log grown. |
| `IntakeTables.KeptClosed` | server/src/intake.rs:820-864 | Closing keeps the tables and every log; no wish is lost, reopened or robbed of work. |
| `IntakeTables.KeptSelected` | server/src/intake.rs:652-662 | Selecting keeps the tables: the selected are distinct and were waiting. |
| `IntakeTables.KeptAnswered` | server/src/intake.rs:676-718 | Answering keeps the tables: a wish that is executed had not been executed before. |
| `IntakeTables.KeptAdded` | server/src/intake.rs:977-995 | A new wish starts without work, and at most three of an author are open. |
| `SparkIntake.Intake.constructor` | server/src/intake.rs:320-411 | An empty database is in order. |
| `SparkIntake.Intake.Restart` | server/src/intake.rs:320-411 | A process that starts again finds the tables as they were. |
| `SparkIntake.Intake.WindowFor` | server/src/intake.rs:746-782 | A known window keeps its challenge and target; a new one follows the last window and commits to the header. |
| `SparkIntake.Intake.OpenWindow` | server/src/intake.rs:745-815 | Opening sets the window, picks up the sparks already logged, keeps the late ticket, signs a head, and keeps every invariant. |
| `SparkIntake.Intake.Precheck` | server/src/intake.rs:906-928 | A spark passes exactly when the window is open, its wish is open and the log does not have it. |
| `SparkIntake.Intake.Take` | server/src/intake.rs:1011-1018 | One spark is appended exactly when the log does not have it. |
| `SparkIntake.Intake.Append` | server/src/intake.rs:999-1034 | The log grows by the batch's new sparks, all under one fresh head; each spark gets its receipt or its refusal; every final mark survives exactly when no final head is in the new one's place, as none is while the window is open; every invariant is kept. |
| `SparkIntake.ReceiptsHold` | server/src/intake.rs:999-1034 | A spark gets a receipt exactly when its window is open and it is new; the receipt verifies and places it in every later state of the log. |
| `SparkIntake.Intake.CloseWindow` | server/src/intake.rs:820-864 | The whole new state: the final head alone left of its epoch, packed log, accepted size, credited and lapsed wishes; a second close does nothing; every invariant is kept. |
| `SparkIntake.Tally` | server/src/intake.rs:837-842 | The map of sums holds each wish's sparks times the weight, and nothing else. |
| `SparkIntake.Credit` | server/src/intake.rs:843-855 | Adding the sums gives every wish its own work. |
| `IntakeTables.ClosedFinals` | server/src/intake.rs:825-836 | When a window closes its final head is the only one left of its epoch, and the final heads of other epochs stay. |
| `IntakeTables.SignedFinals` | server/src/intake.rs:867-891 | A head that is not final leaves every final one alone exactly when none of them is in its place. |
| `SparkIntake.LateBatch` | server/src/intake.rs:999-1034 | A result: open, close, and a batch that comes late: it is refused, yet the head signed for it takes the final one's place, same root and size, and no head of the epoch is final any more. |
| `SparkIntake.WorkAddsUp` | server/src/intake.rs:820-864 | In every reachable state each wish's work is what anyone can add up from windows and logs, when no target passed 2^63. |
| `SparkIntake.Candidates` | server/src/intake.rs:622-651 | The candidates are exactly the waiting wishes that have a price, each once. |
| `SparkIntake.ListingsPermute` | server/src/intake.rs:622-651 | However the table is read, the candidates are the same. |
| `SparkIntake.AnyListingSelects` | server/src/intake.rs:615-671 | So every reader selects the same, with positive shares and a tiebreak that tells wishes apart. |
| `SparkIntake.PricedListingsSelect` | server/src/intake.rs:615-671 | With the shares of one state, which are never zero, every reader selects the same whatever the order of the table. |
| `SparkIntake.SelectedAreListed` | server/src/intake.rs:652-668 | The selected are candidates, each once, and among the ready. |
| `SparkIntake.Intake.SelectMiracles` | server/src/intake.rs:615-671 | Statuses and price after a selection are exactly those of the ledger; every invariant is kept. |
| `SparkIntake.Intake.Record` | server/src/intake.rs:676-718 | For every wish given: applied means executed in that epoch, deferred waiting again, refused never waiting again; wish and work stay, every other row stays, and each is logged under its place with its outcome. Executed ids grow without repetition, so no wish is executed twice. |
| `IntakeTables.LapsedExactly` | server/src/intake.rs:856-860 | Open wishes past their lifetime expire, and no others. |
| `IntakeTables.CheckedExactly` | server/src/intake.rs:578-609 | The soft check ends those of the open and queued wishes that can never apply, and touches no other. |
| `IntakeTables.SelectionMarks` | server/src/intake.rs:652-670 | After a selection the ready wishes queue, the selected are with the world, and all others are as they were. |
| `SparkIntake.ChallengesTellApart` | protocol/src/spark.rs:18-25 | Under a digest that tells strings apart only one epoch of one world after one header has a challenge. |
| `SparkIntake.TicketExactly` | server/src/intake.rs:798-806 | Which window leaves its ticket to the next epoch. |
| `SparkIntake.Intake.SoftCheck` | server/src/intake.rs:578-609 | Exactly the waiting wishes that can never apply are invalidated, and they are counted. |
| `SparkIntake.Intake.AddWish` | server/src/intake.rs:932-995 | A wish is admitted exactly when it decodes, is signed, fits this world and window, is new, and its author has fewer than three open; every refusal has exactly its own reason. |
| `SparkIntake.Intake.Turn` | server/src/world.rs:248-312 | The whole new state after the world loop's turn: closed and credited, selected and priced among the listed candidates, answered for with the world's outcomes, reopened and checked; every invariant is kept, no log entry lost, nothing pending. |
| `Wishes.ToBytes` | protocol/src/wish.rs:182-250 | Appending part by part gives the canonical encoding. |
| `Wishes.ChecksExactly` | protocol/src/wish.rs:253-286 | A wish passes its check exactly when all six demands hold, and which flaw is told. |
| `Wishes.DecodesWhatItEncodes` | protocol/src/wish.rs:181-392 | Decoding undoes encoding, for every wish that passes its check. |
| `Wishes.AcceptedIsCanonical` | protocol/src/wish.rs:288-392 | Every accepted string is the encoding of the wish it decodes to. |
| `Wishes.EncodingIsABijection` | protocol/src/wish.rs:181-392 | Accepted strings are exactly the encodings of wishes that pass their check, one each. |
| `WishReader.FromBytes` | protocol/src/wish.rs:288-451 | The reader with its cursor decodes exactly as specified, errors included. |
| `Smix.WrapIsEarlier` | pow/src/portable.rs:165-168 | The wrapped index always names a block already written. |
| `Smix.WrapBetween` | pow/yespower/yespower-opt.c:894-900 | Between two powers of two it is the ladder's mask and offset. |
| `Smix.Straight` | pow/src/portable.rs:191-214 | The straight loop fills V with the blocks of the first steps and ends with the last block and context. |
| `Smix.Stretch` | pow/yespower/yespower-opt.c:890-904 | From one power of two towards the next, two blocks at a time, the ladder writes the same blocks. |
| `Smix.Ladder` | pow/yespower/yespower-opt.c:859-926 | For every even N from 4, 768 included, the ladder fills the same V and ends with the same block and context as the straight loop, whatever the mixing. |
| `Densest.CountCells` | harness/src/patrons.rs:185-188 | The grid counts the clade's members cell by cell. |
| `Densest.PrefixSums` | harness/src/patrons.rs:189-198 | Every entry of the table is the count of the rectangle above and to the left, and no subtraction underflows. |
| `Densest.BoxFromCorners` | harness/src/patrons.rs:205-207 | A rectangle's count from four corners, for all corners. |
| `Densest.SquareCount` | harness/src/patrons.rs:205-207 | The clipped square holds exactly the members within the radius. |
| `Densest.BoxSum` | harness/src/patrons.rs:205-207 | The four sums give the number of members around a cell, without underflow. |
| `Densest.FindDensest` | harness/src/patrons.rs:183-214 | The result is the first occupied cell with the largest count, for any map and radius. |
| `Guard.GrantsAreBounded` | server/src/intake_api.rs:86-101 | Between any two times of any run a key is granted at most its bucket and what flows in between. |
| `Guard.BurstsAreGranted` | server/src/intake_api.rs:86-101 | Of any number of requests at once a new key gets exactly as many as its bucket holds: 40, or 160 for a subnet. |
| `Guard.ChargesExactly` | server/src/intake_api.rs:105-121 | Whom a request is charged to: its address, the first 24 or 48 bits of it, and every miner it names, once and in order. |
| `Guard.FullAfterFourSeconds` | server/src/intake_api.rs:40-47 | Every bucket refills within four seconds. |
| `Guard.ForgettingIsHarmless` | server/src/intake_api.rs:86-101 | Dropping buckets idle for a minute changes no level, now or later. |
| `Guard.Limiter.Take` | server/src/intake_api.rs:86-101 | The answer is the one a map that forgets nothing would give. |
| `Guard.Limiter.Admit` | server/src/intake_api.rs:105-121 | A request is charged to its address, subnet and each miner key in turn, stopping at the first refusal. |
| `Guard.Limiter.IsBanned` | server/src/intake_api.rs:75-84 | A key is banned exactly until its ban runs out; a run-out ban is dropped. |

## Left out

- Rules of later versions in the world: patrons, their effects, natural weather and the two extra lanes during a tick,
  and the hybrid miracle on the map; validation does not bound them enough. Their leaves and roots are modelled, and the
  genomes of hybrids.
- Integer widths of the world: energies, costs, populations, ids and work are unbounded, so the overflow checks of ids
  and epochs and any wrap-around of i32 are not modelled.
- Epoch reports and statistics: the counters and lists that a step fills beside the state.
- RiftPlan.Plan: where bridges are placed is an input, any list of cells; how plates grow and sites are drawn is left
  out. A distance that was not reached is a missing value instead of the largest integer.
- Genesis.Begin: the map of biomes, the plates and the bridge sites are inputs; terrain and its noise are left out. Ages
  are drawn below the start of old age, which must be positive, as the draw demands.
- Seasons.Season: that the founders are not more than the world may have is asked for by the bound on their number;
  the exact condition is in Genesis.Begin.
- Epochs.Run: an accepted world that is not viable is not run on; single steps from it are, with exact conditions. A
  world whose ids start from zero and that keeps no genome at all counts as not viable when its rules allow revivals.
- Names, stories, metrics, bots and the viewer.
- SparkIntake.Intake.OpenWindow: a window that has closed is not opened again, and `rollback_after` is not modelled;
  work is not conserved across them, since a reopened window is summed twice.
- The packed form of a closed log and the dictionary it needs: a packed log is its list of sparks.
- Signatures, proofs of work, the beacon and all cryptography: a signature's validity and the tiebreak are inputs.
  Headers, the ledger root and `seal` are not modelled.
- SparkIntake.Intake.SelectMiracles: the price share of a wish is an input, any function of the wish.
- SparkIntake.Intake.SoftCheck: whether a wish can still apply is an input, any function of the wish.
- SparkIntake.Intake.Turn: other requests between the steps of a turn are not interleaved in this method; every method
  keeps the invariant by itself, so they may be.
- Time: clocks are inputs, and the token buckets compute in real numbers without rounding.
- HTTP, SQLite, files, threads, JSON, the watcher and the viewer.
