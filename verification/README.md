# A verified model of a Heimdall validator node

The repository is a Cosmos/Tendermint validator node, a fork of Heimdall. This project models
its deterministic core in Dafny and proves what that core is for. One module stands for one
component:

- `Shuffle`: the swap-or-not shuffle of the Ethereum consensus specifications (Phase 0, The Beacon
  Chain, `compute_shuffled_index`), per index and as the in-place list form that caches hashes.
  The hash is a parameter; every theorem holds for any function to 32 bytes.
- `Validators`, `Priorities`, `ChangeSets`, `ValidatorSets`, `ProposerRuns`, `ProposerCalls`,
  `ProposerCycles`, `GroupRounds`, `ProposerDrift`, `EndBlock`: the validator set with int64 saturating
  arithmetic, its update by change sets, the weighted proposer rotation within one call and over
  successive calls, and the synchronisation with the staking store at the end of a block.
- `SideTx`: side transactions, stored at height h, decided by more than two thirds of the voting
  power, and run at height h + 2.
- `Checkpoints`, `Ticks` with `TickLimits`, `Spans`, `Clerk`: the two-phase message protocols. A
  message is checked by a handler, is in flight while the validators vote, and changes the state in a
  post-handler; steps interleave in any order. What the root chain's contracts say is a parameter.
- `Bank`, `Gov`: governance deposits, the two proposal queues, and the end of a block.
- `MissedBlocks`: the window of missed blocks per validator, over the store's real keys.
- `Selection`: weighted selection of producers, with the random draws as an explicit list.
- `Merkle`: Merkle proof lists for the trees of RFC 6962, sections 2.1 and 2.1.1.
- `GoInt`, `Sums`, `MapSums`, `Bytes`, `Options`: Go's fixed-width integers and truncating division,
  sums, byte strings.

Stores are typed maps, iterators are walks over a snapshot, and a failing message is undone as a
unit. Code that updates state is a class whose methods are proved against functions of the old
state; the properties of runs are proved about those functions, or are the class invariant itself.
What such a function makes of its inputs is stated a second time without it: from the bits of the digests
(`Shuffle.ShuffleFollowsDigests`), from the numbers of the priorities (`ProposerRuns.CallIsRound`,
`ValidatorSets.UpdateMovesTogether`), from the difference of set and store (`EndBlock.UpdateIffDifferent`),
from the signatures and deliveries of the blocks (`SideTx.RunFollowsSignatures`, `SideTx.DeliveredIsRunIff`),
from the messages voted in and the headers (`Checkpoints.StoredOriginate`, `Spans.SpansOriginate`), from the
amounts (`Ticks.SlashInNumbers`, `Gov.DepositRaises`), from the blocks missed (`MissedBlocks.ResetIff`), from
the draws (`Selection.PicksFollow`), and from the tree (`Merkle.RootIsTreeHash`).

`dafny verify dfyconfig.toml` (Dafny 4.11) checks the whole project.

## What does not hold

Eight expectations turn out false of the code, or true under a condition only. Each has lemmas with a
concrete case and an exact condition.

- The rotation is fair within one call, but not for ever over successive calls, each of which may
  rescale. Exact condition: within (5P+1)^n + 1 calls the priorities come back, and a validator is served
  fairly for ever, that is within a constant of its share, if and only if it has exactly its share of the
  calls of this cycle (`ProposerCycles.ListComesBack`, `ProposerCycles.FairIffCycleIsBalanced`,
  `ProposerCycles.FairnessIsDecided`). It has if no call of the cycle rescales
  (`ProposerCycles.RescalingDecides`), as with two validators, with equal powers, and in new sets of up to
  four (`ProposerCycles.EqualPowersNeverRescale`, `ProposerCycles.SmallNewSetsNeverRescale`). What it has
  beyond its share is the drift, what rescaling adds to its priority (`ProposerCycles.CycleExcessIsDrift`,
  `ProposerCalls.ExcessIsDrift`, `ProposerCalls.FairIffDriftIsBounded`). A newly created set of twelve
  validators rescales every 147 calls from the 295th on, and nobody in it is served fairly; the lightest
  proposes once in 147 calls for a share of 0.59 (`ProposerDrift.UnfairForever`,
  `ProposerDrift.NoBoundHolds`, `ProposerDrift.FreshIsCreated`).
- A checkpoint acknowledgement is accepted when the buffered checkpoint ends before the contract's
  header. The shorter end is stored, no later header starts right after it, and the acknowledgement
  count of that root chain never moves again (`Checkpoints.AckCompletesIff`,
  `Checkpoints.ShortCheckpointBlocks`, `Checkpoints.ShortCheckpointExample`).
- `clearValidatorMissedBlockBitArray` deletes by key prefix, and the prefix is the validator's ID in
  decimal without a delimiter. Resetting validator 1 clears bits of validators 10 to 19, 100 and so
  on; resetting 10 clears some bits of 1. The other validator's counter then no longer agrees with its
  bits (`MissedBlocks.CallKeepsIff`, `MissedBlocks.ResetTakesOthersBits`,
  `MissedBlocks.LongerIdTakesBitsToo`). For IDs with equally many digits everything holds.
- The amounts of the tick protocol are conserved until the running total leaves uint64, and not
  after that (`Ticks.SlashConservesIff`, `Ticks.OverflowBreaksAccounts`). Three validators of power
  MaxInt64 slashed in full are enough (`TickLimits.ThirdFullSlashOverflows`). With n validators of
  power at most M, fractions of at most 1, 2M an int64 and 2nM an uint64, it never happens
  (`TickLimits.ModestSlashesAreConserved`).
- A slash takes the amount from the power exactly when the amount is an int64 (`Ticks.SlashTakesAmount`).
  Above that the cast raises the power or makes it negative (`TickLimits.WideAmountsWrap`), as after two
  slashes of six tenths of MaxInt64 (`TickLimits.WideAmountRun`).
- An acknowledged tick overwrites the jail flag. A validator that is slashed a little between a jailing
  tick and its acknowledgement leaves jail with the next one (`TickLimits.SlashedOutOfJail`,
  `TickLimits.AckReleasesIff`); without slashes in between nobody does
  (`TickLimits.QuietRunsReleaseNobody`).
- `randomRangeInclusive` is described as unbiased: its largest outcome has one accepted draw less than
  every other (`Selection.AcceptedDraws`), and so the candidate that it finds has one draw less than its
  power calls for (`Selection.DrawsPerCandidate`).
- `CalculateSequence` collides for log indices of 100000 and more (`Clerk.SequencesCollide`,
  `Clerk.SameSequenceIff`).

A call after the first rescales exactly when the priorities have come more than 2P apart. Two validators
never do, two heavy members 2P above a light one do at once (`ProposerCalls.LaterCallRescalesIff`,
`ProposerCalls.TwoNeverRescale`, `ProposerCalls.LaterRescale`).

The total-power check of `verifyUpdates` adds up the updates in address order before any removal, so a
change set can be refused although its final total would fit (`ChangeSets.LeavingMakesNoRoom`,
`ChangeSets.OrderDecides`); `ChangeSets.AcceptsIff` says exactly which are accepted. A change set that
updates the zero address is refused as a duplicate (types/validator-set.go:343), and so it is in
`ValidatorSets.ProcessChanges`.

## Model

| member | source | states |
|---|---|---|
| Shuffle.RoundIsInvolution | bor/shuffle.go:87-124 | A round undoes itself: the deciding bit is read at max(index, flip), which both of a pair share. |
| Shuffle.IndexRoundTrip | bor/shuffle.go:36-44 | Unshuffling an index undoes shuffling it, and the other way round, for every seed and count: a bijection on [0, n). |
| Shuffle.ListRefinesIndex | bor/shuffle.go:142-162 | The list form moves element i to ShuffledIndex(i), and the inverse form takes it from there, for every list and seed. |
| Shuffle.ListRoundTrip | bor/shuffle.go:155-162 | UnshuffleList undoes ShuffleList and the other way round. |
| Shuffle.ShuffleIsPermutation | bor/shuffle.go:155-157 | Shuffling keeps the elements as a multiset. |
| Shuffle.ToBytesIsLittleEndian | bor/shuffle.go:242-250 | ToBytes is the little-endian encoding in the given length, shorter or longer than 8 bytes. |
| Shuffle.Uint32BytesIsLittleEndian | bor/shuffle.go:224 | Converting the window number to uint32 before writing it does not change its four bytes. |
| Shuffle.WindowsAreDistinct | bor/shuffle.go:73-76 | Below the size bound of 2^40, windows of 256 positions have equal four-byte numbers only if they are equal. |
| Shuffle.SwapBitIsDigestBit | bor/shuffle.go:103-109 | The bit picked from a byte of the hash is bit p mod 256 of the whole digest read as one little-endian number. |
| Shuffle.RoundFollowsDigests | bor/shuffle.go:88-112 | A round, read off the digests alone: the partner of an index is unique, and the index goes there if the bit of the larger of the two is set, else it stays. |
| Shuffle.ShuffleFollowsDigests | bor/shuffle.go:36-44 | An index is shuffled to r, and r unshuffled to it, if and only if a chain of 90 such rounds leads from it to r. |
| Shuffle.EntriesFollowDigests | bor/shuffle.go:142-162 | Along such a chain the list forms move the entries, in both directions. |
| Shuffle.RunRound | bor/shuffle.go:88-112 | One round of the per-index loop, over the reused buffer: the index goes to its partner, the one that with it adds up to the first eight digest bytes modulo the count, exactly when bit p mod 256 of the window's digest is set for the larger p of the two. |
| Shuffle.InnerShuffledIndex | bor/shuffle.go:65-126 | The loop follows the chain of 90 such rounds, upwards or back, to the index at its other end; its errors are an index or a count out of bounds. |
| Shuffle.SwapOrNot | bor/shuffle.go:221-236 | From a cache that is right for position j unless j begins a new byte or hash, it swaps the pair exactly when bit j mod 256 of the digest of j's window is set, and leaves a cache right for j - 1. |
| Shuffle.SwapStretch | bor/shuffle.go:188-203 | One mirrored stretch of a round: every element of it is where the round sends it, the rest is untouched. |
| Shuffle.ShuffleRoundInPlace | bor/shuffle.go:185-203 | The two stretches, with one hash per 256 positions and one byte per 8, are one round on the whole list. |
| Shuffle.InnerShuffleList | bor/shuffle.go:165-217 | The in-place loop over all rounds moves every entry along the chain of rounds of its position, forwards or back, or refuses a list over 2^40. |
| Priorities.RescaledSpread | types/validator-set.go:105-126 | Rescaling brings the spread of the priorities down to the given maximum. |
| Priorities.RescaledBySmallestRatio | types/validator-set.go:105-126 | Rescaling divides every priority, toward zero, by the smallest whole ratio that brings the spread within the maximum. |
| Priorities.CentredBounds | types/validator-set.go:189-197 | Centring a list of bounded spread leaves every priority within that spread of zero. |
| Priorities.SumOfCentred | types/validator-set.go:143-156 | After centring, the sum is the remainder of the old sum, so it lies in [0, n). |
| Priorities.LeaderIsUnique | types/validator.go:112-132 | In address order, highest priority with the lower address on ties is one definite entry. |
| Priorities.TurnKeepsSum | types/validator-set.go:128-140 | A round keeps the sum of the priorities. |
| Priorities.TurnKeepsFloor | types/validator-set.go:128-140 | A round lets no priority fall below -2P when the sum is not negative. |
| Priorities.Ledger | types/validator-set.go:81-103 | After any number of rounds a priority is its start plus rounds times power minus wins times P. |
| Priorities.NobodyIsFavoured | types/validator-set.go:81-103 | Wins times P is at most rounds times power plus 4P. |
| Priorities.NobodyIsNeglected | types/validator-set.go:81-103 | Wins times P is more than rounds times power minus n(2P+1). |
| Priorities.EverybodyWins | types/validator-set.go:81-103 | After enough rounds for its power every validator has won. |
| Priorities.SafeAddClip | types/validator-set.go:657-666 | The saturating sum is the nearest int64 to the exact one. |
| Priorities.SafeSubClip | types/validator-set.go:668-677 | The saturating difference is the nearest int64 to the exact one. |
| Priorities.NothingClips | types/validator-set.go:81-140 | From levelled priorities the saturating rounds are the exact rounds: one when 3P fits int64, any number when n(2P+1)+P does. |
| Priorities.LeaderIsWinner | types/validator-set.go:128-140 | Under the same bounds the leader found with saturating sums is the winner of the exact round. |
| Validators.SortedIsListOf | types/validator-set.go:621-634 | A strictly sorted list is determined by its address-to-validator map. |
| Validators.SortKeepsRecords | types/validator-set.go:336-341 | Sorting by address gives a strictly sorted list exactly when no address occurs twice, and then the same map. |
| Validators.PrioritiesDoNotMatter | types/validator-set.go:105-126 | Rewriting priorities changes no address, no power, no order and no total. |
| ChangeSets.MergeTotal | types/validator-set.go:439-473 | The merge changes the total power by what the updates add over the powers they replace. |
| ChangeSets.MergeSorted | types/validator-set.go:439-473 | The merge of two strictly sorted lists is strictly sorted. |
| ChangeSets.MergeRecords | types/validator-set.go:439-473 | The merge is the map of the set overridden by that of the updates. |
| ChangeSets.RemoveRecords | types/validator-set.go:493-518 | Removal takes exactly the given addresses out of the map. |
| ChangeSets.RemoveTotal | types/validator-set.go:493-518 | Removal lowers the total by exactly what the removed members had. |
| ChangeSets.AppliedIsTarget | types/validator-set.go:439-518 | Merging and removing in sequence is the sorted list of one map update. |
| ChangeSets.AppliedIsSound | types/validator-set.go:524-570 | The resulting list is strictly sorted with positive powers; its length and its total are exactly those of the merge less the removed members. |
| ChangeSets.MembersKeepPriority | types/validator-set.go:428-430 | A member that stays keeps its priority, with a new power or without. |
| ChangeSets.NewcomersStartBehind | types/validator-set.go:418-427 | A newcomer's priority is -1.125 times the new total, rounded up by less than one. |
| ChangeSets.ChangesReplaceEntries | types/validator-set.go:439-473 | All the rest of an entry is as in the change set if that names it, else as it was. |
| ChangeSets.LeavingMakesNoRoom | types/validator-set.go:381-406 | A concrete refusal: a member of the largest power leaves, one of power 1 enters, and the result would have total power 1. |
| ChangeSets.OrderDecides | types/validator-set.go:381-406 | A concrete refusal although the total would not change: one unit of power moves to the lower address. |
| ChangeSets.TargetPowers | types/validator-set.go:524-570 | As a power map it is the old one overridden by positive changes and without the zero ones. |
| ChangeSets.UpdateRefinesMapUpdate | types/validator-set.go:524-586 | On acceptance the new list is sorted, not empty, and its power map is the old one overridden by the changes. |
| ChangeSets.NothingIsLeft | types/validator-set.go:551-554 | The count test for an empty result is right: no newcomers and as many removals as members if and only if the updated map is empty. |
| ChangeSets.AcceptsIff | types/validator-set.go:524-554 | A change set is accepted if and only if it is empty or: no address occurs twice or is zero, all powers are in range, removals are allowed and of members, the total after each update in address order is at most the maximum, and somebody is left. |
| ChangeSets.NormalisedIsLevelled | types/validator-set.go:563-567 | Rescaling and centring leave priorities within [-2P, 2P] and their sum in [0, n). |
| ChangeSets.NormalisedIsLevelledFrom | types/validator-set.go:563-567 | They divide by the smallest ratio that brings the spread within 2P and shift all by one amount; nothing but priorities changes. |
| ValidatorSets.ScanDecides | types/validator-set.go:343-367 | Comparing neighbours of the sorted changes finds every duplicate and every bad power. |
| ValidatorSets.ProcessChanges | types/validator-set.go:336-368 | Refuses exactly duplicates, the zero address, negative or excessive powers; else splits the sorted list by zero power. |
| ValidatorSets.ValidatorSet.UpdateTotalVotingPower | types/validator-set.go:258-273 | The cached total is the sum; the panic above the maximum is not reached. |
| ValidatorSets.ValidatorSet.TotalVotingPower | types/validator-set.go:277-282 | Returns the sum, computing the cache only when it is 0. |
| ValidatorSets.ValidatorSet.GetByAddress | types/validator-set.go:231-239 | The binary search finds the member with the address, or -1 and nil exactly when there is none. |
| ValidatorSets.ValidatorSet.ComputeMaxMinPriorityDiff | types/validator-set.go:159-179 | The difference of the extremes, which fits int64. |
| ValidatorSets.ValidatorSet.RescalePriorities | types/validator-set.go:105-126 | Priorities become the specified rescaled ones, by truncating division. |
| ValidatorSets.ValidatorSet.ComputeAvgProposerPriority | types/validator-set.go:143-156 | The floor of the exact average. |
| ValidatorSets.ValidatorSet.ShiftByAvgProposerPriority | types/validator-set.go:189-197 | Every priority drops by the average and none of the subtractions clips. |
| ValidatorSets.ValidatorSet.GetValWithMostPriority | types/validator-set.go:181-187 | The scan with CompareProposerPriority finds the leader. |
| ValidatorSets.ValidatorSet.IncrementOnce | types/validator-set.go:128-140 | One round on the list, and the validator returned is the one that led it. |
| ValidatorSets.ValidatorSet.IncrementProposerPriority | types/validator-set.go:81-103 | The list after one normalisation and `times` rounds, and the proposer is the leader of the last round. |
| ValidatorSets.ValidatorSet.VerifyUpdates | types/validator-set.go:381-406 | Accepts exactly when every running total in address order fits, and returns the last one and the number of newcomers. |
| ValidatorSets.ValidatorSet.ComputeNewPriorities | types/validator-set.go:413-433 | A member keeps its priority, a newcomer starts at -1.125 times the new total up to rounding, and nothing else of an update changes. |
| ValidatorSets.ValidatorSet.ApplyUpdates | types/validator-set.go:439-473 | The in-place merge over a buffer leaves the specified merge; no index goes out of range. |
| ValidatorSets.ValidatorSet.VerifyRemovals | types/validator-set.go:477-489 | Accepts exactly when every removal is a member. |
| ValidatorSets.ValidatorSet.ApplyRemovals | types/validator-set.go:493-518 | The in-place removal leaves the specified list; no index goes out of range. |
| ValidatorSets.ValidatorSet.UpdateWithChangeSet | types/validator-set.go:524-586 | Succeeds exactly on the accepted change sets; then each entry is that of the change set or the old one but for its priority, the members that stay keep their order, and without newcomers and within 2P all priorities move by one amount; else validators and priorities are unchanged. |
| ValidatorSets.UpdateMovesTogether | types/validator-set.go:563-567 | An update keeps the order of those that stay, and moves all priorities, those of newcomers from where they enter, by one amount when they lie within 2P. |
| ValidatorSets.MembersMoveTogether | types/validator-set.go:524-586 | Without newcomers it is enough that the old priorities lie within twice the new total. |
| ValidatorSets.UpdateReplacesEntries | types/validator-set.go:439-518 | But for its priority every entry of the result is that of the change set, or the old one. |
| ValidatorSets.NewValidatorSet | types/validator-set.go:54-64 | A new set is the normalised list of the given validators after one round, with that round's proposer. |
| ProposerRuns.NothingClipsInAnyRun | types/validator-set.go:25-28 | In every state that increments and updates reach, the next rotation starts from levelled priorities and no int64 addition overflows or clips. |
| ProposerRuns.StepKeepsGood | types/validator-set.go:81-103 | Every operation keeps the list sorted, positive, below the maximal total, with priorities in [-2P_max, 3P_max]. |
| ProposerRuns.GoodIsLevelled | types/validator-set.go:89-94 | Rescaling and centring any reachable list leaves priorities within [-2P, 2P] and their sum in [0, n). |
| ProposerRuns.ZeroNeverJoins | types/validator-set.go:343-367 | Over every run nobody has the zero address unless somebody had it at the start. |
| ProposerRuns.RotationIsFair | types/validator-set.go:81-140 | Over the rounds of one call IncrementProposerPriority(times), final priorities and wins obey the ledger and both fairness bounds. |
| ProposerRuns.ProposerIsWinner | types/validator-set.go:95-103 | The proposer is the winner of the last of the rounds that the fairness bounds count. |
| ProposerRuns.RotationIsRounds | types/validator-set.go:81-140 | Each round of a call in numbers: all priorities grow by their power, the proposer has the highest of them, the lowest address among equals, and pays the total. |
| ProposerRuns.CallIsRound | types/validator-set.go:81-103 | A call of IncrementProposerPriority(1) levels the priorities and runs one such round. |
| ProposerRuns.UpdateThenRound | app/app.go:607-616 | After an update the next call runs it from the updated priorities as they are. |
| ProposerCalls.CalledIsRun | staking/keeper.go:318-330 | k successive calls are the run of k increments. |
| ProposerCalls.CallIsTurn | types/validator-set.go:81-103 | One call is one exact round from levelled priorities; members and powers stay, and the proposer is the winner of the round. |
| ProposerCalls.LaterCallRescalesIff | types/validator-set.go:89-94 | After the first call, rescaling and centring change the list if and only if the priorities are more than 2P apart. |
| ProposerCalls.LedgerOfCalls | types/validator-set.go:81-103 | After k calls a priority is its levelled start plus k times the power minus P for every service plus the drift, which is what later rescaling and centring added. |
| ProposerCalls.DriftIsBounded | types/validator-set.go:89-94 | The drift is 0 while no later call rescales, and at most 5P for each that does. |
| ProposerCalls.ExcessIsDrift | types/validator-set.go:81-103 | Services times P less k times the power is the drift up to 5P, for every number of calls. |
| ProposerCalls.FairIffDriftIsBounded | types/validator-set.go:81-103 | Services stay within a constant of the share if and only if the drift does, which says where unfairness comes from; the condition to check is that of `ProposerCycles`. |
| ProposerCalls.CallsAreFair | types/validator-set.go:81-103 | Over any number of successive calls, services times P differ from k times the power by at most 5P, plus at most 5P for each later call that rescales. |
| ProposerCalls.EverybodyIsServed | types/validator-set.go:81-103 | So every validator proposes after enough calls for its power. |
| ProposerCalls.CallsAreTurns | types/validator-set.go:81-140 | While no later call rescales, k calls are k exact rounds from the levelled start, and services are wins. |
| ProposerCalls.CallsAreOneCall | types/validator-set.go:81-103 | Then k calls with 1 leave the list that one call with k leaves. |
| ProposerCalls.TwoNeverRescale | types/validator-set.go:105-126 | With two validators no later call rescales. |
| ProposerCalls.LaterRescale | types/validator-set.go:105-126 | Powers 4, 4, 1 with priorities 6, 6, -12: the second call rescales. |
| ProposerCalls.PeriodRepeats | types/validator-set.go:81-103 | A list that comes back after n calls comes back for ever, with the same excess each time. |
| GroupRounds.GroupTurnIsTurn | types/validator-set.go:128-140 | For twelve members in four groups of equal power a round acts on four priorities and two counts. |
| ProposerCycles.ListComesBack | types/validator-set.go:81-140 | Within (5P+1)^n + 1 calls every list of n members comes back to one it was before. |
| ProposerCycles.FairIffCycleIsBalanced | types/validator-set.go:81-140 | For any such cycle: the services of a validator stay within a constant of its share for ever if and only if it has exactly its share of the calls of the cycle. |
| ProposerCycles.FairnessIsDecided | types/validator-set.go:81-140 | So fairness for ever is decided by that many calls. |
| ProposerCycles.CycleExcessIsDrift | types/validator-set.go:89-94 | What a validator has beyond its share of a cycle is what rescaling adds to its priority in it. |
| ProposerCycles.RescalingDecides | types/validator-set.go:105-126 | If no call of the cycle rescales, everybody is served fairly for ever; if exactly one does, somebody is not. |
| ProposerCycles.NeverRescaledIsFair | types/validator-set.go:81-103 | Where no later call rescales, services times P stay within 5P of the share for ever. |
| ProposerCycles.EqualPowersNeverRescale | types/validator-set.go:105-126 | Validators of equal power are never rescaled after the first call. |
| ProposerCycles.SmallNewSetsNeverRescale | types/validator-set.go:105-126 | Nor are up to four validators of any powers whose priorities begin equal, as in a new set. |
| ProposerDrift.FreshIsCreated | types/validator-set.go:54-64 | Twelve validators of powers 3, 7 times 30, 3 times 122 and 165 are accepted as a new set; all priorities begin equal, and its creation makes the first call. |
| ProposerDrift.FreshComesToStart | types/validator-set.go:81-103 | After 294 calls, none of which rescales, the priorities of this set are more than 2P apart. |
| ProposerDrift.StartComesBack | types/validator-set.go:81-126 | From there the list comes back after every 147 calls, the first of which rescales. |
| ProposerDrift.UnfairForever | types/validator-set.go:81-103 | After m such periods the member of power 3 has (606 + 303 m) / 744 services more than its share, and the one of power 165 (894 + 447 m) / 744 less. |
| ProposerDrift.NoBoundHolds | types/validator-set.go:81-103 | None of the twelve is served fairly: each has more or less than its share of the cycle, so no constant bounds the distance of its services from the share. |
| EndBlock.GetUpdatedValidators | helper/util.go:94-119 | The loop over a sorted store returns, in its order, exactly the stored validators at whose address the set and the current stored powers differ, each with the power it is to have, 0 if it is to leave. |
| EndBlock.UpdatesBySigner | helper/util.go:100-117 | For each signer the updates say what its record and its membership call for, whatever the order. |
| EndBlock.UpdateIffDifferent | helper/util.go:100-117 | A stored validator is emitted if and only if the set and the current stored powers differ at its address. |
| EndBlock.UpdatesInFull | helper/util.go:94-119 | The whole list of updates, said by the differences alone. |
| EndBlock.NothingToUpdateIff | app/app.go:607 | With every member recorded, there is no update if and only if the set is in step with the store. |
| EndBlock.UpdatesSynchronise | app/app.go:599-608 | When every member has a record, the old power map overridden by the updates is exactly that of the current stored validators. |
| EndBlock.OrphansStay | helper/util.go:100-117 | A member without a record is never removed. |
| EndBlock.MembersStayRecorded | app/app.go:596-638 | Over every run of block ends and rotations, with stores that lose no record, every member has a record. |
| EndBlock.EveryEndSynchronises | app/app.go:596-638 | So every accepted end of a block in such a run leaves exactly the current stored validators with their powers. |
| EndBlock.MembersByEpoch | types/validator.go:61-71 | A validator is a member after such an end if and only if it has power, is not jailed, and the epoch, one more than the acknowledgements, is from its start on and before its end. |
| EndBlock.EndInNumbers | app/app.go:607-616 | Without newcomers and within 2P, an end of a block with updates moves all priorities by one amount, raises each by its power, and lets one proposer pay the total. |
| EndBlock.App.EndBlocker | app/app.go:596-638 | On acceptance the set has the old power map overridden by the updates, hence the current stored validators, after one round whose payer is the proposer; a set in step with the store stays as it is, with its proposer, and nothing is returned; on refusal nothing changes and nothing is returned. |
| SideTx.GetValidatorIndexByAddress | app/side_tx_processor.go:289-297 | The first validator with the address, or -1. |
| SideTx.CountVotes | app/side_tx_processor.go:76-93 | For every result the signed power is the power of the validators whose first signature says it, as an int64. |
| SideTx.TotalPower | app/side_tx_processor.go:60-63 | The loop computes the total as an int64. |
| SideTx.TotalIsOfPowers | app/side_tx_processor.go:60-63 | Each validator adds its own power to the exact total. |
| SideTx.PowerCountsOnce | app/side_tx_processor.go:86-91 | Yes and No together never exceed the total. |
| SideTx.VerdictIsMajority | app/side_tx_processor.go:98-119 | When twice the total is an int64: Yes (No) if and only if strictly more than two thirds of the power signed Yes (No) first. |
| SideTx.SignatureCounts | app/side_tx_processor.go:83-93 | One more signature adds the power of the first validator with its address to its result, if it is the first one from there, and nothing else. |
| SideTx.DecisionIsOfFirst | app/side_tx_processor.go:69-74 | The first result for a hash decides, and without one it is Skip. |
| SideTx.SideChannel.BeginBlock | sidechannel/module.go:142-153 | Stores the validators of the last commit's votes, if there are any. |
| SideTx.SideChannel.EndBlock | sidechannel/module.go:157-161 | Removes the validators of the height. |
| SideTx.SideChannel.PostDeliverTxHandler | app/side_tx_processor.go:17-37 | Stores a successful transaction with any side message, above height 2. |
| SideTx.SideChannel.Decide | app/side_tx_processor.go:98-119 | Runs the transaction once, with the verdict of the signatures, from int64 sums that may wrap around. |
| SideTx.SideChannel.RunResults | app/side_tx_processor.go:69-122 | Duplicate and unknown results do nothing; each named transaction is removed and run once, with Yes or No if and only if more than two thirds of the power signed so in the first result for it. |
| SideTx.SideChannel.RunRest | app/side_tx_processor.go:124-137 | All remaining transactions of the height are removed and run with Skip. |
| SideTx.SideChannel.BeginSideBlocker | app/side_tx_processor.go:40-143 | All transactions of height - 2 are removed and run once each, with Yes or No if and only if more than two thirds of the power signed so in the first result for their hash, and Skip without a result, unless there are no validators. |
| SideTx.ExactlyOnce | app/side_tx_processor.go:40-143 | Over every chain of blocks, with or without the end blockers of the modules, the executions are exactly the expected ones, each one time. |
| SideTx.OneRunEach | app/side_tx_processor.go:73-74 | No two executions belong to the same stored transaction. |
| SideTx.RunsIffValidators | app/side_tx_processor.go:54-57 | A stored transaction runs if and only if the block two later comes with validators. |
| SideTx.RunFollowsSignatures | app/side_tx_processor.go:69-119 | Over every chain of blocks each execution has the result Yes, No, if and only if more than two thirds of its block's power signed so in the first result for it; without one it is Skip. |
| SideTx.DeliveredIsRunIff | app/side_tx_processor.go:17-143 | A transaction is run if and only if it was the last of its hash delivered successfully, with a side message, above height 2, and the second block after came with validators. |
| SideTx.DeliveredWaitsIff | app/side_tx_processor.go:54-57 | It waits if and only if it was so delivered and that block is still to come, or came without. |
| SideTx.ValidatorsLeft | sidechannel/module.go:157-161 | The validators of a height stay stored exactly when its block had some and did not come to its end. |
| Checkpoints.Keeper.GetACKCount | checkpoint/keeper.go:371-386 | The count, 0 where none is stored. |
| Checkpoints.Keeper.GetLastCheckpoint | checkpoint/keeper.go:181-204 | The stored checkpoint numbered by the count, or none. |
| Checkpoints.Keeper.CheckContinuity | checkpoint/side_handler.go:294-322 | Passes exactly when the message starts right after the tip, or at the activation height when there is none; the wrap-around at 2^64 is harmless. |
| Checkpoints.Keeper.HandleMsgCheckpoint | checkpoint/handler.go:41-170 | Passes exactly under its five conditions, every refusal is told by its error, and its only write is the flush of an expired buffer. |
| Checkpoints.Keeper.DeliverCheckpoint | checkpoint/handler.go:41-170 | The flush survives only if the whole message passes. |
| Checkpoints.Keeper.PostHandleMsgCheckpoint | checkpoint/side_handler.go:282-382 | Buffers the message's checkpoint, stamped with the time, exactly when approved, continuous and the buffer is empty. |
| Checkpoints.Keeper.HandleMsgCheckpointAck | checkpoint/handler.go:173-216 | Passes exactly when a buffered checkpoint does not contradict it. |
| Checkpoints.Keeper.PostHandleMsgCheckpointAck | checkpoint/side_handler.go:385-483 | Exactly when approved and not contradicted: stores the buffered checkpoint under the message's number, with the header's end, root hash and proposer if that ends earlier, bumps the count and flushes; else nothing changes. |
| Checkpoints.AcceptedAckIsNext | checkpoint/side_handler.go:385-448 | An acknowledgement that the contract confirms and that is accepted carries the count plus one. |
| Checkpoints.RunsAreSound | checkpoint/side_handler.go:282-483 | Over every order of messages, timeouts and votes a buffered checkpoint starts right after the stored ones, and stored checkpoint k starts with header k. |
| Checkpoints.StoredAreContiguous | checkpoint/keeper.go:89-98 | The stored checkpoints are numbered 1 to the count, the first at the activation height, each starting after the previous one. |
| Checkpoints.SubmissionPassesIff | checkpoint/handler.go:41-170 | In every reachable state, with n checkpoints stored and m of the stake chain: a message passes if and only if it continues the n, is of epoch m + 1, has the node's account root and proposer, and any buffered checkpoint has waited long enough; and what the vote then needs. |
| Checkpoints.AckCuts | checkpoint/side_handler.go:426-448 | An accepted acknowledgement stores under the next number what was buffered, cut to the next header. |
| Checkpoints.StoredOriginate | checkpoint/side_handler.go:282-483 | Over every run each stored checkpoint is one that was voted in, as it was or cut to the header, then with the header's proposer; wherever it has the header's end it has the header's root hash. |
| Checkpoints.AckCompletesIff | checkpoint/side_handler.go:426-432 | After an accepted acknowledgement the last checkpoint reaches its header's end if and only if the buffered one did. |
| Checkpoints.NextAckIff | checkpoint/side_handler.go:400-424 | A further acknowledgement can be accepted if and only if the stored checkpoints reach the end of their headers and a checkpoint is buffered that does not contradict the next header. |
| Checkpoints.ShortCheckpointBlocks | checkpoint/side_handler.go:385-483 | Once one falls short, the count of that root chain is constant over every run. |
| Checkpoints.ShortCheckpointExample | checkpoint/side_handler.go:426-448 | A concrete acknowledgement that both handlers accept and that leaves the store short. |
| Ticks.Keeper.SlashInterim | slashing/keeper.go:231-287 | Adds the truncated share of the power to the validator's buffer entry and to the total, and jails at the limit. |
| Ticks.Keeper.SlashUnlessJailed | slashing/infractions.go:70-83 | Slashes exactly the validators that neither the store nor the buffer has jailed. |
| Ticks.Keeper.HandlerMsgTick | slashing/handler.go:44-103 | Passes exactly for a non-zero total, the next number, the encoding of the buffer and empty tick data. |
| Ticks.Keeper.CopyBufferValSlashingInfosToTickData | slashing/keeper.go:510-519 | The tick data becomes itself overridden by the buffer. |
| Ticks.Keeper.FlushBufferValSlashingInfos | slashing/keeper.go:386-394 | Empties the buffer. |
| Ticks.Keeper.PostHandleMsgTick | slashing/side_handler.go:159-233 | Exactly when approved, next and matching: buffer copied, buffer and total flushed, count bumped. |
| Ticks.Keeper.HandleMsgTickAck | slashing/handler.go:148-179 | Passes exactly for a new sequence and the current number. |
| Ticks.Keeper.Slash | staking/keeper.go:458-483 | Lowers the power, not below 0, after a cast to int64, and sets the jail flag; unknown validators are an error. |
| Ticks.Keeper.SlashAndJailTickValSlashingInfos | slashing/keeper.go:545-552 | Slashes every validator of the tick data, or reports one that is unknown and has slashed some of the others. |
| Ticks.Keeper.FlushTickValSlashingInfos | slashing/keeper.go:555-563 | Empties the tick data. |
| Ticks.Keeper.PostHandleMsgTickAck | slashing/side_handler.go:241-312 | Exactly when approved, current, new, with tick data of known validators: all are slashed, the data flushed, the sequence recorded; else nothing changes. |
| Ticks.SlashTakesAmount | staking/keeper.go:467-471 | The power drops by the amount, or to 0, if and only if the amount is an int64. |
| Ticks.ShareIsFraction | slashing/keeper.go:243-252 | The slashed amount is the fraction of the power rounded toward zero, as an unsigned number. |
| Ticks.SlashInNumbers | slashing/infractions.go:70-83 | A guarded slash: entry and total grow by that fraction, and the validator is jailed if and only if its entry has come to the jailing fraction; nothing happens to a jailed or unknown one. |
| Ticks.AckInNumbers | slashing/side_handler.go:241-312 | An accepted acknowledgement takes the amounts of the tick from the powers, down to 0, sets the jail flags, and changes no other validator. |
| Ticks.TickOverwritesNothing | slashing/side_handler.go:167-196 | A tick in flight that passes the post-handler finds empty tick data, which only the handler checks. |
| Ticks.SlashConservesIff | slashing/keeper.go:231-287 | An interim slash keeps the accounts if and only if the running total stays an uint64. |
| Ticks.SlashesAreConserved | slashing/side_handler.go:159-312 | Over every run: total equals the sum of the buffer; all slashed equals buffer plus pending tick plus acknowledged; every tick but the pending one is acknowledged once. |
| Ticks.TickPassesIff | slashing/handler.go:44-103 | In every reachable state a tick is accepted if and only if more was slashed than acknowledged, every earlier tick is acknowledged, and it spells the buffer under the next number. |
| Ticks.OverflowBreaksAccounts | slashing/keeper.go:443-452 | The first slash that overflows the total breaks the accounts. |
| TickLimits.SlashIsModest | slashing/keeper.go:231-287 | With powers up to M, fractions up to 1, 2M an int64 and 2nM an uint64, a guarded slash fits whatever was slashed before. |
| TickLimits.ModestSlashesAreConserved | slashing/side_handler.go:159-312 | Conservation over every run from that condition on the inputs alone, and the pending amounts are then taken from the powers exactly. |
| TickLimits.ThirdFullSlashOverflows | slashing/keeper.go:443-452 | Three validators of power MaxInt64 slashed in full: the third slash wraps the total and breaks the accounts. |
| TickLimits.WideAmountsWrap | staking/keeper.go:466-471 | An amount above MaxInt64 raises the power by what it lacks to 2^64, or makes it negative. |
| TickLimits.WideAmountRun | staking/keeper.go:466-471 | A run of two slashes of six tenths, a tick and its acknowledgement that leaves a negative power. |
| TickLimits.AckReleasesIff | staking/keeper.go:475-477 | An acknowledgement frees a jailed validator if and only if the tick data has an entry for it that does not jail. |
| TickLimits.SlashedOutOfJail | slashing/side_handler.go:241-312 | A run in which a slash between a jailing tick and its acknowledgement frees the validator with the next acknowledgement. |
| TickLimits.QuietRunsReleaseNobody | slashing/side_handler.go:241-312 | In runs without a slash while tick data is pending, no acknowledgement frees a jailed validator. |
| Spans.Keeper.GetLastSpan | bor/keeper.go:178-192 | The span with the last ID, or span 0 where no last ID is stored. |
| Spans.Keeper.HandleMsgProposeSpan | bor/handler.go:27-90 | Passes exactly for the right chain, the next ID and start, and the configured duration, with uint64 wrap-around. |
| Spans.Keeper.AddNewSpan | bor/keeper.go:87-101 | Stores the span and makes it the last. |
| Spans.Keeper.FreezeSet | bor/keeper.go:195-216 | Stores the span and uses up one block of the main chain, or changes nothing when no producers are found. |
| Spans.Keeper.PostHandleMsgEventSpan | bor/side_handler.go:102-146 | Carries out exactly the approved proposals whose ID is not stored. |
| Spans.SpansStayContiguous | bor/side_handler.go:102-121 | Over every interleaving from a contiguous state, IDs are consecutive, each span starts where the one before ends, and each has used one seed block. |
| Spans.GenesisIsSound | bor/keeper.go:104-113 | Span 0 alone is such a state. |
| Spans.CarriedOutIsNext | bor/side_handler.go:110-121 | A proposal in flight whose ID is unstored follows the last span, and so do all with the same ID. |
| Spans.ProposalPassesIff | bor/handler.go:27-90 | In every reachable state a proposal passes if and only if it has the chain, the number after the last, the start after the last end, and the configured duration, all modulo 2^64. |
| Spans.SpansOriginate | bor/side_handler.go:102-146 | Over every run each stored span was there at the start or is one that was proposed, with the chain and duration then configured, and approved. |
| Clerk.SameSequenceIff | helper/util.go:872-879 | Two events share a sequence number exactly when their chain IDs agree and the log indices make up for the block difference. |
| Clerk.SequenceIsInjective | helper/util.go:872-879 | On known chains and log indices below 100000 the number determines block, index and chain. |
| Clerk.SequencesCollide | helper/util.go:872-879 | Log index 100000 of a block collides with index 0 of the next. |
| Clerk.RenumberingIsBijective | clerk/keeper.go:114-139 | Record IDs are exactly 1 to the latest, and pairs of root chain and root ID correspond to them one to one. |
| Clerk.LogHasNoDuplicates | clerk/side_handler.go:169-172 | No pair is accepted twice. |
| Clerk.RootRecordIsSubmitted | clerk/keeper.go:226-247 | Reading by root chain and root ID returns a record if and only if that very record was submitted. |
| Clerk.NotSyncedIsNew | clerk/keeper.go:142-153 | For a pair without a record no index has its key yet, so no write meets an existing key. |
| Clerk.SyncedIff | clerk/keeper.go:257-265 | A pair is synced if and only if a record with it has been accepted. |
| Clerk.SequenceSteps | helper/util.go:872-879 | The number in figures: 1, 2 or 3 for the chain, 100 for a log index, ten million for a block. |
| Clerk.Keeper.HasRootChainEventRecord | clerk/keeper.go:257-265 | Whether the pair is mapped to a stored record. |
| Clerk.Keeper.GetRootChainEventRecord | clerk/keeper.go:226-247 | Finds a record exactly for accepted pairs, and it is the one submitted, with its root ID. |
| Clerk.Keeper.SetEventRecordWithID | clerk/keeper.go:114-139 | Stores the record under the next ID, or fails on an existing key. |
| Clerk.Keeper.SetEventRecordWithTime | clerk/keeper.go:83-111 | Writes both time indices, or fails on an unknown chain or an existing key. |
| Clerk.Keeper.PostHandleMsgEventRecord | clerk/side_handler.go:161-229 | Appends the message's record, with the block time, to the log exactly when approved, of a known chain, and no record with its pair is in the log; a failure leaves nothing behind. |
| Clerk.Keeper.HandleMsgEventRecord | clerk/handler.go:30-83 | Passes exactly for a new pair, the right chain ID and a new sequence. |
| Bank.Keeper.SubtractCoins | bank/keeper.go:98-126 | Takes valid coins that the account has, else changes nothing. |
| Bank.Keeper.AddCoins | bank/keeper.go:129-148 | Adds valid coins, else changes nothing. |
| Bank.Keeper.SendCoins | bank/keeper.go:151-177 | In every denomination the sender loses what the recipient gains and nobody else changes, or nothing changes at all. |
| Gov.Keeper.SubmitProposal | gov/proposal.go:13-49 | A new proposal in its deposit period, queued as inactive, under the next ID. |
| Gov.Keeper.ActivateVotingPeriod | gov/proposal.go:155-164 | Moves the proposal from the inactive to the active queue. |
| Gov.Keeper.AddDeposit | gov/deposit.go:33-80 | Succeeds exactly for open proposals and covered valid coins; the deposit and the total grow by the amount, voting begins exactly when the total has come to the minimum in every denomination, and queues, totals and module balance stay right. |
| Gov.Keeper.HandleMsgSubmitProposal | gov/handler.go:37-103 | A proposal together with its first deposit, or no trace of either. |
| Gov.Keeper.HandleMsgDeposit | gov/handler.go:105-133 | A deposit by a validator with its total, possible activation and transfer, or nothing. |
| Gov.Keeper.RefundDeposits | gov/deposit.go:107-124 | Every deposit of the proposal goes back to its validator's signer; neither panic is reached. |
| Gov.Keeper.DeleteProposal | gov/proposal.go:70-79 | Removes the proposal and its entries in both queues. |
| Gov.Keeper.EndBlocker | gov/endblocker.go:12-95 | No expired entry is left, no panic is reached; a proposal whose deposit period has run out is dropped, one whose voting period has gets Passed, Failed or Rejected by its outcome, the others stay; exactly the deposits of the ended ones are paid back, and every invariant is kept. |
| Gov.DepositKeepsBalanced | gov/deposit.go:47-78 | A deposit moves the module balance and the sum of deposits alike, in every denomination. |
| Gov.DepositRaises | gov/deposit.go:52-60 | A deposit raises the total in every denomination, and starts a voting period from now exactly when the total has then come to the minimum. |
| Gov.DepositKeepsTotals | gov/deposit.go:52-78 | The total of every open proposal is the sum of the deposits held for it, in every denomination; a deposit keeps that. |
| Gov.OthersKeepTotals | gov/endblocker.go:12-95 | Ending a proposal and paying its deposits back keeps it for the others. |
| Gov.CoversDeposit | gov/deposit.go:115-118 | The module account can always pay a stored deposit back. |
| Gov.RefundKeepsBalanced | gov/deposit.go:115-121 | So does a refund. |
| Gov.ActivationKeepsQueues | gov/proposal.go:155-164 | Activation keeps both queues in agreement with the proposals. |
| Gov.DropKeepsQueues | gov/proposal.go:70-79 | So does dropping a proposal in its deposit period. |
| Gov.FinishKeepsQueues | gov/endblocker.go:76-77 | So does finishing a vote. |
| Gov.NoneUnfunded | gov/keeper.go:281-284 | An inactive queue without expired entries means that no proposal has outlived its deposit period. |
| Gov.NoneVoted | gov/keeper.go:275-278 | The same for the active queue and voting periods. |
| Gov.ModuleAccountInvariant | gov/invariants.go:24-40 | The check reports a break exactly when module balance and deposits differ in some denomination. |
| MissedBlocks.KeysAreDistinct | slashing/types/keys.go:53-57 | Bit keys of different validators or indices differ. |
| MissedBlocks.Keeper.ClearValidatorMissedBlockBitArray | slashing/keeper.go:146-153 | Deletes every key that begins with the ID's decimal digits. |
| MissedBlocks.Keeper.HandleValidatorSignature | slashing/infractions.go:13-96 | Bit, counter, offset and reset as specified; an unknown address is an error. |
| MissedBlocks.WheelCount | slashing/infractions.go:36-62 | An array overwritten at offset modulo window has as many true bits as blocks were missed among the last min(window, offset). |
| MissedBlocks.CounterIsMissed | slashing/infractions.go:42-62 | A validator in agreement with its history has the counter of its true bits, the number of recently missed blocks, within [0, window]. |
| MissedBlocks.CallKeepsIff | slashing/infractions.go:33-94 | A call keeps the agreement of every validator if and only if it is not another's reset that takes some of its true bits. |
| MissedBlocks.ResetIff | slashing/infractions.go:64-94 | A validator is reset if and only if the height is more than a window beyond its start, more of the window's blocks with this one were missed than the minimum allows, and it is not jailed; else the block joins its history. |
| MissedBlocks.BitsAreRecent | slashing/infractions.go:33-62 | The bit of each recent block is at its number modulo the window, and bits that no block has reached are not set. |
| MissedBlocks.ClearKeepsCountIff | slashing/keeper.go:146-153 | A clear leaves another validator's count if and only if none of its true bits has a key with the cleared prefix. |
| MissedBlocks.RunsAgree | slashing/infractions.go:13-96 | Over all calls for validators with keys apart, bits and counters agree with the histories since the last reset. |
| MissedBlocks.SameLengthApart | slashing/types/keys.go:48-57 | IDs with equally many digits have keys apart. |
| MissedBlocks.ResetTakesOthersBits | slashing/keeper.go:146-153 | Resetting validator 1 leaves validator 10 with a counter of 1 and no bit. |
| MissedBlocks.LongerIdTakesBitsToo | slashing/keeper.go:146-153 | The prefix of validator 10 covers a key of validator 1 at index 48. |
| Selection.CreateWeightedRanges | bor/selection.go:125-133 | The cumulative weights and their total as uint64, exact when the total fits. |
| Selection.BinarySearch | bor/selection.go:89-104 | Where bisection ends: for a list in any order an entry that suffices, or the last, after one that does not; in an ascending one the first that suffices, or the last one; -1 for an empty list. |
| Selection.BisectIsLowest | bor/selection.go:89-104 | In an ascending list bisection from any valid bounds ends at the first entry that is at least the target. |
| Selection.TicketInterval | bor/selection.go:81-83 | A target finds entry i if and only if it lies above the weights before i and up to those through i. |
| Selection.TicketsAreWeights | bor/selection.go:72-83 | Of the targets 1 to total exactly as many find entry i as its weight; none if that is 0. |
| Selection.RandomRangeInclusive | bor/selection.go:107-122 | The first accepted draw, reduced into [min, max]; max itself for an empty or single range. |
| Selection.AcceptedDraws | bor/selection.go:112-121 | Accepted are 0 to kR-2 with k = MaxUint64/R; every outcome has k accepted draws, the largest k-1. |
| Selection.DrawsPerCandidate | bor/selection.go:72-122 | Of the accepted draws exactly power times (MaxUint64 / total) pick a candidate, one less for the candidate that the largest target finds. |
| Selection.SelectNextProducers | bor/selection.go:50-87 | All candidates, or one pick per target in draw order, whatever the powers; for a total from 2 to MaxUint64 pick i is the candidate in whose interval one more than the i-th accepted draw's remainder lies. |
| Selection.PicksAreChosen | bor/selection.go:72-84 | Every pick is a candidate's ID, of one with power when any has some and the powers add up to an uint64. |
| Selection.PicksFollow | bor/selection.go:72-84 | There are as many picks as wanted if and only if so many draws are accepted, and each follows its draw. |
| Selection.BisectIsBoundary | bor/selection.go:89-104 | Bisection ends, in any list, behind an entry that is too small and at one that is not, or at the last. |
| Selection.CountIds | bor/keeper.go:244-247 | The counts are those of the IDs chosen, and add up to their number. |
| Selection.ProducersFromIds | bor/keeper.go:244-257 | Exactly the resolvable chosen validators with their counts as powers, in address order. |
| Selection.PowersAddUpIff | bor/keeper.go:249-254 | The powers add up to the number of picks if and only if every ID resolves. |
| Merkle.SplitPointIsLargest | helper/util.go:694-705 | The split point is the one power of two k with k < n <= 2k. |
| Merkle.RootIsTreeHash | helper/util.go:646-654 | The tree hash of RFC 6962: byte 1, the root of the first k leaves, that of the others, hashed, with k the largest power of two below the number of leaves. |
| Merkle.RootExistsIff | helper/util.go:623-639 | A root is computed exactly for an index in range and the right number of aunts. |
| Merkle.ComputeHashFromAunts | helper/util.go:623-655 | The recursion returns the specified root and appends the directed aunts, or nothing when it fails. |
| Merkle.GetMerkleProofList | helper/util.go:584-588 | Folding the returned list from the leaf by its direction bytes gives the root. |
| Merkle.FoldGivesRoot | helper/util.go:642-654 | Direction bytes and order of the list are those of the hashing. |
| Merkle.DirectionsAreBits | helper/util.go:642-654 | In a complete tree of 2^d leaves the direction bytes are the binary digits of the index: 0, left, exactly where the digit is one. |
| Merkle.PathGivesRoot | helper/util.go:623-655 | The RFC 6962 audit path of every leaf of every tree leads to the tree's root. |
| Merkle.ProofListGivesRoot | helper/util.go:584-588 | Folding the proof list of an audit path gives the tree's root. |
| Merkle.ProofIsBinding | helper/util.go:623-655 | Unless the hash collides on the values hashed on the two ways up, only the leaf at the index with its audit path reaches the root. |

## Left out

- RPC, CLI, REST, codecs, events, logging, genesis import and export, queriers and all module wiring except the side channel's begin and end of a block.
- The contracts of the root chains and the ABI decoding in the side handlers: `Checkpoints` takes the headers as a parameter, the other protocols take the vote.
- Runs begin with empty stores (spans: with span 0; governance: with no deposits); imported states are not considered.
- The proposer, checkpoint-sync, no-ack, unjail, double-sign and sync-queue messages, top-ups, the auth ante handler, feature management and parameters.
- `staking` GetTotalPower and the slash-limit event, and the power limits that read it.
- XXXSelectNextProducers, convertToSlots and the choice by block height between the two selections; SplitIndices and SplitOffset of the shuffle; the seeding of Go's random generator.
- The branches of the shuffle for a round count of 0, which is a constant 90.
- Nonce, last-updated and other fields of a validator that the modelled code only copies; sort.Sort stands as SortByAddress, an insertion sort with the same result on distinct addresses.
- The loops of updateWithChangeSet, of the shuffle's rounds and of BeginSideBlocker, AddDeposit and the post-handler of an event record are split into several methods each, called in the order of the source.
- ValidatorSets.ValidatorSet.IncrementProposerPriority: the proposer is a copy of its entry, where the source shares the entry, so later changes of one are not seen in the other; for a count of 0 or less or an empty set the code panics.
- EndBlock.App.EndBlocker: the updates for the engine are keyed by signer instead of public key, and the transfer of fees before them is left out; on a refusal the end blockers of the modules do not run, which `SideTx` allows for and `Gov` does not consider.
- SideTx.SideChannel.RunTx: what the post-handlers do to the rest of the state, and the decoding of the transaction; only the execution and its result are recorded.
- SideTx.SideChannel.RunRest: the order in which the remaining transactions are run is not stated.
- SideTx.VerdictIsMajority: for powers whose doubled total is an int64, which the engine's own bound guarantees; beyond it the verdict is that of the wrapped sums.
- Checkpoints.Keeper.PostHandleMsgCheckpointAck: leaves out the rotation of the proposer after an acknowledgement of the stake chain; that call is the subject of `ProposerCalls`.
- Ticks.Keeper.SlashInterim: requires the slashed and the jailing share of the power to be int64; the code panics otherwise.
- Ticks.SlashesAreConserved: the encoding of the buffer is any function that maps only the empty buffer to the bytes of the empty buffer, in place of sorted RLP.
- Spans.Keeper.FreezeSet: whether producers are found is a parameter; `Selection` models how they are chosen, and the spans do not hold them.
- Clerk.Keeper.PostHandleMsgEventRecord: the pair of chain name and root ID is the key itself, not their concatenation; for the three known names that is unambiguous.
- Gov.Keeper.EndBlocker: tally and proposal handlers are arbitrary outcomes that leave balances alone; every deposit's validator has a signer other than the module account; votes and proposal contents are left out.
- Gov.Keeper.AddDeposit: accounts have no vesting part, and depositors are not the module account.
- Gov.ModuleAccountInvariant: coins are compared by denomination, where the source's comparison can panic on different denominations.
- MissedBlocks.Keeper.HandleValidatorSignature: the interim slash it makes is `Ticks.Keeper.SlashUnlessJailed`; the window is constant and at most 2^64, and the number of blocks to be signed in it is a parameter instead of a rounded fraction.
- Selection.RandomRangeInclusive: the range of all 2^64 values, on which the code divides by zero, is excluded.
- Selection.PicksAreChosen: that a pick has power is stated for powers that add up to an uint64; otherwise the ranges wrap around as in the code.
- Selection.ProducersFromIds: covers the case of more candidates than producers; otherwise the keeper returns the candidates with their own powers.
- Merkle.ComputeHashFromAunts: a nil leaf hash is not modelled; byte slices are values, so an append that writes into a slice's spare capacity is not modelled.
