# agntcoin: a verified model of the `x/agntcoin` keeper

This project models the message handlers of the agntcoin chain module in Dafny 4.11 and proves what
they guarantee over whole runs: accounts, transfers, bonds, vouches, escrows with verifiers, the jury,
review gates, the emission schedule, the reputation ranking and the stored form of disputes.

Check it with `dafny verify dfyconfig.toml`.

## How it is built

* **`Types`, `Ledger`, `Escrows`, `Jury`, `Bonds`, `Gates`, `Emission`, `Machine`** say what each handler
  does to the stores, as functions from a state to a new state or an error. `Machine.Step` is one
  message, `Machine.Apply` rolls a refused message back, `Machine.Run` is a list of transactions.
* **`Keepers`** holds `class Keeper`, the keeper in the form the source has: stores as maps, sequence
  counters, handlers that update them in place with early returns and loops. Each handler is proved
  to agree with its function (`Matches`): the same answer, the same error, the same final stores.
  `Keeper.Deliver` adds the rollback and `Keeper.DeliverAll` equals `Machine.Run`, so the run theorems
  below are about the class. `Keepers.Keeper.InitGenesis` and `Startup` load a validated genesis.
* **`Conservation`, `Conserved`, `Limits`** prove that coin is conserved and that no unchecked addition wraps.
* **`Custody`, `CustodyKept`** hold the invariant of custody: which stake backs which record, until when
  it stays locked, and that a frozen escrow has exactly one open case. **`Lives`, `Settlement`,
  `Payouts`, `Verdicts`** draw the consequences: exact payments of a verdict, single settlement,
  authority for every release and refund, verdicts that cannot get stuck, payers made whole.
  **`Rulings`** counts a verdict on the votes themselves, **`Windows`** measures the time to object in seconds.
  **`Standoffs`** is the case in which they never come, and the only one. **`Scenario`** and **`Crowd`** hold
  concrete states: one that meets the hypotheses of the made-whole theorem, and one for every guarantee
  that fails.
* **`Emission`, `Plurality`, `Rails`, `Minting`, `Pacing`, `Wages`, `Singles`** cover the two minting rails: the
  schedule, the emission state boundary by boundary, what a gate pays, and what exists only once.
* **`Admission`, `Refusals`, `Records`, `Receipts`** say in plain terms and figures, independently of the handlers
  and for every message: when it is accepted, what a refusal tells, what it writes, and what it does to each
  account's balance.
* **`Vectors`, `PageRank`, `Decay`, `Reputation`, `Scores`, `Ranking`, `Trust`, `Influence`** cover reputation: one
  round of power iteration and its theorems, how rank decays with distance, the graph built from vouches and
  jobs, the array loops, what a score means for an address, and a round in terms of the coin in the stores.
* **`Varints`, `DisputeCodec`, `DisputeWire`** cover the protobuf form of disputes and votes, with the
  writer that fills a buffer from its end and the parser that moves a cursor.

Runs start from any state with `Conservation.Books` and `Custody.InCustody`; `Verdicts.Genesis` is such
a state and `Startup.LoadedIsGenesis` reaches it from a genesis file. The schedule theorems also need an
emission state on schedule (`Startup.LoadedFollowsIff`). Block times never decrease
within a run (`Machine.InOrder`).

## Where the code and its comments differ

The model follows the code.

* Comments call a released escrow terminal; the challenge deadline is never cleared, so a release may
  be challenged again (`Scenario.SecondChallenge`), also one that follows a fail attestation
  (`Scenario.OwnReleaseChallenged`); `Verdicts.ReopenedIff` says exactly when.
* A buyer is said to be always made whole by a challenge. It is on the first case about an escrow if some
  verifier passed the work, not on a later case, and not if all verifiers failed it, since a rejected
  release then returns their stakes to them (`Scenario.OwnReleaseUninsured`);
  `Verdicts.MadeWholeIffFirst` says exactly when.
* A gate commitment is said to pin the answer. It hashes the answer, a colon and the salt;
  `Limits.RevealPinsAnswerIff` and `Limits.GoldPinsAnswerIff` say exactly when it does, and
  `Limits.TwoOpenings` gives a pair.
* The dispute window is converted to a signed integer and may wrap; then the deadline has passed the
  moment the escrow is locked (`Limits.DeadlineAheadIff`, `Scenario.WrappedDeadline`).
* `Transfer` adds without an overflow check and `Register` overwrites an unregistered record. Both
  conserve coin exactly under a condition that every reachable state meets
  (`Limits.TransferConservesIff`, `Limits.RegisterConservesIff`).
* Validation does not bound the reward of a genesis epoch, and burning it adds without an overflow check
  (`Scenario.BurnedTotalWraps`); `Startup.LoadedEmissionIff` says exactly which genesis is safe.
* An evenly split jury never resolves (`Standoffs.EvenSplitNeverResolves`, `Scenario.SplitJuryStands`);
  `Verdicts.VerdictsNeverStick` says exactly when a case does, and `Standoffs.DecidableIff` when it can.
* Settling a gate is said to pay every coherent answer. A gate may admit more answers than any epoch's
  reward can pay; then it never settles and pays nobody (`Minting.OversizedNeverSettles`,
  `Crowd.CrowdNeverPaid`). `Minting.SettleGateIff` says exactly when it settles.

## Model

| member | source | states |
|---|---|---|
| Conserved.StepBalanced | chain/x/agntcoin/keeper/credit.go:46-83 | No message of any kind changes the total of balances, active bonds, held escrows and vouch stakes, except by what it mined and by a slash with no beneficiary |
| Conserved.RunConserves | chain/x/agntcoin/keeper/msg_server_slash_bond.go:40-61 | Over every run, final coin + burned = initial coin + mined, mining stays within the cap, and every store stays keyed and solvent |
| Conservation.SettleBondBalanced | chain/x/agntcoin/keeper/msg_server_release_bond.go:40-54 | Paying a bond out and closing it keeps the total; the collateral moves once |
| Conservation.PayOutBalanced | chain/x/agntcoin/keeper/msg_server_release_escrow.go:66-81 | Paying a held escrow out and closing it keeps the total |
| Conserved.SettleVerdictBalanced | chain/x/agntcoin/keeper/msg_server_resolve_dispute.go:78-276 | A verdict never fails for lack of an account and moves escrow money and three kinds of stake without creating or losing coin |
| Conserved.CastVouchBalanced | chain/x/agntcoin/keeper/msg_server_castvouch.go:43-92 | Casting or replacing a vouch moves coin between balance and stake and nowhere else |
| Conserved.AwardContributionBalanced | chain/x/agntcoin/keeper/msg_server_award_contribution.go:79-128 | The author award adds exactly what it mines |
| Admission.AdmittedIff | chain/x/agntcoin/keeper/msg_server.go:7-17 | A message of any of the 23 kinds succeeds if and only if it meets its terms, written out in figures (bonds and stakes of 100, drips up to 50, awards up to 500, quorums, windows, digests); no missing record and no guard on new accounts can stand in the way |
| Refusals.RefusalTells | chain/x/agntcoin/keeper/msg_server.go:7-17 | No refusal comes from a record missing in a store that should hold it; an invalid address means an empty one; a missing key means, for a named signer, exactly that the message names a record that is not there; insufficient funds that the signer has less than it would put up |
| Records.StepWrites | chain/x/agntcoin/keeper/msg_server.go:7-17 | Every message but verdicts, reclaims and gate settlements writes exactly the fields listed, under the ids it names or the next free ones, and changes no other record |
| Receipts.EveryBalance | chain/x/agntcoin/keeper/credit.go:46-83 | After any message every account's balance is what it was, less what the signer put up, plus what the stores say is its due: payouts, refunds, freed and slashed stakes, vouch stakes, drips and awards |
| Receipts.OnlySignersPay | chain/x/agntcoin/keeper/credit.go:46-83 | Over any run an account's balance falls by at most what its own messages put up |
| Receipts.ReclaimReturns | chain/x/agntcoin/keeper/msg_server_reclaim_attestation_bonds.go:53-79 | A reclaim returns every stake still locked to the verifier that posted it and leaves none locked |
| Singles.OneVouchPerPair | chain/x/agntcoin/keeper/msg_server_castvouch.go:43-92 | No run adds a second vouch for a pair: two vouches for one pair were both there at the start |
| Singles.OneAwardPerArtifact | chain/x/agntcoin/keeper/msg_server_award_contribution.go:79-95 | No run awards an artifact twice: two awards with hashes equal up to case were both there at the start |
| Limits.RunAdditionsExact | chain/x/agntcoin/keeper/emission.go:88-126 | If initial supply plus unmined cap is below 2^64 and the first burn fits 64 bits too, no balance, stake or emission addition wraps in any state of any run, nor in its next catch-up and mint |
| Limits.NoWrapIff | chain/x/agntcoin/keeper/emission.go:91-98 | From any start time and over all runs in block order no emission total wraps if and only if the burned total plus the unspent reward is below 2^64 at the start, or no epoch boundary can ever be reached |
| Limits.WithinCapIff | chain/x/agntcoin/keeper/emission.go:91-98 | From any start time and over all runs in block order no total wraps and mined plus burned stays within the cap, if and only if the unspent reward at the start is covered by the remaining supply, or no boundary can be reached |
| Startup.LoadedEmissionIff | chain/x/agntcoin/types/genesis.go:106-125 | Both conditions for a validated genesis, as its author can check them |
| Scenario.BurnedTotalWraps | chain/x/agntcoin/keeper/emission.go:91-98 | A genesis that validation accepts and whose first boundary wraps the burned total to zero |
| Limits.BooksLeaveRoom | chain/x/agntcoin/keeper/credit.go:79 | Any balance has room for any active bond, held escrow, vouch stake, other balance or remaining mint |
| Limits.TransferConservesIff | chain/x/agntcoin/keeper/msg_server_transfer.go:42-53 | A successful transfer conserves coin if and only if the recipient's balance has room for the amount |
| Limits.RegisterConservesIff | chain/x/agntcoin/keeper/msg_server_register.go:18-35 | A successful registration conserves coin if and only if the overwritten record was empty |
| Limits.DeadlineAheadIff | chain/x/agntcoin/keeper/msg_server_lock_escrow.go:96-97 | The new deadline lies ahead if and only if block time plus requested seconds is below 2^63; only then is it their sum |
| Limits.StrangerReleasesAtOnceIff | chain/x/agntcoin/keeper/msg_server_release_escrow.go:43-60 | A stranger may release an escrow in the block that locks it if and only if nothing forbids release by the clock and the window is zero or wraps |
| Scenario.WrappedDeadline | chain/x/agntcoin/keeper/msg_server_lock_escrow.go:96-97 | With the longest window the deadline is one second in the past and a third party's release succeeds in the same block |
| Limits.RevealPinsAnswerIff | chain/x/agntcoin/keeper/msg_server_gate.go:184-234 | With a collision-free hash, an accepted reveal is the only one the gate would accept if and only if neither the salt nor the answer after its first character has a colon |
| Limits.GoldPinsAnswerIff | chain/x/agntcoin/keeper/msg_server_gate.go:259-261 | The gold commitment, whose answer may be empty, pins answer and salt if and only if neither has a colon |
| Limits.TwoOpenings | chain/x/agntcoin/keeper/msg_server_gate.go:43-46 | A concrete commitment that opens as two answers, whatever the hash |
| CustodyKept.StepKeepsCustody | chain/x/agntcoin/keeper/msg_server_open_dispute.go:41-137 | Every message keeps the custody invariant: stakes back one record each, stay locked while a verdict may need them, and frozen escrows have one open case |
| CustodyKept.RunKeepsCustody | chain/x/agntcoin/keeper/msg_server_reclaim_attestation_bonds.go:38-79 | Books and custody hold in every state of every run in block order |
| Verdicts.ReachableSound | chain/x/agntcoin/keeper/genesis.go:10-69 | Both invariants hold in every state reached from a genesis whose escrows need no stake or case that loading would have to restore |
| Verdicts.GenesisInCustodyIff | chain/x/agntcoin/keeper/genesis.go:38-46 | A loaded state is in custody if and only if no stored escrow is attested, fail-attested, before a jury or open to challenge |
| Verdicts.FrozenIffOneCase | chain/x/agntcoin/keeper/msg_server_open_dispute.go:41-137 | An escrow is in jury or challenged if and only if exactly one open dispute names it |
| Verdicts.StakesFollowCase | chain/x/agntcoin/keeper/msg_server_cast_vote.go:70-89 | The opener's bond and each juror's stake are active if and only if their dispute is open |
| Verdicts.OneRecordPerStake | chain/x/agntcoin/keeper/msg_server_attest_escrow.go:97-124 | No two places in the records name the same protocol stake |
| Verdicts.ProtocolStakesRefuseHands | chain/x/agntcoin/keeper/msg_server_slash_bond.go:31-38 | No stake that any dispute, vote or attestation names can be released or slashed by a message |
| Verdicts.SettledOnce | chain/x/agntcoin/keeper/msg_server_resolve_dispute.go:129-276 | Over any run a bond leaves the active state at most once, and a settled bond never changes |
| Verdicts.VerdictsNeverStick | chain/x/agntcoin/keeper/msg_server_resolve_dispute.go:34-76 | Resolving succeeds if and only if the dispute is open, a quorum voted and one side has more votes |
| Verdicts.VerdictHasMajority | chain/x/agntcoin/keeper/msg_server_resolve_dispute.go:46-59 | The voters behind a verdict are distinct anchors and a strict majority of the anchor set |
| Rulings.MajorityRules | chain/x/agntcoin/keeper/msg_server_resolve_dispute.go:38-121 | The case is recorded as accepted if and only if more votes were cast for the work than against it; an escrow before the jury is then released, otherwise refunded; more than half of all anchors voted |
| Rulings.RulingPaysAll | chain/x/agntcoin/keeper/msg_server_resolve_dispute.go:78-276 | By the side with more votes, every account receives exactly: the escrowed amount if favoured, the opener's bond if upheld or if it is the griefed party or the first verifier that passed, the stakes of coherent jurors and verifiers back, all other stakes if favoured |
| Rulings.RulingMarks | chain/x/agntcoin/keeper/msg_server_resolve_dispute.go:129-276 | The stakes the majority bears out are freed, the others slashed, those already settled and all other bonds stay as they are |
| Windows.ChallengeWindow | chain/x/agntcoin/keeper/msg_server_verified_release.go:103-109 | Over any run without a case on it, the payer of a verified release can open one if and only if fewer than 259200 seconds have passed; until then all stakes are locked and cannot be reclaimed, from then on they can |
| Windows.ContestWindow | chain/x/agntcoin/keeper/msg_server_attest_escrow.go:126-133 | For 259200 seconds after the failing attestation the payee can take the escrow to the jury and the payer cannot refund it; from then on the reverse |
| Verdicts.MadeWhole | chain/x/agntcoin/keeper/msg_server_resolve_dispute.go:229-276 | On the first challenge of a verified release every stake is still active, and a reject pays the payer at least quorum times the amount plus the challenge bond while nobody loses coin |
| Verdicts.FirstChallengePays | chain/x/agntcoin/keeper/msg_server_verified_release.go:63-109 | The same over a whole trace: verified release, any run, first challenge, any run, reject verdict |
| Verdicts.MadeWholeIffFirst | chain/x/agntcoin/keeper/msg_server_resolve_dispute.go:229-276 | What a reject pays the payer of any challenged release, to the unit; the verifiers' part is at least the amount on the first case if some verifier passed or is the payer itself, at least quorum times the amount after a verified release, and nothing otherwise, so with a positive amount the payer is insured if and only if the case is the first and has such a verifier |
| Verdicts.StakesActiveIffFirst | chain/x/agntcoin/keeper/msg_server_resolve_dispute.go:241-276 | Under a challenge the attestation stakes are all active if and only if no other case was ever opened about the escrow, and else all settled |
| Verdicts.ReopenedIff | chain/x/agntcoin/keeper/msg_server_open_dispute.go:57-71 | Whatever released an escrow, its payer may dispute it if and only if it carries attestations and a deadline that has not passed |
| Scenario.SecondChallenge | chain/x/agntcoin/keeper/msg_server_open_dispute.go:57-71 | After a verdict the same buyer successfully challenges the same release again |
| Scenario.OwnReleaseChallenged | chain/x/agntcoin/keeper/msg_server_open_dispute.go:57-71 | A buyer that released in spite of a fail attestation successfully challenges its own release |
| Scenario.OwnReleaseUninsured | chain/x/agntcoin/keeper/msg_server_resolve_dispute.go:241-256 | On the first case about a release the buyer made in spite of a fail attestation, a reject gives the buyer its bond back and no coin besides |
| Standoffs.EvenSplitNeverResolves | chain/x/agntcoin/keeper/msg_server_resolve_dispute.go:57-62 | Once every anchor has voted and the sides are equal, in every run the case stays open and its escrow and all its stakes stay as they are |
| Standoffs.DecidableIff | chain/x/agntcoin/keeper/msg_server_resolve_dispute.go:46-62 | With distinct anchors that can pay their stakes, some run decides an open case if and only if the jury is not evenly split with nobody left to hear |
| Scenario.SplitJuryStands | chain/x/agntcoin/keeper/msg_server_resolve_dispute.go:57-62 | A concrete state with books and custody in order and an evenly split jury |
| Scenario.ChallengeMadeWhole | chain/x/agntcoin/keeper/msg_server_resolve_dispute.go:229-276 | A concrete challenged release meets every hypothesis of the made-whole theorem, resolves as a reject and pays the buyer back |
| Verdicts.FalseFailPays | chain/x/agntcoin/keeper/msg_server_attest_escrow.go:126-133 | A payee whose work was failed wrongly receives on acceptance the amount and at least as much again from the verifier's stake |
| Settlement.SettleVerdictPays | chain/x/agntcoin/keeper/msg_server_resolve_dispute.go:78-276 | What every single account receives from a verdict, to the unit, by verdict side and role |
| Settlement.SettleStakesPay | chain/x/agntcoin/keeper/msg_server_resolve_dispute.go:193-227 | The stake loop pays each account exactly the active stakes due to it, coherent ones to their owner and incoherent ones to the winner |
| Payouts.PaidOutAtMostOnce | chain/x/agntcoin/keeper/msg_server_resolve_dispute.go:79-121 | Over any run the coin that flows out of an escrow is what it held at first less what it holds at last: all of its amount in one transaction, or nothing, however often released and challenged alternate |
| Payouts.PayoutCreditsOneParty | chain/x/agntcoin/keeper/msg_server_refund_escrow.go:58-71 | The step that takes the money out credits exactly one party by exactly the amount; every other balance changes only by the collateral a verdict settles |
| Payouts.ReleaseAuthority | chain/x/agntcoin/keeper/msg_server_release_escrow.go:30-60 | A funded escrow is released only by the payer, by the clock when nothing binds it, by a standing quorum with the key, or by the jury; the payee gains the whole amount |
| Payouts.RefundAuthority | chain/x/agntcoin/keeper/msg_server_refund_escrow.go:30-56 | A funded escrow is refunded only before submission and deadline, after an uncontested fail verdict, or by the jury; the payer gains the whole amount |
| Payouts.VerifiedReleaseAuthority | chain/x/agntcoin/keeper/msg_server_verified_release.go:49-86 | Behind a verified release stand quorum distinct named passes on the pinned hashes, each with an active stake of at least the amount |
| Emission.CatchUpAdvances | chain/x/agntcoin/keeper/emission.go:90-98 | Catching up ends, advances the epoch by exactly the whole epochs elapsed, and leaves `now` inside the current epoch |
| Emission.SyncComposes | chain/x/agntcoin/keeper/emission.go:65-104 | Synchronising at t1 and then at t2 equals synchronising at t2; in particular it is idempotent |
| Emission.LazyEqualsEager | chain/x/agntcoin/keeper/emission.go:65-104 | Ticking at every time of any non-decreasing list equals one lazy catch-up at the last |
| Emission.ScheduleExhaustsSupply | chain/x/agntcoin/keeper/emission.go:19-29 | The schedule pays out exactly the supply over finitely many epochs, each non-zero, and nothing later |
| Emission.ScheduleIsFair | chain/x/agntcoin/keeper/emission.go:19-29 | The reward r of every epoch satisfies r * divisor <= left < (r + 1) * divisor, or is all that is left when that is less than the divisor |
| Pacing.RunsByBoundariesAndBookings | chain/x/agntcoin/keeper/emission.go:88-126 | Over any run the emission state moves by boundaries and bookings alone; a boundary burns exactly what its epoch did not mine and schedules, by that bound, from the fields it leaves; a booking stays within its epoch's reward |
| Pacing.DefaultFigures | chain/x/agntcoin/types/genesis.go:6-26 | The default schedule in figures, with its first three rewards |
| Pacing.UnsetStateStarts | chain/x/agntcoin/keeper/emission.go:70-87 | A state whose control fields are zero starts its first weekly epoch with the fair thousandth of what is left |
| Emission.OnScheduleAccounts | chain/x/agntcoin/types/genesis.go:28-44 | On schedule, mined plus burned stays within the cap and the unspent reward within what may be scheduled |
| Minting.ScheduleOverRuns | chain/x/agntcoin/keeper/emission.go:91-98 | Whatever is mined and when, the reward of epoch k is a function of k, the cap and the divisor, and the fair share of what earlier epochs left; earlier rewards were mined or burned to the unit |
| Plurality.CountPlurality | chain/x/agntcoin/keeper/msg_server_gate.go:268-285 | For every order in which the count map is walked, the loop finds the strict-plurality answer, or nothing on a tie |
| Plurality.CountAnswers | chain/x/agntcoin/keeper/msg_server_gate.go:268-273 | The map holds exactly the revealed texts with their numbers of reveals |
| Plurality.LiveWinner | chain/x/agntcoin/keeper/msg_server_gate.go:263-286 | A live gate's winner is the unique answer revealed strictly most often, and empty if and only if there is none |
| Minting.GatesOverRuns | chain/x/agntcoin/keeper/msg_server_gate.go:140-317 | Over runs each agent answers a gate once and keeps its account, paid answers are exactly those equal to the consensus, and a settled gate is never touched again |
| Minting.NoCommitAfterReveal | chain/x/agntcoin/keeper/msg_server_gate.go:143-166 | Once any answer of a gate is revealed, or it is settled, no commit succeeds |
| Minting.SettleGatePays | chain/x/agntcoin/keeper/msg_server_gate.go:288-314 | Settling pays the drip once to each agent with the winning answer and to nobody else, all newly mined, and marks exactly those answers |
| Minting.SettleGateIff | chain/x/agntcoin/keeper/msg_server_gate.go:249-307 | Past its deadlines and given an opening of the gold commitment, a gate settles if and only if the drips of all coherent answers together fit the epoch's reward and the remaining supply; no missing account can stand in the way |
| Minting.OversizedNeverSettles | chain/x/agntcoin/keeper/msg_server_gate.go:288-307 | A gate that owes more than any epoch of the schedule pays is never touched again by any run, and nobody who answered is paid |
| Crowd.CrowdNeverPaid | chain/x/agntcoin/keeper/msg_server_gate.go:288-307 | A concrete gate with 421 coherent answers at 50 each, on the default schedule, is such a gate |
| Wages.SettlementPays | chain/x/agntcoin/keeper/msg_server_gate.go:259-314 | A gold answer that is not empty is the consensus whatever the agents said, otherwise the text revealed strictly more often than any other; exactly the agents that revealed it are marked and paid the drip, newly minted |
| PageRank.IterateKeepsMass | chain/x/agntcoin/keeper/pagerank.go:152-184 | Every iterate is non-negative and sums to exactly 1, sinks and parallel edges included |
| PageRank.NextContracts | chain/x/agntcoin/keeper/pagerank.go:158-176 | A round brings any two rank vectors closer in L1 by at least the damping factor |
| PageRank.DeltaShrinks | chain/x/agntcoin/keeper/pagerank.go:178-188 | The change shrinks by the damping factor every round and is at most 2 * 0.85^k after k rounds |
| PageRank.IteratesDrawTogether | chain/x/agntcoin/keeper/pagerank.go:156-189 | From the j-th on, no two iterates are further apart than 2 * 0.85^j, and any stationary distribution is as close (`IteratesApproach`) |
| PageRank.StoppedForGood | chain/x/agntcoin/keeper/pagerank.go:186-188 | After the round in which the loop stops, no further iteration moves the ranks by more than 0.85/0.15 of the last change, nor is any stationary vector further (`StoppedClose`) |
| PageRank.FixedPointUnique | chain/x/agntcoin/keeper/pagerank.go:166-176 | There is at most one stationary vector |
| PageRank.PositiveIffReached | chain/x/agntcoin/keeper/pagerank.go:166-176 | After k rounds a node is above zero if and only if a teleport target reaches it along at most k flows |
| Decay.FarMass | chain/x/agntcoin/keeper/pagerank.go:52-60 | All nodes that no teleport target reaches along fewer than k flows hold together at most 0.85^k, after any number of rounds |
| Decay.GroupMass | chain/x/agntcoin/keeper/pagerank.go:52-60 | A group without teleport holds at most 0.85/0.15 of the most rank that enters it from outside in a round, whatever flows it keeps inside |
| Reputation.GraphWellFormed | chain/x/agntcoin/keeper/pagerank.go:109-129 | Shares leaving a node are positive and sum to exactly 1, or there are none and the node is a sink |
| Reputation.TeleportMass | chain/x/agntcoin/keeper/pagerank.go:131-150 | The teleport vector sums to 1 if and only if no present anchor is listed twice |
| Reputation.DistinctAnchors | chain/x/agntcoin/types/params.go:18-30 | Distinct anchors give distinct teleport places |
| Scores.UnreachedScoresZero | chain/x/agntcoin/keeper/pagerank.go:131-184 | With a named anchor, an address no anchor reaches scores exactly zero, and every anchor scores above zero |
| Scores.RingScoresZero | chain/x/agntcoin/keeper/pagerank.go:52-60 | Members of a set with no anchor in it and no edge into it score exactly zero |
| Scores.DistantScoreLittle | chain/x/agntcoin/keeper/pagerank.go:52-60 | However many addresses there are that no anchor reaches along fewer than k edges, their scores sum to at most 0.85^k |
| Scores.ScoresUnique | chain/x/agntcoin/keeper/pagerank.go:97-107 | The scores and the number of rounds do not depend on the order in which nodes are listed |
| Scores.ScoresSumToOne | chain/x/agntcoin/keeper/pagerank.go:62-63 | With distinct anchors the scores are non-negative and sum to exactly 1 |
| Ranking.Rank | chain/x/agntcoin/keeper/pagerank.go:64-196 | The array program computes the scores: the iterate of the first round below tolerance, or of the hundredth |
| Ranking.PowerIterate | chain/x/agntcoin/keeper/pagerank.go:152-189 | The swapping loop stops at the first round whose change is below tolerance, or at the last allowed, holding that iterate |
| Ranking.Round | chain/x/agntcoin/keeper/pagerank.go:158-176 | The base loop and the edge loop together write one round of the iteration into the other array |
| Ranking.OutWeights | chain/x/agntcoin/keeper/pagerank.go:109-113 | Each entry is the total weight of the node's out-edges |
| Ranking.NormaliseEdges | chain/x/agntcoin/keeper/pagerank.go:115-129 | No edge is dropped, and each carries its share of its source's weight |
| Ranking.Personalise | chain/x/agntcoin/keeper/pagerank.go:131-150 | The array holds the teleport vector |
| Ranking.Change | chain/x/agntcoin/keeper/pagerank.go:178-182 | The loop computes the L1 distance of the two arrays |
| Influence.EdgesCarryCoin | chain/x/agntcoin/keeper/reputation_score.go:11-53 | The edges from one address to others weigh exactly the coin the stores say it committed toward them: vouch stakes, amounts paid on released escrows, and amounts earned in accepted cases for each vote endorsing them |
| Influence.RoundFromStores | chain/x/agntcoin/keeper/pagerank.go:109-176 | One round in figures: 0.15 and 0.85 of idle rank teleported in equal parts, and 0.85 of every other rank passed on in proportion to the coin committed |
| Scores.StopRule | chain/x/agntcoin/keeper/pagerank.go:152-189 | The scores are the ranks after the first round that changed them by less than a billionth, or the hundredth, from the teleport vector |
| Trust.IsolatedScoresZero | chain/x/agntcoin/keeper/reputation_score.go:11-53 | Accounts nobody outside vouched for, paid on a release or endorsed as juror have no reputation at all |
| Keepers.Keeper.ReputationScores | chain/x/agntcoin/keeper/reputation_score.go:11-53 | The store walks and the ranking give the scores of the trust graph the stores describe |
| Varints.VarintLength | chain/x/agntcoin/types/dispute.pb.go:430-432 | The length computed from the bit length is the number of bytes of the varint, for every value |
| Varints.VarintStandsFor | chain/x/agntcoin/types/dispute.pb.go:360-370 | A varint stands for its number, seven bits a byte from the least significant, and exactly its last byte is below 128 |
| Varints.EncodeVarint | chain/x/agntcoin/types/dispute.pb.go:360-370 | The writer puts the varint right before the offset and touches nothing else |
| Varints.ReadBack | chain/x/agntcoin/types/dispute.pb.go:441-455 | A written 64-bit varint is read back, whatever follows it |
| Varints.ReadVarintMeans | chain/x/agntcoin/types/dispute.pb.go:441-455 | For every input: at most ten bytes up to the first below 128 give the number they stand for modulo 2^64, ten without such an end overflow, fewer are an unexpected end |
| Varints.DecodeVarint | chain/x/agntcoin/types/dispute.pb.go:441-455 | The shift loop reads the varint with the same overflow and end-of-input errors |
| Varints.SkipLoop | chain/x/agntcoin/types/dispute.pb.go:826-903 | The skip loop with its group depth finds the end of an unknown field, or the same error |
| DisputeCodec.DisputeLength | chain/x/agntcoin/types/dispute.pb.go:371-428 | The announced size is the number of bytes written, votes included |
| DisputeCodec.VoteRoundTrip | chain/x/agntcoin/types/dispute.pb.go:436-556 | Parsing an encoded vote gives the vote back |
| DisputeCodec.DisputeParses | chain/x/agntcoin/types/dispute.pb.go:557-825 | Wherever an encoded dispute stands in the input, parsing past it merges it: written fields replace, votes are appended |
| DisputeCodec.DisputeRoundTrip | chain/x/agntcoin/types/dispute.pb.go:280-358 | Unmarshalling what was marshalled gives the same record, for any fields and any list of votes |
| DisputeCodec.DisputeBytesInjective | chain/x/agntcoin/types/dispute.pb.go:295-358 | Different records have different encodings |
| DisputeCodec.ConcatenationMerges | chain/x/agntcoin/types/dispute.pb.go:557-825 | Parsing two concatenated encodings gives the merged record |
| DisputeCodec.FieldNumbers | chain/x/agntcoin/types/dispute.pb.go:557-825 | Behind each literal tag byte a number or text is read as the field of that number |
| DisputeCodec.VoteFieldNumbers | chain/x/agntcoin/types/dispute.pb.go:436-556 | The same for votes and for the vote field of a dispute |
| DisputeCodec.UnknownFieldIgnored | chain/x/agntcoin/types/dispute.pb.go:805-820 | A field with another number, of any wire type but a group, is passed over wherever it stands |
| DisputeWire.Marshal | chain/x/agntcoin/types/dispute.pb.go:280-288 | The backward writer fills a buffer of exactly the announced size with exactly the encoding |
| DisputeWire.MarshalDispute | chain/x/agntcoin/types/dispute.pb.go:295-358 | The record ends where the buffer ends, and nothing before it is touched |
| DisputeWire.MarshalVote | chain/x/agntcoin/types/dispute.pb.go:250-278 | A vote is written right before the given end, and nothing else is touched |
| DisputeWire.SizeOfVotes | chain/x/agntcoin/types/dispute.pb.go:418-423 | The size loop over nested votes |
| DisputeWire.UnmarshalDispute | chain/x/agntcoin/types/dispute.pb.go:557-825 | The cursor loop parses every input as specified, errors included |
| DisputeWire.UnmarshalVote | chain/x/agntcoin/types/dispute.pb.go:436-556 | The same for votes |
| Startup.Validate | chain/x/agntcoin/types/genesis.go:48-128 | The validation loops accept exactly the states with distinct keys, ids below their counters in every list, a sound emission state and distinct named anchors |
| Startup.ValidMeans | chain/x/agntcoin/types/genesis.go:48-128 | Those are exactly the states that load without one record overwriting another, with counters ahead, named anchors and an emission state within the cap |
| Startup.LoadedIsGenesis | chain/x/agntcoin/keeper/genesis.go:10-69 | A valid genesis whose parties exist, whose escrows need no stakes and whose coin fits 64 bits loads into a state with books, custody, gates and awards in order |
| Startup.LoadedFollowsIff | chain/x/agntcoin/keeper/genesis.go:12-22 | In its first epoch a valid genesis starts the schedule of its own cap and divisor if and only if that epoch's reward is the first one, nothing was burned, all that was mined was mined in it, and its clock can run |
| Startup.DefaultGenesis | chain/x/agntcoin/types/genesis.go:6-26 | The default genesis is valid and its emission starts on the schedule of the constants |
| Keepers.Keeper.InitGenesis | chain/x/agntcoin/keeper/genesis.go:10-69 | Loading record by record leaves the stores of the last record per key, starts the emission clock and sets the anchors |
| Keepers.Keeper.Deliver | chain/x/agntcoin/keeper/msg_server.go:7-17 | For every message: its handler, run on the stores, succeeds or fails as specified; a success has exactly the specified effect, a failure leaves no trace |
| Keepers.Keeper.DeliverAll | chain/x/agntcoin/keeper/msg_server.go:7-17 | A list of transactions leaves the state of the machine's run |
| Keepers.Keeper.ResolveDispute | chain/x/agntcoin/keeper/msg_server_resolve_dispute.go:22-294 | Tally, quorum, majority and jury control decide whether and how the verdict is settled; the final stores are those of `Jury.ResolveDispute` |
| Keepers.Keeper.TallyVotes | chain/x/agntcoin/keeper/msg_server_resolve_dispute.go:38-45 | Counts the votes of either side |
| Keepers.Keeper.SettleDisputeBond | chain/x/agntcoin/keeper/msg_server_resolve_dispute.go:129-178 | The bond returns to an upheld opener, else goes to the griefed side or, for a challenge, to the first passing verifier |
| Keepers.Keeper.SettleVotes | chain/x/agntcoin/keeper/msg_server_resolve_dispute.go:188-227 | The loop over votes settles active juror stakes by coherence |
| Keepers.Keeper.SettleAttestations | chain/x/agntcoin/keeper/msg_server_resolve_dispute.go:241-276 | The loop over attestations settles active verifier stakes by coherence |
| Keepers.Keeper.ScanVerifiers | chain/x/agntcoin/keeper/msg_server_lock_escrow.go:37-49 | The scan with a set of seen addresses reports the first fault of the list |
| Keepers.Keeper.VerifiedRelease | chain/x/agntcoin/keeper/msg_server_verified_release.go:37-126 | Pass count, key preimage, payout and challenge window |
| Keepers.Keeper.ReclaimAttestationBonds | chain/x/agntcoin/keeper/msg_server_reclaim_attestation_bonds.go:26-81 | After the window the loop frees exactly the stakes still active |
| Keepers.Keeper.WalkVouches | chain/x/agntcoin/keeper/msg_server_castvouch.go:43-55 | The walk stops at the first vouch of that pair |
| Keepers.Keeper.SyncEmissionState | chain/x/agntcoin/keeper/emission.go:65-104 | The catch-up loop over epoch fields ends in the specified state and stores it |
| Keepers.Keeper.PayCoherent | chain/x/agntcoin/keeper/msg_server_gate.go:288-307 | The minting loop pays and marks the same answers |
| Keepers.Keeper.WalkAwards | chain/x/agntcoin/keeper/msg_server_award_contribution.go:79-86 | In whatever order awards are walked, a duplicate artifact is found if and only if there is one |

`Keeper.Deliver` rests on one method for each handler, proved against the function of the same name:
`LockEscrow`, `SubmitEscrow`, `DisputeEscrow`, `ReleaseEscrow`, `RefundEscrow`, `AttestEscrow`, `OpenDispute`,
`CastVote`, `CastVouch`, `Unvouch`, `Register`, `Transfer`, `PostBond`, `ReleaseBond`, `SlashBond`, `PostGate`,
`CommitAnswer`, `RevealAnswer`, `SettleGate` and `AwardContribution`, besides those with a row above.

## Left out

* Address decoding, x/auth accounts, event emission and store errors: an address is a string, valid when
  it is not empty, and addresses inside stored records always decode.
* SHA-256: an uninterpreted function of the environment. Anchors and the two gate windows, which the
  source reads from parameters, environment variables or a file, are part of the environment too;
  anchors stay fixed during a run and windows are positive and below 2^60.
* Case folding: `EqualFold` is modelled on ASCII, which is exact when one side is a hex digest.
* Ids, counters and the epoch number are unbounded; block times lie between 1970 and the end of the
  year 9999. The sum of an epoch's start and its length is not wrapped; a length of 2^63 or more is
  treated as the source's negative length.
* Store walks visit the ids below the store's counter, which are all of them in every reachable state.
* Which of several faults a refusal reports, and when it says unauthorized, is specified by the handler
  functions and kept by `Keeper`; the theorems say what the other kinds of error tell (`Refusals.RefusalTells`).
* A handler's contract leaves the stores open after a refusal, as the source does; `Keeper.Deliver` restores
  them.
* Floating point: scores are real numbers, so rounding and summation order play no part. The sort of the
  node names only fixes that order; the model lists nodes in any order (`Scores.ScoresUnique`).
* Statuses and resolutions are enumerations instead of strings, except in the stored form of disputes,
  where they are byte strings.
* `Faucet`, `UpdateParams` and `CastScopedEvidenceVouch`, which move no coin; all queries except the
  reputation scores; genesis export, which omits bonds, disputes and gates.
- Verdicts.ReachableSound: starts only from a genesis whose escrows carry no verdicts and are not frozen or
  fail-attested, because loading restores neither their stakes nor their cases (`Verdicts.GenesisInCustodyIff`).
- Startup.LoadedIsGenesis: leaves out the same escrows, for the same reason.
- Keepers.Keeper.InitGenesis: does not store scoped evidence vouches, which no modelled handler reads; their
  ids are validated.
* Wiring, command line, simulation, clients, contracts, the retired TypeScript prototype and the other
  generated codecs, which would add only easier members of the same pattern.
