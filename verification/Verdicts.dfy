/** What the jury guarantees in every reachable state. */
module Verdicts {
  import opened Outcomes
  import opened Integers
  import opened Text
  import opened Types
  import opened Ledger
  import opened Escrows
  import opened Jury
  import opened Bonds
  import opened Gates
  import opened Machine
  import opened Conservation
  import opened Conserved
  import opened Custody
  import opened CustodyKept
  import opened Lives
  import opened Settlement

  // ---- Reachable states ---------------------------------------------------

  /** An escrow whose record is complete without bonds and cases: nobody has attested it, no jury holds
      it, and no challenge window is open on it, unless it was released with a quorum of nobody. */
  predicate GenesisEscrow(e: Escrow) {
    && e.status !in {InJury, Challenged, FailAttested} && e.attestations == []
    && (e.verifierAddrs != [] ==> e.noAutoRelease)
    && (e.challengeDeadline == 0 || (e.status == Released && e.verifierQuorum == 0))
  }

  /** A state as loading a genesis leaves it: no bond, case or gate is restored. */
  predicate FreshlyLoaded(s: State) {
    s.bonds == map[] && s.disputes == map[] && s.gates == map[]
  }

  ghost predicate Genesis(s: State) {
    Books(s) && FreshlyLoaded(s) && forall id | id in s.escrows :: GenesisEscrow(s.escrows[id])
  }

  /** Loading restores no stakes and no cases; so the loaded state is in custody exactly when no stored
      escrow needs any. */
  lemma GenesisInCustodyIff(env: Env, s: State, start: int)
    requires Books(s) && FreshlyLoaded(s)
    ensures InCustody(env, s, start) <==> Genesis(s)
  {
    hide Parties, Supply;
    assert forall k, id :: !OpenOn(s, k, id);
    forall id | id in s.escrows
      ensures EscrowSound(s, id, start) && s.escrows[id].status !in {InJury, Challenged} <==> GenesisEscrow(s.escrows[id])
    {
      UnbackedSound(s, id, start);
    }
  }

  lemma UnbackedSound(s: State, id: nat, start: int)
    requires id in s.escrows && FreshlyLoaded(s)
    ensures EscrowSound(s, id, start) && s.escrows[id].status !in {InJury, Challenged} <==> GenesisEscrow(s.escrows[id])
  {
    var e := s.escrows[id];
    if e.attestations != [] { assert !Backs(s.bonds, e.attestations[0].bondId, AttestationPurpose(e.id), e.attestations[0].verifier); }
  }

  /** Every state reached from genesis by transactions in block order. */
  lemma ReachableSound(env: Env, g: State, start: int, txs: seq<Tx>)
    requires Genesis(g) && InOrder(start, txs)
    ensures Books(Run(env, g, txs)) && InCustody(env, Run(env, g, txs), Clock(start, txs))
  {
    GenesisInCustodyIff(env, g, start);
    RunKeepsCustody(env, g, start, txs);
  }

  // ---- Jury control is exclusive ------------------------------------------

  /** An escrow is frozen exactly when exactly one open case names it. */
  lemma FrozenIffOneCase(env: Env, s: State, clock: int, id: nat)
    requires InCustody(env, s, clock) && id in s.escrows
    ensures s.escrows[id].status in {InJury, Challenged}
            <==> exists k :: OpenOn(s, k, id) && forall l | OpenOn(s, l, id) :: l == k
  {
  }

  // ---- Stakes -------------------------------------------------------------

  /** The opener's bond and each juror's stake are active exactly while the case is open. */
  lemma StakesFollowCase(env: Env, s: State, clock: int, k: nat)
    requires InCustody(env, s, clock) && k in s.disputes
    ensures var d := s.disputes[k];
            && Backs(s.bonds, d.bondId, DisputePurpose(d.id), d.opener)
            && (s.bonds[d.bondId].status == Active <==> d.status == Open)
            && forall i | 0 <= i < |d.votes| ::
                 && Backs(s.bonds, d.votes[i].bondId, JurorPurpose(d.id), d.votes[i].juror)
                 && (s.bonds[d.votes[i].bondId].status == Active <==> d.status == Open)
  {
    assert DisputeSound(env, s, k);
  }

  /** A place in the records that names a protocol-held stake. */
  datatype StakeRef = OpenerBond(k: nat) | JurorBond(k: nat, i: nat) | VerifierBond(id: nat, i: nat)

  predicate IsRef(s: State, r: StakeRef) {
    match r
    case OpenerBond(k) => k in s.disputes
    case JurorBond(k, i) => k in s.disputes && i < |s.disputes[k].votes|
    case VerifierBond(id, i) => id in s.escrows && i < |s.escrows[id].attestations|
  }

  function RefBond(s: State, r: StakeRef): nat
    requires IsRef(s, r)
  {
    match r
    case OpenerBond(k) => s.disputes[k].bondId
    case JurorBond(k, i) => s.disputes[k].votes[i].bondId
    case VerifierBond(id, i) => s.escrows[id].attestations[i].bondId
  }

  function RefPurpose(r: StakeRef): string {
    match r
    case OpenerBond(k) => DisputePurpose(k)
    case JurorBond(k, i) => JurorPurpose(k)
    case VerifierBond(id, i) => AttestationPurpose(id)
  }

  lemma RefBacked(env: Env, s: State, clock: int, r: StakeRef)
    requires Keyed(s) && InCustody(env, s, clock) && IsRef(s, r)
    ensures RefBond(s, r) in s.bonds && s.bonds[RefBond(s, r)].purpose == RefPurpose(r)
            && s.bonds[RefBond(s, r)].slasher == ""
  {
  }

  /** No two places in the records name the same stake. */
  lemma OneRecordPerStake(env: Env, s: State, clock: int, q: StakeRef, r: StakeRef)
    requires Keyed(s) && InCustody(env, s, clock) && IsRef(s, q) && IsRef(s, r)
    requires RefBond(s, q) == RefBond(s, r)
    ensures q == r
  {
    RefBacked(env, s, clock, q);
    RefBacked(env, s, clock, r);
    SamePurposeSameRecord(q, r);
    match q
    case OpenerBond(k) =>
    case JurorBond(k, i) => assert DisputeSound(env, s, k);
    case VerifierBond(id, i) => assert EscrowSound(s, id, clock);
  }

  lemma SamePurposeSameRecord(q: StakeRef, r: StakeRef)
    requires RefPurpose(q) == RefPurpose(r)
    ensures q.OpenerBond? ==> r == q
    ensures q.JurorBond? ==> r.JurorBond? && r.k == q.k
    ensures q.VerifierBond? ==> r.VerifierBond? && r.id == q.id
  {
    var m := match q case OpenerBond(k) => k case JurorBond(k, _) => k case VerifierBond(id, _) => id;
    var n := match r case OpenerBond(k) => k case JurorBond(k, _) => k case VerifierBond(id, _) => id;
    PurposesDiffer(m, n);
    PurposesDiffer(n, m);
  }

  /** Nobody can release or slash by hand a stake that any record names. */
  lemma ProtocolStakesRefuseHands(env: Env, s: State, clock: int, r: StakeRef, c: Addr, beneficiary: Addr)
    requires Keyed(s) && InCustody(env, s, clock) && IsRef(s, r)
    ensures ReleaseBond(s, c, RefBond(s, r)).Err? && SlashBond(s, c, RefBond(s, r), beneficiary).Err?
  {
    hide InCustody;
    RefBacked(env, s, clock, r);
  }

  /** How many transactions of a run settle bond `id`. */
  function Settlements(env: Env, s: State, txs: seq<Tx>, id: nat): nat
    decreases |txs|
  {
    if txs == [] then 0
    else
      var t := Apply(env, s, txs[0].now, txs[0].msg);
      (if IsActive(s, id) && !IsActive(t, id) then 1 else 0) + Settlements(env, t, txs[1..], id)
  }

  /** Every bond is settled at most once, and a settled bond never changes again. */
  lemma {:induction false} SettledOnce(env: Env, s: State, txs: seq<Tx>, id: nat)
    requires Books(s)
    ensures Settlements(env, s, txs, id) <= 1
    ensures id in s.bonds && !IsActive(s, id) ==>
              Settlements(env, s, txs, id) == 0 && id in Run(env, s, txs).bonds && Run(env, s, txs).bonds[id] == s.bonds[id]
    decreases |txs|
  {
    hide Keyed, Parties, Supply, Step, Evolves;
    if txs != [] {
      var now, m := txs[0].now, txs[0].msg;
      StepEffect(env, s, now, m);
      StepBalanced(env, s, now, m);
      SettledOnce(env, Apply(env, s, now, m), txs[1..], id);
    }
  }

  // ---- Verdicts never get stuck -------------------------------------------

  /** A case resolves exactly when it is open, a quorum voted and one side has more votes: nothing
      else, such as a missing account or an escrow out of the jury's hands, can stand in the way. */
  lemma VerdictsNeverStick(env: Env, s: State, clock: int, now: UnixTime, c: Addr, k: nat)
    requires Books(s) && InCustody(env, s, clock)
    ensures ResolveDispute(env, s, now, c, k).Ok? <==>
              && c != "" && k in s.disputes && s.disputes[k].status == Open
              && |s.disputes[k].votes| >= Quorum(env)
              && TallyFrom(s.disputes[k].votes, true, 0) != TallyFrom(s.disputes[k].votes, false, 0)
  {
    hide Keyed, Parties, Supply, InCustody, SettleVerdict, EscrowTerms, EscrowBacked, DisputeBacked;
    if c != "" && k in s.disputes && s.disputes[k].status == Open && Verdict(env, s.disputes[k]).Ok? {
      var d := s.disputes[k];
      DisputeAt(env, s, clock, k);
      EscrowOf(s, d.escrowId);
      SettleVerdictBalanced(s, now, d, s.escrows[d.escrowId], Verdict(env, d).value);
    }
  }

  function Jurors(votes: seq<Vote>): set<Addr> {
    set i | 0 <= i < |votes| :: votes[i].juror
  }

  lemma {:induction false} DistinctJurors(votes: seq<Vote>)
    requires forall i, j | 0 <= i < j < |votes| :: votes[i].juror != votes[j].juror
    ensures |Jurors(votes)| == |votes|
    decreases |votes|
  {
    if votes != [] {
      var n := |votes| - 1;
      DistinctJurors(votes[..n]);
      assert Jurors(votes) == Jurors(votes[..n]) + {votes[n].juror};
    }
  }

  lemma {:induction false} DistinctAnchors(anchors: seq<Addr>)
    ensures |set a | a in anchors| <= |anchors|
    decreases |anchors|
  {
    if anchors != [] {
      var n := |anchors| - 1;
      DistinctAnchors(anchors[..n]);
      assert (set a | a in anchors) == (set a | a in anchors[..n]) + {anchors[n]};
    }
  }

  /** Behind every resolved verdict stands a strict majority of the anchor set, each with one vote. */
  lemma VerdictHasMajority(env: Env, s: State, clock: int, now: UnixTime, c: Addr, k: nat)
    requires Books(s) && InCustody(env, s, clock) && ResolveDispute(env, s, now, c, k).Ok?
    ensures var voters := Jurors(s.disputes[k].votes); var anchors := set a | a in env.anchors;
            voters <= anchors && 2 * |voters| > |anchors|
  {
    hide Keyed, Parties, Supply, InCustody, ResolveDispute, DisputeBacked, DisputeStakes, EscrowTerms;
    VerdictsNeverStick(env, s, clock, now, c, k);
    Cases(env, s, clock);
    assert DisputeSound(env, s, k);
    DistinctJurors(s.disputes[k].votes);
    DistinctAnchors(env.anchors);
  }

  // ---- Made whole ---------------------------------------------------------

  /** Escrow `id` was paid out on its verifiers' word and its challenge window opened. */
  predicate VerifierReleased(e: Escrow) {
    e.attestations != [] && AllPassed(e) && e.challengeDeadline != 0
  }

  /** `k` is the only case there has ever been about escrow `id`: cases are never deleted. */
  predicate OnlyCase(s: State, k: nat, id: nat) {
    forall l | l in s.disputes && s.disputes[l].escrowId == id :: l == k
  }

  lemma {:induction false} SlashedDue(bonds: map<nat, Bond>, stakes: seq<Stake>, accept: bool, winner: Addr, amount: nat)
    requires forall i | 0 <= i < |stakes| ::
               && stakes[i].bondId in bonds && bonds[stakes[i].bondId].status == Active
               && bonds[stakes[i].bondId].amount >= amount && stakes[i].verdict != accept
    ensures Due(bonds, stakes, accept, winner, winner) >= |stakes| * amount
    decreases |stakes|
  {
    if stakes != [] {
      var rest := stakes[1..];
      forall i | 0 <= i < |rest|
        ensures rest[i] == stakes[i + 1]
      {
      }
      SlashedDue(bonds, rest, accept, winner, amount);
      assert |stakes| * amount == amount + |rest| * amount;
    }
  }

  lemma Monotone(a: nat, b: nat, c: nat)
    requires a >= b
    ensures a * c >= b * c
  {
  }

  predicate Decided(s: State, k: nat, resolution: Resolution) {
    k in s.disputes && s.disputes[k].resolution == resolution
  }

  /** What the quorum insured, and the challenger's own bond. */
  function Insured(s: State, e: Escrow, k: nat): nat {
    e.verifierQuorum * e.amount + (if k in s.disputes && s.disputes[k].bondId in s.bonds then s.bonds[s.disputes[k].bondId].amount else 0)
  }

  /** The buyer is made whole. When the first challenge against a verified release is decided against
      the verifiers, every verifier's stake is still there; the payer receives at least the quorum times
      the escrowed amount and gets the challenge bond back; and no account loses anything. */
  lemma MadeWhole(env: Env, s: State, clock: int, now: UnixTime, c: Addr, k: nat, id: nat)
    requires Books(s) && InCustody(env, s, clock) && id in s.escrows
    requires OpenOn(s, k, id) && OnlyCase(s, k, id) && VerifierReleased(s.escrows[id])
    ensures StakesActive(s.bonds, s.escrows[id])
    ensures var r := ResolveDispute(env, s, now, c, k); var e := s.escrows[id];
            r.Ok? && Decided(r.value, k, Reject) ==>
              && BalanceAt(r.value, e.payer) >= BalanceAt(s, e.payer) + Insured(s, e, k)
              && forall a :: BalanceAt(r.value, a) >= BalanceAt(s, a)
  {
    hide Keyed, Parties, Supply, InCustody, SettleVerdict, EscrowTerms, EscrowBacked, DisputeTerms, DisputeBacked,
         StakesActive, AllPassed, Due, OnlyCase;
    var r := ResolveDispute(env, s, now, c, k);
    var d, e := s.disputes[k], s.escrows[id];
    ChallengeInsured(env, s, clock, k, id);
    if r.Ok? && Decided(r.value, k, Reject) {
      ResolveDisputeEffect(env, s, now, c, k);
      EscrowAt(env, s, clock, id);
      DisputeAt(env, s, clock, k);
      SettleVerdictPays(env, s, now, d, e, false);
      QuorumCovered(s.bonds, e);
    }
  }

  // ---- And only the first time --------------------------------------------

  /** What the verifiers' stakes pay the payer when a jury rejects their release. */
  function VerifiersPart(s: State, e: Escrow): nat {
    Due(s.bonds, AttestationStakes(e.attestations), false, e.payer, e.payer)
  }

  /** What the jurors that accepted pay the payer. */
  function JurorsPart(s: State, d: Dispute, e: Escrow): nat {
    Due(s.bonds, VoteStakes(d.votes), false, e.payer, e.payer)
  }

  lemma {:induction false} NothingDue(bonds: map<nat, Bond>, stakes: seq<Stake>, accept: bool, winner: Addr, a: Addr)
    requires forall i | 0 <= i < |stakes| :: stakes[i].bondId in bonds && bonds[stakes[i].bondId].status != Active
    ensures Due(bonds, stakes, accept, winner, a) == 0
    decreases |stakes|
  {
    if stakes != [] { NothingDue(bonds, stakes[1..], accept, winner, a); }
  }

  /** Under a challenge the verifiers' stakes are all locked or all settled: locked exactly when this is
      the first case there has been about the escrow. */
  lemma StakesActiveIffFirst(env: Env, s: State, clock: int, k: nat, id: nat)
    requires Keyed(s) && InCustody(env, s, clock) && id in s.escrows && OpenOn(s, k, id)
    requires s.escrows[id].status == Challenged
    ensures StakesActive(s.bonds, s.escrows[id]) <==> OnlyCase(s, k, id)
    ensures !OnlyCase(s, k, id) ==> StakesSettled(s.bonds, s.escrows[id])
  {
    hide Keyed, InCustody, EscrowBacked, OnlyCase, Tried;
    EscrowAt(env, s, clock, id);
    Cases(env, s, clock);
    var e := s.escrows[id];
    TriedIffLater(s, k, id);
    if !OnlyCase(s, k, id) {
      assert e.attestations[0].bondId in s.bonds && s.bonds[e.attestations[0].bondId].status != Active;
    }
  }

  /** Of two cases about one escrow at most one is open. */
  lemma TriedIffLater(s: State, k: nat, id: nat)
    requires OpenOn(s, k, id) && forall l | OpenOn(s, l, id) :: l == k
    ensures Tried(s, id) <==> !OnlyCase(s, k, id)
  {
    if !OnlyCase(s, k, id) {
      var l :| l in s.disputes && s.disputes[l].escrowId == id && l != k;
      assert !OpenOn(s, l, id);
    }
  }

  /** A verifier that passed, whose stake a verdict against the release gives to the payer; or that is the
      payer, and gets its own stake back. Locking refuses such a verifier, but loading does not. */
  predicate Insurer(e: Escrow, a: Attestation) {
    a.passed || a.verifier == e.payer
  }

  predicate HasInsurer(e: Escrow) {
    exists i | 0 <= i < |e.attestations| :: Insurer(e, e.attestations[i])
  }

  /** Out of stakes of at least `amount` each, all of them active, the winner is due nothing when none is
      payable to it, and at least `amount` when one is. */
  lemma {:induction false} DueIff(bonds: map<nat, Bond>, stakes: seq<Stake>, accept: bool, winner: Addr, amount: nat)
    requires forall i | 0 <= i < |stakes| ::
               stakes[i].bondId in bonds && bonds[stakes[i].bondId].status == Active && bonds[stakes[i].bondId].amount >= amount
    ensures var due := Due(bonds, stakes, accept, winner, winner);
            if exists i | 0 <= i < |stakes| :: Payee(stakes[i], accept, winner) == winner then due >= amount else due == 0
    decreases |stakes|
  {
    if stakes != [] {
      var rest := stakes[1..];
      assert forall i | 0 <= i < |rest| :: rest[i] == stakes[i + 1];
      assert forall i | 0 < i < |stakes| :: stakes[i] == rest[i - 1];
      DueIff(bonds, rest, accept, winner, amount);
    }
  }

  lemma InsurersPay(s: State, e: Escrow)
    requires StakesActive(s.bonds, e) && EscrowBacked(s.bonds, e)
    ensures if HasInsurer(e) then VerifiersPart(s, e) >= e.amount else VerifiersPart(s, e) == 0
  {
    hide Due;
    var stakes := AttestationStakes(e.attestations);
    forall i | 0 <= i < |stakes|
      ensures stakes[i].bondId in s.bonds && s.bonds[stakes[i].bondId].status == Active && s.bonds[stakes[i].bondId].amount >= e.amount
      ensures Payee(stakes[i], false, e.payer) == e.payer <==> Insurer(e, e.attestations[i])
    {
      assert stakes[i] == AttestationStake(e.attestations[i]);
    }
    DueIff(s.bonds, stakes, false, e.payer, e.amount);
  }

  /** A verdict against a challenged release, whatever released it, returns the challenge bond and adds the
      stakes of the jurors and verifiers that held otherwise. The verifiers' part is at least the amount on
      the first case if some verifier passed the work, and nothing on any later case or if all failed it:
      with a positive amount the payer is insured exactly in the first situation. After a verified release
      the part is at least the quorum times the amount. */
  lemma MadeWholeIffFirst(env: Env, s: State, clock: int, now: UnixTime, c: Addr, k: nat, id: nat)
    requires Books(s) && InCustody(env, s, clock) && id in s.escrows && OpenOn(s, k, id)
    requires s.escrows[id].status == Challenged
    ensures var r := ResolveDispute(env, s, now, c, k); var d, e := s.disputes[k], s.escrows[id];
            r.Ok? && Decided(r.value, k, Reject) ==>
              && d.bondId in s.bonds
              && BalanceAt(r.value, e.payer)
                 == BalanceAt(s, e.payer) + s.bonds[d.bondId].amount + JurorsPart(s, d, e) + VerifiersPart(s, e)
    ensures var e := s.escrows[id];
            && (OnlyCase(s, k, id) && HasInsurer(e) ==> VerifiersPart(s, e) >= e.amount)
            && (OnlyCase(s, k, id) && VerifierReleased(e) ==> VerifiersPart(s, e) >= e.verifierQuorum * e.amount)
            && (!OnlyCase(s, k, id) || !HasInsurer(e) ==> VerifiersPart(s, e) == 0)
            && (e.amount > 0 ==> (VerifiersPart(s, e) > 0 <==> OnlyCase(s, k, id) && HasInsurer(e)))
  {
    hide Keyed, Parties, Supply, InCustody, SettleVerdict, EscrowTerms, EscrowBacked, DisputeTerms, DisputeBacked,
         StakesActive, AllPassed, Due, OnlyCase, StakesSettled, StakesWait, StakesSpent, HasInsurer, VerifiersPart;
    var r := ResolveDispute(env, s, now, c, k);
    EscrowAt(env, s, clock, id);
    DisputeAt(env, s, clock, k);
    ChallengerIsPayer(env, s, clock, k, id);
    VerifiersPartIs(env, s, clock, k, id);
    if r.Ok? && Decided(r.value, k, Reject) {
      ResolveDisputeEffect(env, s, now, c, k);
      RejectPays(env, s, now, s.disputes[k], s.escrows[id]);
    }
  }

  lemma VerifiersPartIs(env: Env, s: State, clock: int, k: nat, id: nat)
    requires Keyed(s) && InCustody(env, s, clock) && id in s.escrows && OpenOn(s, k, id) && s.escrows[id].status == Challenged
    ensures var e := s.escrows[id];
            && (OnlyCase(s, k, id) && HasInsurer(e) ==> VerifiersPart(s, e) >= e.amount)
            && (OnlyCase(s, k, id) && VerifierReleased(e) ==> VerifiersPart(s, e) >= e.verifierQuorum * e.amount)
            && (!OnlyCase(s, k, id) || !HasInsurer(e) ==> VerifiersPart(s, e) == 0)
  {
    hide Keyed, InCustody, EscrowTerms, EscrowBacked, StakesActive, AllPassed, Due, OnlyCase, StakesSettled, StakesWait, StakesSpent,
         HasInsurer;
    var e := s.escrows[id];
    EscrowAt(env, s, clock, id);
    StakesActiveIffFirst(env, s, clock, k, id);
    if OnlyCase(s, k, id) {
      InsurersPay(s, e);
      if VerifierReleased(e) {
        ChallengeInsured(env, s, clock, k, id);
        QuorumCovered(s.bonds, e);
      }
    } else {
      SettledPayNothing(s.bonds, e);
    }
  }

  lemma RejectPays(env: Env, s: State, now: UnixTime, d: Dispute, e: Escrow)
    requires Books(s) && d.id in s.disputes && d == s.disputes[d.id]
    requires e.id in s.escrows && e == s.escrows[e.id] && e.status == Challenged && d.opener == e.payer
    requires EscrowTerms(e) && EscrowBacked(s.bonds, e) && DisputeTerms(env, e, d) && DisputeBacked(s.bonds, d)
    requires d.bondId in s.bonds && s.bonds[d.bondId].status == Active
    ensures var r := SettleVerdict(s, now, d, e, false);
            r.Ok? && BalanceAt(r.value, e.payer)
                     == BalanceAt(s, e.payer) + s.bonds[d.bondId].amount + JurorsPart(s, d, e) + VerifiersPart(s, e)
  {
    hide Keyed, Parties, Supply, SettleVerdict, EscrowTerms, EscrowBacked, DisputeTerms, DisputeBacked, Due;
    SettleVerdictPays(env, s, now, d, e, false);
  }

  lemma SettledPayNothing(bonds: map<nat, Bond>, e: Escrow)
    requires StakesSettled(bonds, e)
    ensures Due(bonds, AttestationStakes(e.attestations), false, e.payer, e.payer) == 0
  {
    var stakes := AttestationStakes(e.attestations);
    assert forall i | 0 <= i < |stakes| :: stakes[i] == AttestationStake(e.attestations[i]);
    NothingDue(bonds, stakes, false, e.payer, e.payer);
  }

  lemma ChallengerIsPayer(env: Env, s: State, clock: int, k: nat, id: nat)
    requires Keyed(s) && InCustody(env, s, clock) && id in s.escrows && OpenOn(s, k, id) && s.escrows[id].status == Challenged
    ensures var d, e := s.disputes[k], s.escrows[id];
            d.opener == e.payer && d.bondId in s.bonds && s.bonds[d.bondId].status == Active
  {
    DisputeAt(env, s, clock, k);
  }

  /** A release is not final while its challenge window is open: whatever released the escrow, its payer
      may take it to the jury exactly while a deadline that is set has not passed. */
  lemma ReopenedIff(s: State, now: UnixTime, c: Addr, id: nat, reason: string, bond: U64)
    requires id in s.escrows && s.escrows[id].status == Released
    ensures var e := s.escrows[id];
            OpenDispute(s, now, c, id, reason, bond).Ok? <==>
              && c == e.payer != "" && e.attestations != [] && e.challengeDeadline != 0 && now < e.challengeDeadline
              && bond >= MIN_DISPUTE_BOND && Known(s.accounts, c) && s.accounts[c].balance >= bond
  {
  }

  lemma ChallengeInsured(env: Env, s: State, clock: int, k: nat, id: nat)
    requires Keyed(s) && InCustody(env, s, clock) && id in s.escrows && OpenOn(s, k, id)
    requires OnlyCase(s, k, id) && VerifierReleased(s.escrows[id])
    ensures var d, e := s.disputes[k], s.escrows[id];
            && e.status == Challenged && StakesActive(s.bonds, e) && EscrowBacked(s.bonds, e)
            && AllPassed(e) && |e.attestations| >= e.verifierQuorum
            && d.opener == e.payer && d.bondId in s.bonds && s.bonds[d.bondId].status == Active
  {
    EscrowAt(env, s, clock, id);
    DisputeAt(env, s, clock, k);
    assert !Tried(s, id);
  }

  lemma QuorumCovered(bonds: map<nat, Bond>, e: Escrow)
    requires AllPassed(e) && StakesActive(bonds, e) && EscrowBacked(bonds, e) && |e.attestations| >= e.verifierQuorum
    ensures var due := Due(bonds, AttestationStakes(e.attestations), false, e.payer, e.payer);
            due >= e.verifierQuorum * e.amount && (e.attestations != [] ==> due >= e.amount)
  {
    var stakes := AttestationStakes(e.attestations);
    forall i | 0 <= i < |stakes|
      ensures stakes[i].bondId in bonds && bonds[stakes[i].bondId].status == Active
              && bonds[stakes[i].bondId].amount >= e.amount && stakes[i].verdict
    {
      assert stakes[i] == AttestationStake(e.attestations[i]);
    }
    SlashedDue(bonds, stakes, false, e.payer, e.amount);
    Monotone(|stakes|, e.verifierQuorum, e.amount);
    if e.attestations != [] { Monotone(|stakes|, 1, e.amount); }
  }

  // ---- From release to verdict --------------------------------------------

  predicate NoCase(s: State, id: nat) {
    forall l | l in s.disputes :: s.disputes[l].escrowId != id
  }

  /** The terms a made-whole claim rests on. */
  predicate SameDeal(e: Escrow, f: Escrow) {
    && f.attestations == e.attestations && f.challengeDeadline == e.challengeDeadline
    && f.payer == e.payer && f.amount == e.amount && f.verifierQuorum == e.verifierQuorum
  }

  /** Once settled, an escrow keeps its terms and verdicts for the rest of the run. */
  lemma {:induction false} SettledDealStays(env: Env, s: State, txs: seq<Tx>, id: nat)
    requires Books(s) && id in s.escrows && !Held(s.escrows[id].status)
    ensures var t := Run(env, s, txs);
            id in t.escrows && !Held(t.escrows[id].status) && SameDeal(s.escrows[id], t.escrows[id])
    decreases |txs|
  {
    hide Keyed, Parties, Supply, Step, TouchesOnly;
    if txs != [] {
      StepEffect(env, s, txs[0].now, txs[0].msg);
      StepBalanced(env, s, txs[0].now, txs[0].msg);
      NothingEvolves(s);
      SettledDealStays(env, Apply(env, s, txs[0].now, txs[0].msg), txs[1..], id);
    }
  }

  /** A verified release leaves the escrow insured, with no case about it yet. */
  lemma VerifiedReleaseInsures(env: Env, s: State, now: UnixTime, c: Addr, id: nat, key: string)
    requires Books(s) && InCustody(env, s, now)
    ensures var r := VerifiedRelease(env, s, now, c, id, key);
            r.Ok? ==>
              && id in r.value.escrows && !Held(r.value.escrows[id].status)
              && AllPassed(r.value.escrows[id]) && r.value.escrows[id].challengeDeadline != 0 && NoCase(r.value, id)
  {
    hide Parties, Supply, InCustody;
    var r := VerifiedRelease(env, s, now, c, id, key);
    if r.Ok? {
      EscrowAt(env, s, now, id);
      NoCaseYet(env, s, now, id);
      PassesAtMost(s.escrows[id], 0);
    }
  }

  /** The only message that adds a case about an escrow opens a dispute on it, and the jury must not be
      sitting on it already. */
  lemma CasesAddedByOpening(env: Env, s: State, now: UnixTime, m: Msg, l: nat)
    requires Books(s) && l !in s.disputes
    ensures var r := Step(env, s, now, m);
            r.Ok? && l in r.value.disputes ==>
              && r.value.disputes[l].escrowId in s.escrows
              && s.escrows[r.value.disputes[l].escrowId].status !in {InJury, Challenged}
  {
    hide Keyed, Parties, Supply, HandleEscrow, HandleBond, HandleGate, OpenDispute, CastVote, ResolveDispute, TouchesOnly;
    var r := Step(env, s, now, m);
    if r.Ok? && l in r.value.disputes {
      match m {
        case ToEscrows(x) => EscrowMsgEffect(env, s, now, x);
        case ToJury(x) =>
          match x {
            case MsgOpenDispute(c, k, reason, bond) => OpenDisputeEffect(s, now, c, k, reason, bond);
            case MsgCastVote(c, k, accept, stake) => CastVoteEffect(env, s, c, k, accept, stake);
            case MsgResolveDispute(c, k) => ResolveDisputeEffect(env, s, now, c, k);
          }
        case ToBonds(b) =>
          if b.MsgPostBond? || b.MsgReleaseBond? || b.MsgSlashBond? { CollateralFrame(s, b); } else { MoneyFrame(s, b); }
        case ToGates(g) => GatesFrame(env, s, now, g);
      }
    }
  }

  /** While a case stays open, no second case about its escrow appears. */
  lemma {:induction false} OnlyCaseStays(env: Env, s: State, clock: int, txs: seq<Tx>, k: nat, id: nat)
    requires Books(s) && InCustody(env, s, clock) && InOrder(clock, txs)
    requires OpenOn(s, k, id) && OnlyCase(s, k, id) && OpenOn(Run(env, s, txs), k, id)
    ensures OnlyCase(Run(env, s, txs), k, id)
    decreases |txs|
  {
    hide Keyed, Parties, Supply, InCustody, Step, TouchesOnly, Evolves;
    if txs != [] {
      var now, m, rest := txs[0].now, txs[0].msg, txs[1..];
      var t := Apply(env, s, now, m);
      LaterClock(env, s, clock, now);
      StepEffect(env, s, now, m);
      StepBalanced(env, s, now, m);
      StepKeepsCustody(env, s, now, m);
      assert InOrder(now, rest);
      if !OpenOn(t, k, id) {
        DecidedStays(env, t, rest, k);
      } else {
        DisputeAt(env, s, now, k);
        forall l | l in t.disputes && t.disputes[l].escrowId == id
          ensures l == k
        {
          if l !in s.disputes { CasesAddedByOpening(env, s, now, m, l); }
        }
        OnlyCaseStays(env, t, now, rest, k, id);
      }
    }
  }

  lemma {:induction false} DecidedStays(env: Env, s: State, txs: seq<Tx>, k: nat)
    requires Books(s) && k in s.disputes && s.disputes[k].status == Resolved
    ensures k in Run(env, s, txs).disputes && Run(env, s, txs).disputes[k] == s.disputes[k]
    decreases |txs|
  {
    hide Keyed, Parties, Supply, Step, TouchesOnly, Evolves;
    if txs != [] {
      StepEffect(env, s, txs[0].now, txs[0].msg);
      StepBalanced(env, s, txs[0].now, txs[0].msg);
      DecidedStays(env, Apply(env, s, txs[0].now, txs[0].msg), txs[1..], k);
    }
  }

  /** The whole story: a verified release, anything in between, the first challenge, anything in between
      again, and a verdict of fraud. The payer ends that verdict at least quorum times the escrowed
      amount richer, plus the challenge bond, and nobody is poorer for it. */
  lemma FirstChallengePays(env: Env, s0: State, t0: UnixTime, id: nat, key: string, caller: Addr,
                           between: seq<Tx>, t1: UnixTime, payer: Addr, reason: string, bond: U64,
                           sitting: seq<Tx>, t2: UnixTime, closer: Addr)
    requires Books(s0) && InCustody(env, s0, t0)
    requires var r1 := VerifiedRelease(env, s0, t0, caller, id, key);
             && r1.Ok?
             && InOrder(t0, between) && Clock(t0, between) <= t1 && InOrder(t1, sitting) && Clock(t1, sitting) <= t2
             && NoCase(Run(env, r1.value, between), id)
             && var s2 := Run(env, r1.value, between);
                var r3 := OpenDispute(s2, t1, payer, id, reason, bond);
             && r3.Ok?
             && OpenOn(Run(env, r3.value, sitting), s2.disputeSeq, id)
    ensures var s2 := Run(env, VerifiedRelease(env, s0, t0, caller, id, key).value, between);
            var s4 := Run(env, OpenDispute(s2, t1, payer, id, reason, bond).value, sitting);
            var r5 := ResolveDispute(env, s4, t2, closer, s2.disputeSeq);
            var e := s0.escrows[id];
            r5.Ok? && Decided(r5.value, s2.disputeSeq, Reject) ==>
              && BalanceAt(r5.value, e.payer) >= BalanceAt(s4, e.payer) + e.verifierQuorum * e.amount + bond
              && forall a :: BalanceAt(r5.value, a) >= BalanceAt(s4, a)
  {
    hide Keyed, Parties, Supply, InCustody, VerifiedRelease, OpenDispute, ResolveDispute, TouchesOnly, Run;
    var s1 := VerifiedRelease(env, s0, t0, caller, id, key).value;
    VerifiedReleaseBalanced(env, s0, t0, caller, id, key);
    VerifiedReleaseKeeps(env, s0, t0, caller, id, key);
    VerifiedReleaseInsures(env, s0, t0, caller, id, key);
    MoveEffect(env, s0, t0, MsgVerifiedRelease(caller, id, key));
    var s2 := Run(env, s1, between);
    RunKeepsCustody(env, s1, t0, between);
    SettledDealStays(env, s1, between, id);
    LaterClock(env, s2, Clock(t0, between), t1);
    var k := s2.disputeSeq;
    var s3 := OpenDispute(s2, t1, payer, id, reason, bond).value;
    OpenDisputeBalanced(s2, t1, payer, id, reason, bond);
    OpenDisputeKeeps(env, s2, t1, payer, id, reason, bond);
    OpenDisputeEffect(s2, t1, payer, id, reason, bond);
    ChallengeBond(s2, t1, payer, id, reason, bond);
    var s4 := Run(env, s3, sitting);
    RunKeepsCustody(env, s3, t1, sitting);
    SettledDealStays(env, s3, sitting, id);
    OnlyCaseStays(env, s3, t1, sitting, k, id);
    BondAmountStays(env, s3, sitting, k, s2.bondSeq);
    MadeWhole(env, s4, Clock(t1, sitting), t2, closer, k, id);
  }

  lemma ChallengeBond(s: State, now: UnixTime, c: Addr, id: nat, reason: string, bond: U64)
    requires Keyed(s)
    ensures var r := OpenDispute(s, now, c, id, reason, bond);
            r.Ok? ==> s.bondSeq in r.value.bonds && r.value.bonds[s.bondSeq].amount == bond
  {
    hide Keyed, LockBond, DisputePurpose, MayDispute, TouchesOnly;
    LockBondTouches(s, c, bond, DisputePurpose(s.disputeSeq), "", FormatUint(id));
  }

  /** A case keeps its bond, and the bond its amount. */
  lemma {:induction false} BondAmountStays(env: Env, s: State, txs: seq<Tx>, k: nat, b: nat)
    requires Books(s) && k in s.disputes && s.disputes[k].bondId == b && b in s.bonds
    ensures var t := Run(env, s, txs);
            k in t.disputes && t.disputes[k].bondId == b && b in t.bonds && t.bonds[b].amount == s.bonds[b].amount
    decreases |txs|
  {
    hide Keyed, Parties, Supply, Step, Evolves;
    if txs != [] {
      StepEffect(env, s, txs[0].now, txs[0].msg);
      StepBalanced(env, s, txs[0].now, txs[0].msg);
      BondAmountStays(env, Apply(env, s, txs[0].now, txs[0].msg), txs[1..], k, b);
    }
  }

  // ---- Contested fail verdicts --------------------------------------------

  /** The mirror image: a seller whose work a verifier failed wrongly receives, on a jury's acceptance,
      the escrowed amount and at least as much again from the verifier's stake. */
  lemma FalseFailPays(env: Env, s: State, clock: int, now: UnixTime, c: Addr, k: nat, id: nat)
    requires Books(s) && InCustody(env, s, clock) && id in s.escrows
    requires OpenOn(s, k, id) && s.escrows[id].status == InJury && !AllPassed(s.escrows[id])
    ensures StakesActive(s.bonds, s.escrows[id])
    ensures var r := ResolveDispute(env, s, now, c, k); var e := s.escrows[id];
            r.Ok? && Decided(r.value, k, Accept) ==> BalanceAt(r.value, e.payee) >= BalanceAt(s, e.payee) + 2 * e.amount
  {
    hide Keyed, Parties, Supply, InCustody, SettleVerdict, EscrowTerms, EscrowBacked, DisputeTerms, DisputeBacked, StakesActive, Due;
    var r := ResolveDispute(env, s, now, c, k);
    var d, e := s.disputes[k], s.escrows[id];
    EscrowAt(env, s, clock, id);
    DisputeAt(env, s, clock, k);
    JuryUntried(env, s, clock, id);
    if r.Ok? && Decided(r.value, k, Accept) {
      ResolveDisputeEffect(env, s, now, c, k);
      SettleVerdictPays(env, s, now, d, e, true);
      var i :| 0 <= i < |e.attestations| && !e.attestations[i].passed;
      OneSlashed(s.bonds, e, i);
    }
  }

  lemma JuryUntried(env: Env, s: State, clock: int, id: nat)
    requires InCustody(env, s, clock) && id in s.escrows && s.escrows[id].status == InJury
    ensures !Tried(s, id)
  {
    assert forall l | l in s.disputes :: DisputeSound(env, s, l);
  }

  lemma OneSlashed(bonds: map<nat, Bond>, e: Escrow, i: nat)
    requires i < |e.attestations| && !e.attestations[i].passed && StakesActive(bonds, e) && EscrowBacked(bonds, e)
    ensures Due(bonds, AttestationStakes(e.attestations), true, e.payee, e.payee) >= e.amount
  {
    var stakes := AttestationStakes(e.attestations);
    assert stakes[i] == AttestationStake(e.attestations[i]);
    DueAtLeast(bonds, stakes, true, e.payee, i);
  }

  lemma {:induction false} DueAtLeast(bonds: map<nat, Bond>, stakes: seq<Stake>, accept: bool, winner: Addr, i: nat)
    requires i < |stakes| && stakes[i].bondId in bonds && stakes[i].verdict != accept
    ensures Due(bonds, stakes, accept, winner, winner) >= Collateral(bonds[stakes[i].bondId])
    decreases |stakes|
  {
    if i > 0 { DueAtLeast(bonds, stakes[1..], accept, winner, i - 1); }
  }
}
