/** The minting rails from outside: which messages reach the emission state, the gates, the awards and
    the vouches, and how an invariant of the emission state is kept over runs. */
module Rails {
  import opened Outcomes
  import opened Integers
  import opened Text
  import opened Types
  import opened Emission
  import opened Ledger
  import opened Escrows
  import opened Jury
  import opened Bonds
  import opened Gates
  import opened Machine

  // ---- Messages that mint nothing -----------------------------------------

  /** The emission state, the gates and the awards are as they were, and nobody they may pay has lost
      its account. */
  predicate LeavesRails(s: State, t: State) {
    && t.emission == s.emission && t.gates == s.gates && t.gateSeq == s.gateSeq && t.awards == s.awards && t.awardSeq == s.awardSeq
    && s.accounts.Keys <= t.accounts.Keys
  }

  predicate LeavesVouches(s: State, t: State) {
    t.vouches == s.vouches && t.vouchSeq == s.vouchSeq
  }

  lemma {:induction false} ReclaimLeaves(s: State, e: Escrow, i: nat)
    requires i <= |e.attestations|
    ensures var r := ReclaimFrom(s, e, i);
            r.Ok? ==> LeavesRails(s, r.value) && LeavesVouches(s, r.value)
    decreases |e.attestations| - i
  {
    if i < |e.attestations| {
      var bondId := e.attestations[i].bondId;
      if IsActive(s, bondId) && s.bonds[bondId].purpose == AttestationPurpose(e.id) {
        var r := SettleBond(s, bondId, s.bonds[bondId].poster, Freed);
        if r.Ok? { ReclaimLeaves(r.value, e, i + 1); }
      } else {
        ReclaimLeaves(s, e, i + 1);
      }
    }
  }

  lemma SettleBondLeaves(s: State, id: nat, to: Addr, status: BondStatus)
    requires id in s.bonds
    ensures var r := SettleBond(s, id, to, status);
            r.Ok? ==> LeavesRails(s, r.value) && LeavesVouches(s, r.value)
  {
  }

  lemma SettleStakeLeaves(s: State, k: Stake, purpose: string, accept: bool, winner: Addr)
    ensures var r := SettleStake(s, k, purpose, accept, winner);
            r.Ok? ==> LeavesRails(s, r.value) && LeavesVouches(s, r.value)
  {
    hide SettleBond;
    if IsActive(s, k.bondId) { SettleBondLeaves(s, k.bondId, if k.verdict == accept then k.owner else winner, if k.verdict == accept then Freed else Slashed); }
  }

  lemma {:induction false} SettleStakesLeave(s: State, stakes: seq<Stake>, purpose: string, accept: bool, winner: Addr)
    ensures var r := SettleStakes(s, stakes, purpose, accept, winner);
            r.Ok? ==> LeavesRails(s, r.value) && LeavesVouches(s, r.value)
    decreases |stakes|
  {
    if stakes != [] {
      hide SettleStake;
      SettleStakeLeaves(s, stakes[0], purpose, accept, winner);
      var r := SettleStake(s, stakes[0], purpose, accept, winner);
      if r.Ok? { SettleStakesLeave(r.value, stakes[1..], purpose, accept, winner); }
    }
  }

  lemma LockEscrowLeaves(s: State, now: UnixTime, m: LockRequest)
    ensures var r := LockEscrow(s, now, m);
            r.Ok? ==> LeavesRails(s, r.value) && LeavesVouches(s, r.value)
  {
    hide CheckVerifierTerms;
  }

  lemma AttestLeaves(s: State, now: UnixTime, c: Addr, id: nat, passed: bool, stake: U64, dh: string, kh: string, ah: string)
    ensures var r := AttestEscrow(s, now, c, id, passed, stake, dh, kh, ah);
            r.Ok? ==> LeavesRails(s, r.value) && LeavesVouches(s, r.value)
  {
    hide EqualFold;
  }

  /** Escrows mint nothing and touch no gate. */
  lemma EscrowsLeave(env: Env, s: State, now: UnixTime, m: EscrowMsg)
    ensures var r := HandleEscrow(env, s, now, m);
            r.Ok? ==> LeavesRails(s, r.value) && LeavesVouches(s, r.value)
  {
    hide PassesFrom, KeyMatches, IsHexSha256, LockEscrow, AttestEscrow;
    match m
    case MsgLockEscrow(q) => LockEscrowLeaves(s, now, q);
    case MsgAttestEscrow(c, id, passed, stake, dh, kh, ah) => AttestLeaves(s, now, c, id, passed, stake, dh, kh, ah);
    case MsgReclaimAttestationBonds(c, id) => if id in s.escrows { ReclaimLeaves(s, s.escrows[id], 0); }
    case _ =>
  }

  lemma EscrowPayLeaves(s: State, now: UnixTime, e: Escrow, accept: bool)
    ensures var r := SettleEscrow(s, now, e, accept);
            r.Ok? ==> LeavesRails(s, r.value) && LeavesVouches(s, r.value)
  {
    hide CreditAccount;
    CreditLeaves(s, e.payee, e.amount);
    CreditLeaves(s, e.payer, e.amount);
  }

  lemma CreditLeaves(s: State, a: Addr, amount: U64)
    ensures var r := CreditAccount(s, a, amount);
            r.Ok? ==> LeavesRails(s, r.value) && LeavesVouches(s, r.value)
  {
  }

  lemma OpenerBondLeaves(s: State, e: Escrow, d: Dispute, accept: bool)
    ensures var r := SettleDisputeBond(s, e, d, accept);
            r.Ok? ==> LeavesRails(s, r.value) && LeavesVouches(s, r.value)
  {
  }

  lemma VerdictLeaves(s: State, now: UnixTime, d: Dispute, e: Escrow, accept: bool)
    ensures var r := SettleVerdict(s, now, d, e, accept);
            r.Ok? ==> LeavesRails(s, r.value) && LeavesVouches(s, r.value)
  {
    hide SettleEscrow, SettleDisputeBond, SettleStakes, VoteStakes, AttestationStakes;
    var w, votes, atts := Winner(e, accept), VoteStakes(d.votes), AttestationStakes(e.attestations);
    var r1 := SettleEscrow(s, now, e, accept);
    EscrowPayLeaves(s, now, e, accept);
    if r1.Ok? {
      OpenerBondLeaves(r1.value, e, d, accept);
      var r2 := SettleDisputeBond(r1.value, e, d, accept);
      if r2.Ok? {
        SettleStakesLeave(r2.value, votes, JurorPurpose(d.id), accept, w);
        var r3 := SettleStakes(r2.value, votes, JurorPurpose(d.id), accept, w);
        if r3.Ok? { SettleStakesLeave(r3.value, atts, AttestationPurpose(e.id), accept, w); }
      }
    }
  }

  lemma JuryLeaves(env: Env, s: State, now: UnixTime, m: JuryMsg)
    ensures var r := HandleJury(env, s, now, m);
            r.Ok? ==> LeavesRails(s, r.value) && LeavesVouches(s, r.value)
  {
    hide SettleVerdict, Verdict;
    if m.MsgResolveDispute? && m.id in s.disputes && s.disputes[m.id].escrowId in s.escrows && Verdict(env, s.disputes[m.id]).Ok? {
      var d := s.disputes[m.id];
      VerdictLeaves(s, now, d, s.escrows[d.escrowId], Verdict(env, d).value);
    }
  }

  lemma VouchLeaves(s: State, c: Addr, to: Addr, weight: U64, stake: U64)
    ensures var r := CastVouch(s, c, to, weight, stake);
            r.Ok? ==> LeavesRails(s, r.value)
  {
    hide FindVouch, Add64;
    var r, found := CastVouch(s, c, to, weight, stake), FindVouch(s, c, to, 0);
    if r.Ok? {
      if found.Some? {
        assert r.value.vouchSeq == s.vouchSeq;
      } else {
        assert r.value.vouchSeq == s.vouchSeq + 1;
      }
    }
  }

  lemma UnvouchLeaves(s: State, c: Addr, to: Addr)
    ensures var r := Unvouch(s, c, to);
            r.Ok? ==> LeavesRails(s, r.value)
  {
    hide FindVouch;
  }

  lemma LockBondLeaves(s: State, poster: Addr, amount: U64, purpose: string, slasher: Addr, ref: string)
    ensures var r := LockBond(s, poster, amount, purpose, slasher, ref);
            r.Ok? ==> LeavesRails(s, r.value) && LeavesVouches(s, r.value)
  {
  }

  lemma SlashLeaves(s: State, c: Addr, id: nat, beneficiary: Addr)
    ensures var r := SlashBond(s, c, id, beneficiary);
            r.Ok? ==> LeavesRails(s, r.value) && LeavesVouches(s, r.value)
  {
  }

  lemma TransferLeaves(s: State, c: Addr, to: Addr, amount: U64)
    ensures var r := Transfer(s, c, to, amount);
            r.Ok? ==> LeavesRails(s, r.value) && LeavesVouches(s, r.value)
  {
  }

  lemma BondsLeave(s: State, m: BondMsg)
    ensures var r := HandleBond(s, m);
            r.Ok? ==> LeavesRails(s, r.value)
  {
    hide SlashBond, Transfer, CastVouch, Unvouch, LockBond, SettleBond;
    match m
    case MsgCastVouch(c, to, weight, stake) => VouchLeaves(s, c, to, weight, stake);
    case MsgUnvouch(c, to) => UnvouchLeaves(s, c, to);
    case MsgPostBond(c, amount, purpose, slasher, ref) => LockBondLeaves(s, c, amount, purpose, slasher, ref);
    case MsgReleaseBond(c, id) => if id in s.bonds { SettleBondLeaves(s, id, s.bonds[id].poster, Freed); }
    case MsgSlashBond(c, id, beneficiary) => SlashLeaves(s, c, id, beneficiary);
    case MsgTransfer(c, to, amount) => TransferLeaves(s, c, to, amount);
    case _ =>
  }

  // ---- Messages that mint -------------------------------------------------

  /** An invariant of the emission state that every successful mint from time `start` on keeps. */
  ghost predicate KeptByMints(p: Option<EmissionState> -> bool, start: int) {
    forall stored: Option<EmissionState>, now: UnixTime, amount: U64 ::
      start <= now && p(stored) && amount <= RemainingScheduled(Sync(stored, now)) && amount <= RemainingEpoch(Sync(stored, now))
      ==> p(Some(Mine(Sync(stored, now), amount)))
  }

  predicate Anything(stored: Option<EmissionState>) { true }

  lemma MintKeeps(s: State, now: UnixTime, to: Addr, amount: U64, p: Option<EmissionState> -> bool, start: int)
    requires start <= now && KeptByMints(p, start) && p(s.emission)
    ensures var r := MintReward(s, now, to, amount);
            r.Ok? ==> p(r.value.emission) && r.value == s.(accounts := r.value.accounts, emission := r.value.emission)
                      && s.accounts.Keys <= r.value.accounts.Keys
  {
    hide Sync, Mine, RemainingScheduled, RemainingEpoch;
  }

  lemma {:induction false} PayFromKeeps(s: State, now: UnixTime, g: Gate, winning: string, i: nat, p: Option<EmissionState> -> bool, start: int)
    requires start <= now && KeptByMints(p, start) && p(s.emission) && i <= |g.answers|
    ensures var r := PayFrom(s, now, g, winning, i);
            r.Ok? ==> p(r.value.emission) && r.value == s.(accounts := r.value.accounts, emission := r.value.emission)
                      && s.accounts.Keys <= r.value.accounts.Keys
    decreases |g.answers| - i
  {
    hide KeptByMints, MintReward;
    if i < |g.answers| {
      if Coherent(g.answers[i], winning) {
        MintKeeps(s, now, g.answers[i].agent, g.drip, p, start);
        var m := MintReward(s, now, g.answers[i].agent, g.drip);
        if m.Ok? { PayFromKeeps(m.value, now, g, winning, i + 1, p, start); }
      } else {
        PayFromKeeps(s, now, g, winning, i + 1, p, start);
      }
    }
  }

  lemma GatesKeep(env: Env, s: State, now: UnixTime, m: GateMsg, p: Option<EmissionState> -> bool, start: int)
    requires start <= now && KeptByMints(p, start) && p(s.emission)
    ensures var r := HandleGate(env, s, now, m);
            r.Ok? ==> p(r.value.emission) && LeavesVouches(s, r.value) && s.accounts.Keys <= r.value.accounts.Keys
                      && (!m.MsgAwardContribution? ==> r.value.awards == s.awards && r.value.awardSeq == s.awardSeq)
  {
    hide KeptByMints, MintReward, PayFrom, Winning, MarkPaid, Commitment, CheckContribution, Awarded, EqualFold, IsHexSha256;
    match m {
      case MsgSettleGate(c, id, gold, salt) =>
        if id in s.gates { PayFromKeeps(s, now, s.gates[id], Winning(s.gates[id].answers, gold), 0, p, start); }
      case MsgAwardContribution(c, k) =>
        var t := s.(awards := s.awards[s.awardSeq := Award(s.awardSeq, c, k)], awardSeq := s.awardSeq + 1);
        MintKeeps(t, now, k.recipient, k.amount, p, start);
      case _ =>
    }
  }

  lemma StepKeeps(env: Env, s: State, now: UnixTime, m: Msg, p: Option<EmissionState> -> bool, start: int)
    requires start <= now && KeptByMints(p, start) && p(s.emission)
    ensures var r := Step(env, s, now, m);
            r.Ok? ==> p(r.value.emission)
  {
    hide HandleEscrow, HandleJury, HandleBond, HandleGate, KeptByMints;
    match m
    case ToEscrows(x) => EscrowsLeave(env, s, now, x);
    case ToJury(x) => JuryLeaves(env, s, now, x);
    case ToBonds(x) => BondsLeave(s, x);
    case ToGates(x) => GatesKeep(env, s, now, x, p, start);
  }

  /** Such an invariant holds in every state of every run. */
  lemma {:induction false} RunKeeps(env: Env, s: State, txs: seq<Tx>, p: Option<EmissionState> -> bool, start: int)
    requires KeptByMints(p, start) && p(s.emission) && forall i | 0 <= i < |txs| :: start <= txs[i].now
    ensures p(Run(env, s, txs).emission)
    decreases |txs|
  {
    hide Step, KeptByMints;
    if txs != [] {
      StepKeeps(env, s, txs[0].now, txs[0].msg, p, start);
      RunKeeps(env, Apply(env, s, txs[0].now, txs[0].msg), txs[1..], p, start);
    }
  }
}
