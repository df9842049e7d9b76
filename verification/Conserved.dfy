/** Coin is conserved by every message, and so over every run. */
module Conserved {
  import opened Outcomes
  import opened Integers
  import opened Sums
  import opened Types
  import opened Ledger
  import opened Escrows
  import opened Jury
  import opened Bonds
  import opened Gates
  import opened Machine
  import opened Conservation

  lemma BooksBound(s: State)
    requires Books(s)
    ensures Supply(s) < TWO64
  {
  }

  lemma RoomFor(s: State, a: Addr)
    ensures a in s.accounts ==> s.accounts[a].balance <= Supply(s)
  {
    if a in s.accounts { SumCovers(s.accounts, a, BalanceOf); }
  }

  lemma EscrowOf(s: State, id: nat)
    requires Keyed(s) && Parties(s) && id in s.escrows
    ensures s.escrows[id].id == id && EscrowKnown(s.accounts, s.escrows[id])
  {
  }

  lemma DisputeOf(s: State, id: nat)
    requires Keyed(s) && Parties(s) && id in s.disputes
    ensures s.disputes[id].id == id && DisputeKnown(s.accounts, s.disputes[id])
  {
  }

  // ---- Escrows ------------------------------------------------------------

  lemma LockEscrowBalanced(s: State, now: UnixTime, m: LockRequest)
    requires Books(s)
    ensures var r := LockEscrow(s, now, m);
            r.Ok? ==> Balanced(s, r.value, 0)
  {
    hide Keyed, Parties, Supply;
    var r := LockEscrow(s, now, m);
    if r.Ok? {
      var s1 := EnsureRegistered(s, m.payee, m.amount).value;
      AccountWrite(s, m.payee, s1.accounts[m.payee]);
      DebitExact(s1, m.payer, m.amount);
      var s2 := Debit(s1, m.payer, m.amount).value;
      assert Known(s.accounts, m.payer) && Known(s1.accounts, m.payee);
      EscrowWrite(s2, r.value.escrows[s.escrowSeq], s.escrowSeq + 1);
    }
  }

  lemma SubmitEscrowBalanced(s: State, now: UnixTime, c: Addr, id: nat, dh: string, kh: string, uri: string)
    requires Books(s)
    ensures var r := SubmitEscrow(s, now, c, id, dh, kh, uri);
            r.Ok? ==> Balanced(s, r.value, 0)
  {
    var r := SubmitEscrow(s, now, c, id, dh, kh, uri);
    if r.Ok? { PutEscrowBalanced(s, r.value.escrows[id]); }
  }

  lemma DisputeEscrowBalanced(s: State, c: Addr, id: nat)
    requires Books(s)
    ensures var r := DisputeEscrow(s, c, id);
            r.Ok? ==> Balanced(s, r.value, 0)
  {
    var r := DisputeEscrow(s, c, id);
    if r.Ok? { PutEscrowBalanced(s, r.value.escrows[id]); }
  }

  lemma ReleaseEscrowBalanced(s: State, now: UnixTime, c: Addr, id: nat)
    requires Books(s)
    ensures var r := ReleaseEscrow(s, now, c, id);
            r.Ok? ==> Balanced(s, r.value, 0)
  {
    var r := ReleaseEscrow(s, now, c, id);
    if r.Ok? { PayOutBalanced(s, s.escrows[id], s.escrows[id].payee, r.value.escrows[id]); }
  }

  lemma RefundEscrowBalanced(s: State, now: UnixTime, c: Addr, id: nat)
    requires Books(s)
    ensures var r := RefundEscrow(s, now, c, id);
            r.Ok? ==> Balanced(s, r.value, 0)
  {
    var r := RefundEscrow(s, now, c, id);
    if r.Ok? { PayOutBalanced(s, s.escrows[id], s.escrows[id].payer, r.value.escrows[id]); }
  }

  lemma VerifiedReleaseBalanced(env: Env, s: State, now: UnixTime, c: Addr, id: nat, key: string)
    requires Books(s)
    ensures var r := VerifiedRelease(env, s, now, c, id, key);
            r.Ok? ==> Balanced(s, r.value, 0)
  {
    var r := VerifiedRelease(env, s, now, c, id, key);
    if r.Ok? { PayOutBalanced(s, s.escrows[id], s.escrows[id].payee, r.value.escrows[id]); }
  }

  lemma AttestEscrowBalanced(s: State, now: UnixTime, c: Addr, id: nat, passed: bool, stake: U64,
                             dh: string, kh: string, ah: string)
    requires Books(s)
    ensures var r := AttestEscrow(s, now, c, id, passed, stake, dh, kh, ah);
            r.Ok? ==> Balanced(s, r.value, 0)
  {
    hide Keyed, Parties, Supply;
    var r := AttestEscrow(s, now, c, id, passed, stake, dh, kh, ah);
    if r.Ok? {
      var e := s.escrows[id];
      LockBondBalanced(s, c, stake, AttestationPurpose(e.id), "", Text.FormatUint(e.id));
      var s1 := LockBond(s, c, stake, AttestationPurpose(e.id), "", Text.FormatUint(e.id)).value;
      EscrowOf(s1, id);
      PutEscrowBalanced(s1, r.value.escrows[id]);
    }
  }

  lemma {:induction false} ReclaimFromBalanced(s: State, e: Escrow, i: nat)
    requires Books(s) && i <= |e.attestations|
    ensures var r := ReclaimFrom(s, e, i);
            r.Ok? && Balanced(s, r.value, 0)
    decreases |e.attestations| - i
  {
    if i < |e.attestations| {
      var bondId := e.attestations[i].bondId;
      if IsActive(s, bondId) && s.bonds[bondId].purpose == AttestationPurpose(e.id) {
        SettleBondBalanced(s, bondId, s.bonds[bondId].poster, Freed);
        var t := SettleBond(s, bondId, s.bonds[bondId].poster, Freed).value;
        ReclaimFromBalanced(t, e, i + 1);
        BalancedTrans(s, t, ReclaimFrom(t, e, i + 1).value, 0, 0);
      } else {
        ReclaimFromBalanced(s, e, i + 1);
      }
    }
  }

  lemma ReclaimBalanced(s: State, now: UnixTime, c: Addr, id: nat)
    requires Books(s)
    ensures var r := ReclaimAttestationBonds(s, now, c, id);
            r.Ok? ==> Balanced(s, r.value, 0)
  {
    hide Keyed, Parties, Supply;
    if id in s.escrows { ReclaimFromBalanced(s, s.escrows[id], 0); }
  }

  // ---- Jury ---------------------------------------------------------------

  lemma OpenDisputeBalanced(s: State, now: UnixTime, c: Addr, id: nat, reason: string, bond: U64)
    requires Books(s)
    ensures var r := OpenDispute(s, now, c, id, reason, bond);
            r.Ok? ==> Balanced(s, r.value, 0)
  {
    hide Keyed, Parties, Supply;
    var r := OpenDispute(s, now, c, id, reason, bond);
    if r.Ok? {
      var e := s.escrows[id];
      LockBondBalanced(s, c, bond, DisputePurpose(s.disputeSeq), "", Text.FormatUint(id));
      var s1 := LockBond(s, c, bond, DisputePurpose(s.disputeSeq), "", Text.FormatUint(id)).value;
      var d := Dispute(s.disputeSeq, id, c, reason, Open, Pending, [], s.bondSeq);
      DisputeWrite(s1, d, s.disputeSeq + 1);
      var s2 := s1.(disputes := s1.disputes[d.id := d], disputeSeq := s.disputeSeq + 1);
      EscrowOf(s2, id);
      PutEscrowBalanced(s2, r.value.escrows[id]);
    }
  }

  lemma CastVoteBalanced(env: Env, s: State, c: Addr, id: nat, accept: bool, stake: U64)
    requires Books(s)
    ensures var r := CastVote(env, s, c, id, accept, stake);
            r.Ok? ==> Balanced(s, r.value, 0)
  {
    hide Keyed, Parties, Supply;
    var r := CastVote(env, s, c, id, accept, stake);
    if r.Ok? {
      DisputeOf(s, id);
      LockBondBalanced(s, c, stake, JurorPurpose(id), "", Text.FormatUint(id));
      var s1 := LockBond(s, c, stake, JurorPurpose(id), "", Text.FormatUint(id)).value;
      DisputeOf(s1, id);
      PutDisputeBalanced(s1, r.value.disputes[id]);
    }
  }

  /** Every stake's owner and the winner can be paid. */
  predicate StakesKnown(accounts: map<Addr, Account>, stakes: seq<Stake>, winner: Addr) {
    Known(accounts, winner) && forall i | 0 <= i < |stakes| :: Known(accounts, stakes[i].owner)
  }

  lemma SettleBondGrows(s: State, id: nat, recipient: Addr, status: BondStatus)
    requires id in s.bonds
    ensures var r := SettleBond(s, id, recipient, status);
            r.Ok? ==> KnownGrows(s.accounts, r.value.accounts)
  {
  }

  lemma SettleStakeBalanced(s: State, k: Stake, purpose: string, accept: bool, winner: Addr)
    requires Books(s) && Known(s.accounts, winner) && Known(s.accounts, k.owner)
    ensures var r := SettleStake(s, k, purpose, accept, winner);
            r.Ok? && Balanced(s, r.value, 0) && KnownGrows(s.accounts, r.value.accounts)
            && r.value == s.(accounts := r.value.accounts, bonds := r.value.bonds)
  {
    hide Keyed, Parties, Supply;
    if IsActive(s, k.bondId) && s.bonds[k.bondId].purpose == purpose {
      var to := if k.verdict == accept then k.owner else winner;
      var status := if k.verdict == accept then Freed else Slashed;
      SettleBondBalanced(s, k.bondId, to, status);
      SettleBondGrows(s, k.bondId, to, status);
    }
  }

  lemma BalancedRefl(s: State)
    requires Books(s)
    ensures Balanced(s, s, 0)
  {
  }

  lemma {:induction false} SettleStakesBalanced(s: State, stakes: seq<Stake>, purpose: string, accept: bool, winner: Addr)
    requires Books(s) && StakesKnown(s.accounts, stakes, winner)
    ensures var r := SettleStakes(s, stakes, purpose, accept, winner);
            r.Ok? && Balanced(s, r.value, 0) && KnownGrows(s.accounts, r.value.accounts)
            && r.value == s.(accounts := r.value.accounts, bonds := r.value.bonds)
    decreases |stakes|
  {
    hide Keyed, Parties, Supply, SettleStake;
    if stakes == [] {
      BalancedRefl(s);
    } else {
      SettleStakeBalanced(s, stakes[0], purpose, accept, winner);
      var t := SettleStake(s, stakes[0], purpose, accept, winner).value;
      SettleStakesBalanced(t, stakes[1..], purpose, accept, winner);
    }
  }

  lemma SettleEscrowBalanced(s: State, now: UnixTime, e: Escrow, accept: bool)
    requires Books(s) && e.id in s.escrows && e == s.escrows[e.id] && e.status in {InJury, Challenged}
    ensures var r := SettleEscrow(s, now, e, accept);
            && r.Ok? && Balanced(s, r.value, 0) && KnownGrows(s.accounts, r.value.accounts)
            && r.value == s.(accounts := r.value.accounts, escrows := r.value.escrows)
            && r.value.escrows.Keys == s.escrows.Keys
            && EscrowKnown(r.value.accounts, e)
  {
    hide Keyed, Parties, Supply;
    var r := SettleEscrow(s, now, e, accept);
    EscrowOf(s, e.id);
    if e.status == Challenged {
      PutEscrowBalanced(s, r.value.escrows[e.id]);
    } else {
      PayOutBalanced(s, e, Winner(e, accept), r.value.escrows[e.id]);
    }
  }

  lemma RecipientKnown(accounts: map<Addr, Account>, e: Escrow, d: Dispute, accept: bool)
    requires EscrowKnown(accounts, e) && DisputeKnown(accounts, d)
    ensures Known(accounts, DisputeBondRecipient(e, d, accept))
  {
    FirstPassKnown(accounts, e, 0, e.payee);
    FirstPassKnown(accounts, e, 0, e.payer);
  }

  lemma {:induction false} FirstPassKnown(accounts: map<Addr, Account>, e: Escrow, i: nat, other: Addr)
    requires i <= |e.attestations| && EscrowKnown(accounts, e) && Known(accounts, other)
    ensures Known(accounts, FirstPassFrom(e.attestations, i, other))
    decreases |e.attestations| - i
  {
    if i < |e.attestations| && !e.attestations[i].passed {
      FirstPassKnown(accounts, e, i + 1, other);
    }
  }

  lemma SettleDisputeBondBalanced(s: State, e: Escrow, d: Dispute, accept: bool)
    requires Books(s) && EscrowKnown(s.accounts, e) && DisputeKnown(s.accounts, d)
    ensures var r := SettleDisputeBond(s, e, d, accept);
            && r.Ok? && Balanced(s, r.value, 0) && KnownGrows(s.accounts, r.value.accounts)
            && r.value == s.(accounts := r.value.accounts, bonds := r.value.bonds)
  {
    hide Keyed, Parties, Supply;
    if IsActive(s, d.bondId) && s.bonds[d.bondId].purpose == DisputePurpose(d.id) {
      RecipientKnown(s.accounts, e, d, accept);
      var to, status := DisputeBondRecipient(e, d, accept), if OpenerUpheld(e, d, accept) then Freed else Slashed;
      SettleBondBalanced(s, d.bondId, to, status);
      SettleBondGrows(s, d.bondId, to, status);
    }
  }

  /** Settling a verdict always succeeds and moves coin between its parties only. */
  lemma SettleVerdictBalanced(s: State, now: UnixTime, d: Dispute, e: Escrow, accept: bool)
    requires Books(s) && d.id in s.disputes && d == s.disputes[d.id]
    requires e.id in s.escrows && e == s.escrows[e.id] && e.status in {InJury, Challenged}
    ensures var r := SettleVerdict(s, now, d, e, accept);
            r.Ok? && Balanced(s, r.value, 0)
  {
    hide Keyed, Parties, Supply;
    DisputeOf(s, d.id);
    SettleEscrowBalanced(s, now, e, accept);
    var s1 := SettleEscrow(s, now, e, accept).value;
    assert DisputeKnown(s1.accounts, d);
    SettleDisputeBondBalanced(s1, e, d, accept);
    var s2 := SettleDisputeBond(s1, e, d, accept).value;
    SettleStakesBalanced(s2, VoteStakes(d.votes), JurorPurpose(d.id), accept, Winner(e, accept));
    var s3 := SettleStakes(s2, VoteStakes(d.votes), JurorPurpose(d.id), accept, Winner(e, accept)).value;
    SettleStakesBalanced(s3, AttestationStakes(e.attestations), AttestationPurpose(e.id), accept, Winner(e, accept));
    var s4 := SettleStakes(s3, AttestationStakes(e.attestations), AttestationPurpose(e.id), accept, Winner(e, accept)).value;
    assert DisputeKnown(s4.accounts, d.(status := Resolved, resolution := if accept then Accept else Reject));
    PutDisputeBalanced(s4, d.(status := Resolved, resolution := if accept then Accept else Reject));
  }

  lemma ResolveDisputeBalanced(env: Env, s: State, now: UnixTime, c: Addr, id: nat)
    requires Books(s)
    ensures var r := ResolveDispute(env, s, now, c, id);
            r.Ok? ==> Balanced(s, r.value, 0)
  {
    var r := ResolveDispute(env, s, now, c, id);
    if r.Ok? {
      var d := s.disputes[id];
      SettleVerdictBalanced(s, now, d, s.escrows[d.escrowId], Verdict(env, d).value);
    }
  }

  // ---- Accounts, bonds and vouches ---------------------------------------

  lemma RegisterBalanced(s: State, c: Addr)
    requires Books(s)
    ensures var r := Register(s, c);
            r.Ok? ==> Balanced(s, r.value, 0)
  {
    AccountWrite(s, c, FreshAccount(c));
  }

  lemma TransferBalanced(s: State, c: Addr, to: Addr, amount: U64)
    requires Books(s)
    ensures var r := Transfer(s, c, to, amount);
            r.Ok? ==> Balanced(s, r.value, 0)
  {
    hide Keyed, Parties, Supply;
    var r := Transfer(s, c, to, amount);
    if r.Ok? {
      DebitExact(s, c, amount);
      var t := Debit(s, c, amount).value;
      RoomFor(t, to);
      BooksBound(s);
      CreditExact(t, to, amount);
    }
  }

  lemma PostBondBalanced(s: State, c: Addr, amount: U64, purpose: string, slasher: Addr, ref: string)
    requires Books(s)
    ensures var r := PostBond(s, c, amount, purpose, slasher, ref);
            r.Ok? ==> Balanced(s, r.value, 0)
  {
    LockBondBalanced(s, c, amount, purpose, slasher, ref);
  }

  lemma ReleaseBondBalanced(s: State, c: Addr, id: nat)
    requires Books(s)
    ensures var r := ReleaseBond(s, c, id);
            r.Ok? ==> Balanced(s, r.value, 0)
  {
    var r := ReleaseBond(s, c, id);
    if r.Ok? { SettleBondBalanced(s, id, s.bonds[id].poster, Freed); }
  }

  /** What a message burns: the collateral of a bond slashed to nobody. */
  function BurnedBy(s: State, m: Msg): nat {
    if m.ToBonds? && m.bond.MsgSlashBond? && m.bond.beneficiary == "" && m.bond.id in s.bonds
    then Collateral(s.bonds[m.bond.id]) else 0
  }

  lemma SlashBondBalanced(s: State, c: Addr, id: nat, beneficiary: Addr)
    requires Books(s)
    ensures var r := SlashBond(s, c, id, beneficiary);
            r.Ok? ==> Balanced(s, r.value, BurnedBy(s, ToBonds(MsgSlashBond(c, id, beneficiary))))
  {
    var r := SlashBond(s, c, id, beneficiary);
    if r.Ok? {
      var t := s;
      if beneficiary != "" {
        BalanceAndBond(s, beneficiary, id);
        CreditExact(s, beneficiary, s.bonds[id].amount);
        t := CreditAccount(s, beneficiary, s.bonds[id].amount).value;
      }
      BondWrite(t, s.bonds[id].(status := Slashed), s.bondSeq);
    }
  }

  lemma {:induction false} FindVouchSound(s: State, from: Addr, to: Addr, i: nat)
    ensures var r := FindVouch(s, from, to, i);
            r.Some? ==> r.value in s.vouches && s.vouches[r.value].from == from && s.vouches[r.value].to == to
    decreases s.vouchSeq - i
  {
    if i < s.vouchSeq && !(i in s.vouches && s.vouches[i].from == from && s.vouches[i].to == to) {
      FindVouchSound(s, from, to, i + 1);
    }
  }

  lemma VouchOf(s: State, id: nat)
    requires Keyed(s) && Parties(s)
    ensures id in s.vouches ==> id < s.vouchSeq && Known(s.accounts, s.vouches[id].from)
  {
  }

  lemma CastVouchBalanced(s: State, c: Addr, to: Addr, weight: U64, stake: U64)
    requires Books(s)
    ensures var r := CastVouch(s, c, to, weight, stake);
            r.Ok? ==> Balanced(s, r.value, 0)
  {
    hide Keyed, Parties, Supply;
    var r := CastVouch(s, c, to, weight, stake);
    if r.Ok? {
      FindVouchSound(s, c, to, 0);
      var found := FindVouch(s, c, to, 0);
      if found.Some? { BalanceAndVouch(s, c, found.value); }
      AccountWrite(s, c, r.value.accounts[c]);
      var s1 := s.(accounts := r.value.accounts);
      var id := if found.Some? then found.value else s.vouchSeq;
      VouchOf(s, id);
      VouchWrite(s1, id, r.value.vouches[id], r.value.vouchSeq);
    }
  }

  lemma UnvouchBalanced(s: State, c: Addr, to: Addr)
    requires Books(s)
    ensures var r := Unvouch(s, c, to);
            r.Ok? ==> Balanced(s, r.value, 0)
  {
    hide Keyed, Parties, Supply;
    var r := Unvouch(s, c, to);
    if r.Ok? {
      FindVouchSound(s, c, to, 0);
      var id := FindVouch(s, c, to, 0).value;
      BalanceAndVouch(s, c, id);
      VouchOf(s, id);
      assert Known(s.accounts, c);
      BooksBound(s);
      CreditExistingExact(s, c, s.vouches[id].stake);
      VouchRemoval(CreditExisting(s, c, s.vouches[id].stake).value, id);
    }
  }

  // ---- Minting ------------------------------------------------------------

  /** Coherent answers from the `i`-th on: the drips a settlement mints. */
  function CoherentFrom(g: Gate, winning: string, i: nat): nat
    requires i <= |g.answers|
    decreases |g.answers| - i
  {
    if i == |g.answers| then 0
    else (if Coherent(g.answers[i], winning) then 1 else 0) + CoherentFrom(g, winning, i + 1)
  }

  lemma {:induction false} PayFromBalanced(s: State, now: UnixTime, g: Gate, winning: string, i: nat)
    requires Books(s) && i <= |g.answers|
    ensures var r := PayFrom(s, now, g, winning, i);
            r.Ok? ==> Balanced(s, r.value, 0) && Mined(r.value) == Mined(s) + g.drip * CoherentFrom(g, winning, i)
                      && r.value == s.(accounts := r.value.accounts, emission := r.value.emission)
    decreases |g.answers| - i
  {
    hide Keyed, Parties, Supply;
    if i < |g.answers| {
      if Coherent(g.answers[i], winning) {
        MintBalanced(s, now, g.answers[i].agent, g.drip);
        var m := MintReward(s, now, g.answers[i].agent, g.drip);
        if m.Ok? {
          PayFromBalanced(m.value, now, g, winning, i + 1);
          assert g.drip * (1 + CoherentFrom(g, winning, i + 1)) == g.drip + g.drip * CoherentFrom(g, winning, i + 1);
        }
      } else {
        PayFromBalanced(s, now, g, winning, i + 1);
      }
    }
  }

  lemma PutGateBalanced(s: State, g: Gate, next: nat)
    requires Books(s) && g.id < next && s.gateSeq <= next
    ensures Balanced(s, PutGate(s, g).(gateSeq := next), 0)
  {
    hide Sum, Known, EscrowKnown, DisputeKnown;
  }

  lemma PostGateBalanced(env: Env, s: State, now: UnixTime, c: Addr, uri: string, hash: string, gold: string, drip: U64, max: U64)
    requires Books(s)
    ensures var r := PostGate(env, s, now, c, uri, hash, gold, drip, max);
            r.Ok? ==> Balanced(s, r.value, 0)
  {
    hide Books, Balanced;
    var r := PostGate(env, s, now, c, uri, hash, gold, drip, max);
    if r.Ok? { PutGateBalanced(s, r.value.gates[s.gateSeq], s.gateSeq + 1); }
  }

  lemma AnswerBalanced(env: Env, s: State, now: UnixTime, c: Addr, id: nat, text: string, salt: string)
    requires Books(s)
    ensures var r := CommitAnswer(s, now, c, id, text);
            r.Ok? ==> Balanced(s, r.value, 0)
    ensures var r := RevealAnswer(env, s, now, c, id, text, salt);
            r.Ok? ==> Balanced(s, r.value, 0)
  {
    var r, q := CommitAnswer(s, now, c, id, text), RevealAnswer(env, s, now, c, id, text, salt);
    if r.Ok? { PutGateBalanced(s, r.value.gates[id], s.gateSeq); }
    if q.Ok? { PutGateBalanced(s, q.value.gates[id], s.gateSeq); }
  }

  lemma SettleGateBalanced(env: Env, s: State, now: UnixTime, c: Addr, id: nat, gold: string, salt: string)
    requires Books(s)
    ensures var r := SettleGate(env, s, now, c, id, gold, salt);
            r.Ok? ==> Balanced(s, r.value, 0)
  {
    var r := SettleGate(env, s, now, c, id, gold, salt);
    if r.Ok? {
      var g := s.gates[id];
      PayFromBalanced(s, now, g, Winning(g.answers, gold), 0);
      var t := PayFrom(s, now, g, Winning(g.answers, gold), 0).value;
      PutGateBalanced(t, r.value.gates[id], t.gateSeq);
    }
  }

  lemma AwardContributionRecords(s: State, c: Addr, k: Contribution)
    requires Books(s)
    ensures Balanced(s, s.(awards := s.awards[s.awardSeq := Award(s.awardSeq, c, k)], awardSeq := s.awardSeq + 1), 0)
  {
  }

  lemma AwardContributionBalanced(env: Env, s: State, now: UnixTime, c: Addr, k: Contribution)
    requires Books(s)
    ensures var r := AwardContribution(env, s, now, c, k);
            r.Ok? ==> Balanced(s, r.value, 0)
  {
    hide Keyed, Parties, Supply;
    AwardContributionRecords(s, c, k);
    var s1 := s.(awards := s.awards[s.awardSeq := Award(s.awardSeq, c, k)], awardSeq := s.awardSeq + 1);
    MintBalanced(s1, now, k.recipient, k.amount);
  }

  // ---- Steps and runs -----------------------------------------------------

  lemma EscrowsBalanced(env: Env, s: State, now: UnixTime, m: EscrowMsg)
    requires Books(s)
    ensures var r := HandleEscrow(env, s, now, m);
            r.Ok? ==> Balanced(s, r.value, 0)
  {
    hide Books, Balanced, LockEscrow, SubmitEscrow, DisputeEscrow, ReleaseEscrow,
         RefundEscrow, AttestEscrow, VerifiedRelease, ReclaimAttestationBonds;
    match m
    case MsgLockEscrow(q) => LockEscrowBalanced(s, now, q);
    case MsgSubmitEscrow(c, id, dh, kh, uri) => SubmitEscrowBalanced(s, now, c, id, dh, kh, uri);
    case MsgDisputeEscrow(c, id) => DisputeEscrowBalanced(s, c, id);
    case MsgReleaseEscrow(c, id) => ReleaseEscrowBalanced(s, now, c, id);
    case MsgRefundEscrow(c, id) => RefundEscrowBalanced(s, now, c, id);
    case MsgAttestEscrow(c, id, passed, stake, dh, kh, ah) => AttestEscrowBalanced(s, now, c, id, passed, stake, dh, kh, ah);
    case MsgVerifiedRelease(c, id, key) => VerifiedReleaseBalanced(env, s, now, c, id, key);
    case MsgReclaimAttestationBonds(c, id) => ReclaimBalanced(s, now, c, id);
  }

  lemma JuryBalanced(env: Env, s: State, now: UnixTime, m: JuryMsg)
    requires Books(s)
    ensures var r := HandleJury(env, s, now, m);
            r.Ok? ==> Balanced(s, r.value, 0)
  {
    hide Books, Balanced, OpenDispute, CastVote, ResolveDispute;
    match m
    case MsgOpenDispute(c, id, reason, bond) => OpenDisputeBalanced(s, now, c, id, reason, bond);
    case MsgCastVote(c, id, accept, stake) => CastVoteBalanced(env, s, c, id, accept, stake);
    case MsgResolveDispute(c, id) => ResolveDisputeBalanced(env, s, now, c, id);
  }

  lemma BondsBalanced(s: State, m: BondMsg)
    requires Books(s)
    ensures var r := HandleBond(s, m);
            r.Ok? ==> Balanced(s, r.value, BurnedBy(s, ToBonds(m)))
  {
    hide Books, Balanced, Collateral, Register, Transfer, CastVouch, Unvouch, PostBond, ReleaseBond, SlashBond;
    match m
    case MsgRegister(c) => RegisterBalanced(s, c);
    case MsgTransfer(c, to, amount) => TransferBalanced(s, c, to, amount);
    case MsgCastVouch(c, to, weight, stake) => CastVouchBalanced(s, c, to, weight, stake);
    case MsgUnvouch(c, to) => UnvouchBalanced(s, c, to);
    case MsgPostBond(c, amount, purpose, slasher, ref) => PostBondBalanced(s, c, amount, purpose, slasher, ref);
    case MsgReleaseBond(c, id) => ReleaseBondBalanced(s, c, id);
    case MsgSlashBond(c, id, beneficiary) => SlashBondBalanced(s, c, id, beneficiary);
  }

  lemma GatesBalanced(env: Env, s: State, now: UnixTime, m: GateMsg)
    requires Books(s)
    ensures var r := HandleGate(env, s, now, m);
            r.Ok? ==> Balanced(s, r.value, 0)
  {
    hide Books, Balanced, PostGate, CommitAnswer, RevealAnswer, SettleGate, AwardContribution;
    match m
    case MsgPostGate(c, uri, hash, gold, drip, max) => PostGateBalanced(env, s, now, c, uri, hash, gold, drip, max);
    case MsgCommitAnswer(c, id, commit) => AnswerBalanced(env, s, now, c, id, commit, "");
    case MsgRevealAnswer(c, id, answer, salt) => AnswerBalanced(env, s, now, c, id, answer, salt);
    case MsgSettleGate(c, id, gold, salt) => SettleGateBalanced(env, s, now, c, id, gold, salt);
    case MsgAwardContribution(c, k) => AwardContributionBalanced(env, s, now, c, k);
  }

  /** Every message conserves coin, up to what it mints within the cap and what it burns. */
  lemma StepBalanced(env: Env, s: State, now: UnixTime, m: Msg)
    requires Books(s)
    ensures var r := Step(env, s, now, m);
            r.Ok? ==> Balanced(s, r.value, BurnedBy(s, m))
  {
    hide Books, Balanced, HandleEscrow, HandleJury, HandleBond, HandleGate;
    match m
    case ToEscrows(e) => EscrowsBalanced(env, s, now, e);
    case ToJury(j) => JuryBalanced(env, s, now, j);
    case ToBonds(b) => BondsBalanced(s, b);
    case ToGates(g) => GatesBalanced(env, s, now, g);
  }

  /** Coin burned over a run. */
  function Burned(env: Env, s: State, txs: seq<Tx>): nat
    decreases |txs|
  {
    if txs == [] then 0
    else
      var r := Step(env, s, txs[0].now, txs[0].msg);
      (if r.Ok? then BurnedBy(s, txs[0].msg) else 0)
      + Burned(env, Apply(env, s, txs[0].now, txs[0].msg), txs[1..])
  }

  /** Over any run, whatever messages it is made of, the coin in the keeper is what it started with,
      plus what was mined, minus what was burned; mining stays within the cap, and no addition wraps. */
  lemma {:induction false} RunConserves(env: Env, s: State, txs: seq<Tx>)
    requires Books(s)
    ensures Balanced(s, Run(env, s, txs), Burned(env, s, txs))
    decreases |txs|
  {
    if txs != [] {
      var t := Apply(env, s, txs[0].now, txs[0].msg);
      StepBalanced(env, s, txs[0].now, txs[0].msg);
      RunConserves(env, t, txs[1..]);
    }
  }
}
