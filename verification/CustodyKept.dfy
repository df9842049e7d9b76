/** Every message keeps the invariant of custody. */
module CustodyKept {
  import opened Outcomes
  import opened Integers
  import opened Text
  import opened Types
  import opened Ledger
  import opened Escrows
  import opened Jury
  import opened Bonds
  import opened Gates
  import opened Machine
  import opened Conservation
  import opened Conserved
  import opened Custody

  // ---- What each kind of step does to the bonds ---------------------------

  lemma LockBondTouches(s: State, poster: Addr, amount: U64, purpose: string, slasher: Addr, ref: string)
    requires Keyed(s)
    ensures var r := LockBond(s, poster, amount, purpose, slasher, ref);
            r.Ok? ==>
              && TouchesOnly(s.bonds, r.value.bonds, {})
              && r.value == s.(accounts := r.value.accounts, bonds := r.value.bonds, bondSeq := r.value.bondSeq)
              && s.bondSeq in r.value.bonds
              && r.value.bonds[s.bondSeq] == Bond(s.bondSeq, poster, amount, purpose, slasher, Active, ref)
  {
  }

  lemma SettleBondTouches(s: State, id: nat, recipient: Addr, status: BondStatus, p: set<string>)
    requires Keyed(s) && IsActive(s, id) && status != Active
    requires s.bonds[id].slasher != "" || s.bonds[id].purpose in p
    ensures var r := SettleBond(s, id, recipient, status);
            r.Ok? ==> TouchesOnly(s.bonds, r.value.bonds, p)
                      && r.value == s.(accounts := r.value.accounts, bonds := r.value.bonds)
                      && r.value.bonds[id].status == status && KeyedBonds(r.value)
  {
  }

  predicate KeyedBonds(s: State) {
    forall id | id in s.bonds :: s.bonds[id].id == id && id < s.bondSeq
  }

  // ---- Steps that leave escrows and disputes alone ------------------------

  lemma RecordsUntouched(env: Env, s: State, t: State, clock: int)
    requires Keyed(s) && InCustody(env, s, clock)
    requires t.escrows == s.escrows && t.disputes == s.disputes && TouchesOnly(s.bonds, t.bonds, {})
    ensures InCustody(env, t, clock)
  {
    FreshIds(s);
    OthersKept(env, s, t, clock, s.escrowSeq, s.disputeSeq, {});
    SameCases(s, t);
  }

  lemma FreshIds(s: State)
    requires Keyed(s)
    ensures s.escrowSeq !in s.escrows && s.disputeSeq !in s.disputes
  {
  }

  lemma SameCases(s: State, t: State)
    requires JuryExclusive(s) && t.disputes == s.disputes && t.escrows == s.escrows
    ensures JuryExclusive(t)
  {
    forall id | id in t.escrows && t.escrows[id].status in {InJury, Challenged}
      ensures exists k :: OpenOn(t, k, id)
    {
      var k :| OpenOn(s, k, id);
      assert OpenOn(t, k, id);
    }
    assert forall k, id | OpenOn(t, k, id) :: OpenOn(s, k, id);
  }

  /** Registration, transfers and vouches touch no escrow, case or bond. */
  lemma TransferFrame(s: State, c: Addr, to: Addr, amount: U64)
    ensures var r := Bonds.Transfer(s, c, to, amount);
            r.Ok? ==> r.value == s.(accounts := r.value.accounts)
  {
  }

  lemma VouchFrame(s: State, c: Addr, to: Addr, weight: U64, stake: U64)
    ensures var r := CastVouch(s, c, to, weight, stake);
            r.Ok? ==> r.value.escrows == s.escrows && r.value.disputes == s.disputes && r.value.bonds == s.bonds
  {
    hide FindVouch, Add64;
    var r, found := CastVouch(s, c, to, weight, stake), FindVouch(s, c, to, 0);
    if r.Ok? {
      if found.Some? {
        assert r.value.vouchSeq == s.vouchSeq;
      } else {
        assert r.value.vouchSeq == s.vouchSeq + 1;
      }
    }
  }

  lemma UnvouchFrame(s: State, c: Addr, to: Addr)
    ensures var r := Unvouch(s, c, to);
            r.Ok? ==> r.value.escrows == s.escrows && r.value.disputes == s.disputes && r.value.bonds == s.bonds
  {
    hide FindVouch, Add64;
  }

  lemma MoneyFrame(s: State, m: BondMsg)
    requires !(m.MsgPostBond? || m.MsgReleaseBond? || m.MsgSlashBond?)
    ensures var r := HandleBond(s, m);
            r.Ok? ==> r.value.escrows == s.escrows && r.value.disputes == s.disputes && r.value.bonds == s.bonds
  {
    hide CastVouch, Unvouch, PostBond, ReleaseBond, SlashBond, Transfer;
    if m.MsgTransfer? { TransferFrame(s, m.creator, m.to, m.amount); }
    if m.MsgCastVouch? { VouchFrame(s, m.creator, m.to, m.weight, m.stake); }
    if m.MsgUnvouch? { UnvouchFrame(s, m.creator, m.to); }
  }

  /** Bonds with a slasher are settled by their slasher, and no others. */
  lemma CollateralFrame(s: State, m: BondMsg)
    requires Keyed(s) && (m.MsgPostBond? || m.MsgReleaseBond? || m.MsgSlashBond?)
    ensures var r := HandleBond(s, m);
            r.Ok? ==> r.value.escrows == s.escrows && r.value.disputes == s.disputes
                      && TouchesOnly(s.bonds, r.value.bonds, {})
  {
    hide Keyed, LockBond, SettleBond, Transfer, CastVouch, Unvouch;
    var r := HandleBond(s, m);
    if r.Ok? {
      match m {
        case MsgPostBond(c, amount, purpose, slasher, ref) => LockBondTouches(s, c, amount, purpose, slasher, ref);
        case MsgReleaseBond(c, id) => SettleBondTouches(s, id, s.bonds[id].poster, Freed, {});
        case MsgSlashBond(c, id, beneficiary) => SlashBondTouches(s, c, id, beneficiary);
        case _ =>
      }
    }
  }

  lemma SlashBondTouches(s: State, c: Addr, id: nat, beneficiary: Addr)
    requires Keyed(s)
    ensures var r := SlashBond(s, c, id, beneficiary);
            r.Ok? ==> r.value.escrows == s.escrows && r.value.disputes == s.disputes
                      && TouchesOnly(s.bonds, r.value.bonds, {})
  {
    hide CreditAccount;
    if id in s.bonds { CreditTouchesNothing(s, beneficiary, s.bonds[id].amount); }
  }

  lemma CreditTouchesNothing(s: State, to: Addr, amount: U64)
    ensures var r := CreditAccount(s, to, amount);
            r.Ok? ==> r.value == s.(accounts := r.value.accounts)
  {
    hide Add64;
  }

  lemma BondsKeepCustody(env: Env, s: State, clock: int, m: BondMsg)
    requires Keyed(s) && InCustody(env, s, clock)
    ensures var r := HandleBond(s, m);
            r.Ok? ==> InCustody(env, r.value, clock)
  {
    hide InCustody, HandleBond, Keyed;
    var r := HandleBond(s, m);
    if r.Ok? {
      if m.MsgPostBond? || m.MsgReleaseBond? || m.MsgSlashBond? { CollateralFrame(s, m); } else { MoneyFrame(s, m); }
      RecordsUntouched(env, s, r.value, clock);
    }
  }

  lemma MintTouchesNothing(s: State, now: UnixTime, to: Addr, amount: U64)
    ensures var r := MintReward(s, now, to, amount);
            r.Ok? ==> r.value == s.(accounts := r.value.accounts, emission := r.value.emission)
  {
  }

  lemma {:induction false} PayFromTouchesNothing(s: State, now: UnixTime, g: Gate, winning: string, i: nat)
    requires i <= |g.answers|
    ensures var r := PayFrom(s, now, g, winning, i);
            r.Ok? ==> r.value == s.(accounts := r.value.accounts, emission := r.value.emission)
    decreases |g.answers| - i
  {
    if i < |g.answers| {
      hide MintReward;
      var r := MintReward(s, now, g.answers[i].agent, g.drip);
      MintTouchesNothing(s, now, g.answers[i].agent, g.drip);
      if Coherent(g.answers[i], winning) && r.Ok? {
        PayFromTouchesNothing(r.value, now, g, winning, i + 1);
      } else {
        PayFromTouchesNothing(s, now, g, winning, i + 1);
      }
    }
  }

  /** Gates and awards touch no escrow, case or bond. */
  lemma GatesFrame(env: Env, s: State, now: UnixTime, m: GateMsg)
    ensures var r := HandleGate(env, s, now, m);
            r.Ok? ==> r.value.escrows == s.escrows && r.value.disputes == s.disputes && r.value.bonds == s.bonds
  {
    hide Winning, MarkPaid, MintReward, Commitment, CheckContribution, Awarded, IsHexSha256, EqualFold, FindAnswer;
    var r := HandleGate(env, s, now, m);
    if r.Ok? && m.MsgAwardContribution? {
      var c := m.contribution;
      var t := s.(awards := s.awards[s.awardSeq := Award(s.awardSeq, m.creator, c)], awardSeq := s.awardSeq + 1);
      MintTouchesNothing(t, now, c.recipient, c.amount);
    }
    if r.Ok? && m.MsgSettleGate? {
      var g := s.gates[m.id];
      PayFromTouchesNothing(s, now, g, Winning(g.answers, m.goldAnswer), 0);
    }
  }

  lemma GatesKeepCustody(env: Env, s: State, now: UnixTime, clock: int, m: GateMsg)
    requires Keyed(s) && InCustody(env, s, clock)
    ensures var r := HandleGate(env, s, now, m);
            r.Ok? ==> InCustody(env, r.value, clock)
  {
    hide InCustody, HandleGate, Keyed;
    GatesFrame(env, s, now, m);
    var r := HandleGate(env, s, now, m);
    if r.Ok? { RecordsUntouched(env, s, r.value, clock); }
  }

  // ---- Steps that move one escrow -----------------------------------------

  lemma NoCaseYet(env: Env, s: State, clock: int, id: nat)
    requires InCustody(env, s, clock)
    requires id in s.escrows ==> s.escrows[id].status in {Locked, Submitted, Disputed, FailAttested}
    ensures forall k | k in s.disputes :: s.disputes[k].escrowId != id
    ensures !Tried(s, id)
  {
    hide EscrowSound, JuryExclusive, DisputeBacked, DisputeStakes;
    forall k | k in s.disputes
      ensures s.disputes[k].escrowId != id
    {
      assert DisputeSound(env, s, k);
    }
  }

  lemma SameBacking(b: map<nat, Bond>, e: Escrow, f: Escrow)
    requires f.attestations == e.attestations && f.id == e.id && f.amount == e.amount
    ensures EscrowBacked(b, f) == EscrowBacked(b, e) && StakesActive(b, f) == StakesActive(b, e)
    ensures StakesSettled(b, f) == StakesSettled(b, e)
    ensures TouchesOnly(b, b, {})
  {
  }

  /** Moving an escrow that no jury has seen. */
  lemma EscrowMoved(env: Env, s: State, t: State, clock: int, e: Escrow)
    requires Keyed(s) && InCustody(env, s, clock)
    requires t.disputes == s.disputes && TouchesOnly(s.bonds, t.bonds, {})
    requires t.escrows == s.escrows[e.id := e]
    requires e.id in s.escrows ==> s.escrows[e.id].status in {Locked, Submitted, Disputed, FailAttested}
    requires e.status !in {InJury, Challenged}
    requires EscrowTerms(e) && EscrowBacked(t.bonds, e)
    requires StakesWait(t, e, clock)
    ensures InCustody(env, t, clock)
  {
    hide Keyed, EscrowTerms, EscrowBacked, DisputeSound, TouchesOnly;
    NoCaseYet(env, s, clock, e.id);
    FreshIds(s);
    OthersKept(env, s, t, clock, e.id, s.disputeSeq, {});
    CasesElsewhere(s, t, e);
  }

  lemma CasesElsewhere(s: State, t: State, e: Escrow)
    requires JuryExclusive(s) && t.disputes == s.disputes && t.escrows == s.escrows[e.id := e]
    requires e.status !in {InJury, Challenged}
    ensures JuryExclusive(t)
  {
    forall id | id in t.escrows && t.escrows[id].status in {InJury, Challenged}
      ensures exists k :: OpenOn(t, k, id)
    {
      var k :| OpenOn(s, k, id);
      assert OpenOn(t, k, id);
    }
    assert forall k, id | OpenOn(t, k, id) :: OpenOn(s, k, id);
  }

  lemma EscrowAt(env: Env, s: State, clock: int, id: nat)
    requires Keyed(s) && InCustody(env, s, clock) && id in s.escrows
    ensures s.escrows[id].id == id && EscrowTerms(s.escrows[id]) && EscrowBacked(s.bonds, s.escrows[id])
    ensures StakesWait(s, s.escrows[id], clock) && StakesSpent(s, s.escrows[id])
    ensures s.escrows[id].status in {Locked, Submitted, Disputed, FailAttested} ==> !Tried(s, id)
    ensures s.escrows[id].status in {Locked, Submitted, Disputed} ==> StakesActive(s.bonds, s.escrows[id])
  {
  }

  lemma LockEscrowKeeps(env: Env, s: State, now: UnixTime, m: LockRequest)
    requires Keyed(s) && InCustody(env, s, now)
    ensures var r := LockEscrow(s, now, m);
            r.Ok? ==> InCustody(env, r.value, now)
  {
    hide InCustody;
    var r := LockEscrow(s, now, m);
    if r.Ok? {
      FreshIds(s);
      EscrowMoved(env, s, r.value, now, r.value.escrows[s.escrowSeq]);
    }
  }

  lemma SubmitEscrowKeeps(env: Env, s: State, now: UnixTime, c: Addr, id: nat, dh: string, kh: string, uri: string)
    requires Keyed(s) && InCustody(env, s, now)
    ensures var r := SubmitEscrow(s, now, c, id, dh, kh, uri);
            r.Ok? ==> InCustody(env, r.value, now)
  {
    hide InCustody, Keyed, EscrowBacked, StakesActive, TouchesOnly, Tried;
    var r := SubmitEscrow(s, now, c, id, dh, kh, uri);
    if r.Ok? {
      EscrowAt(env, s, now, id);
      SameBacking(s.bonds, s.escrows[id], r.value.escrows[id]);
      EscrowMoved(env, s, r.value, now, r.value.escrows[id]);
    }
  }

  lemma DisputeEscrowKeeps(env: Env, s: State, now: UnixTime, c: Addr, id: nat)
    requires Keyed(s) && InCustody(env, s, now)
    ensures var r := DisputeEscrow(s, c, id);
            r.Ok? ==> InCustody(env, r.value, now)
  {
    hide InCustody, Keyed, EscrowBacked, StakesActive, TouchesOnly, Tried;
    var r := DisputeEscrow(s, c, id);
    if r.Ok? {
      EscrowAt(env, s, now, id);
      NobodyAttested(s.escrows[id]);
      SameBacking(s.bonds, s.escrows[id], r.value.escrows[id]);
      EscrowMoved(env, s, r.value, now, r.value.escrows[id]);
    }
  }

  /** An escrow without verifiers has no attestations. */
  lemma NobodyAttested(e: Escrow)
    requires EscrowTerms(e)
    ensures e.attestations == [] || e.verifierAddrs != []
  {
    if e.attestations != [] {
      assert e.attestations[0].verifier in e.verifierAddrs;
    }
  }

  lemma VerifiedReleaseKeeps(env: Env, s: State, now: UnixTime, c: Addr, id: nat, key: string)
    requires Keyed(s) && InCustody(env, s, now)
    ensures var r := VerifiedRelease(env, s, now, c, id, key);
            r.Ok? ==> InCustody(env, r.value, now)
  {
    hide InCustody, Keyed, EscrowBacked, StakesActive, TouchesOnly, Tried;
    var r := VerifiedRelease(env, s, now, c, id, key);
    if r.Ok? {
      EscrowAt(env, s, now, id);
      PassesAtMost(s.escrows[id], 0);
      SameBacking(s.bonds, s.escrows[id], r.value.escrows[id]);
      EscrowMoved(env, s, r.value, now, r.value.escrows[id]);
    }
  }

  lemma {:induction false} PassesAtMost(e: Escrow, i: nat)
    requires i <= |e.attestations|
    ensures PassesFrom(e, i) <= |e.attestations| - i
    decreases |e.attestations| - i
  {
    if i < |e.attestations| { PassesAtMost(e, i + 1); }
  }

  /** Closing an escrow that no jury has seen. */
  lemma ClosedTerms(e: Escrow, f: Escrow)
    requires EscrowTerms(e) && e.status in {Locked, Submitted, Disputed, FailAttested}
    requires f == e.(status := f.status, releasedAt := f.releasedAt) && f.status in {Released, Refunded}
    ensures EscrowTerms(f) && (e.status != FailAttested ==> f.challengeDeadline == 0)
  {
    FailedStays(e);
  }

  lemma EscrowClosed(env: Env, s: State, t: State, now: UnixTime, id: nat)
    requires Keyed(s) && InCustody(env, s, now) && id in s.escrows
    requires s.escrows[id].status in {Locked, Submitted, Disputed, FailAttested}
    requires t.disputes == s.disputes && t.bonds == s.bonds
    requires id in t.escrows && t.escrows == s.escrows[id := t.escrows[id]] && t.escrows[id].status in {Released, Refunded}
    requires t.escrows[id] == s.escrows[id].(status := t.escrows[id].status, releasedAt := t.escrows[id].releasedAt)
    ensures InCustody(env, t, now)
  {
    hide InCustody, Keyed, EscrowBacked, EscrowTerms, StakesActive, StakesSettled, TouchesOnly;
    var e, f := s.escrows[id], t.escrows[id];
    EscrowAt(env, s, now, id);
    ClosedTerms(e, f);
    SameBacking(s.bonds, e, f);
    EscrowMoved(env, s, t, now, f);
  }

  lemma ReleaseEscrowKeeps(env: Env, s: State, now: UnixTime, c: Addr, id: nat)
    requires Keyed(s) && InCustody(env, s, now)
    ensures var r := ReleaseEscrow(s, now, c, id);
            r.Ok? ==> InCustody(env, r.value, now)
  {
    hide InCustody;
    var r := ReleaseEscrow(s, now, c, id);
    if r.Ok? { EscrowClosed(env, s, r.value, now, id); }
  }

  lemma RefundEscrowKeeps(env: Env, s: State, now: UnixTime, c: Addr, id: nat)
    requires Keyed(s) && InCustody(env, s, now)
    ensures var r := RefundEscrow(s, now, c, id);
            r.Ok? ==> InCustody(env, r.value, now)
  {
    hide InCustody;
    var r := RefundEscrow(s, now, c, id);
    if r.Ok? { EscrowClosed(env, s, r.value, now, id); }
  }

  lemma FailedStays(e: Escrow)
    requires EscrowTerms(e)
    ensures e.status == FailAttested ==> !AllPassed(e)
  {
  }

  lemma AttestEscrowKeeps(env: Env, s: State, now: UnixTime, c: Addr, id: nat, passed: bool, stake: U64,
                          dh: string, kh: string, ah: string)
    requires Keyed(s) && InCustody(env, s, now)
    ensures var r := AttestEscrow(s, now, c, id, passed, stake, dh, kh, ah);
            r.Ok? ==> InCustody(env, r.value, now)
  {
    hide InCustody;
    var r := AttestEscrow(s, now, c, id, passed, stake, dh, kh, ah);
    if r.Ok? {
      var e := s.escrows[id];
      EscrowAt(env, s, now, id);
      LockBondTouches(s, c, stake, AttestationPurpose(id), "", FormatUint(id));
      var bonds := r.value.bonds;
      EscrowBackedKept(s.bonds, bonds, {}, e);
      var e' := r.value.escrows[id];
      Attested(bonds, e, e', e'.attestations[|e.attestations|]);
      EscrowMoved(env, s, r.value, now, e');
    }
  }

  /** One more verdict, backed by its own stake. */
  lemma Attested(bonds: map<nat, Bond>, e: Escrow, e': Escrow, a: Attestation)
    requires EscrowTerms(e) && EscrowBacked(bonds, e) && StakesActive(bonds, e) && e.status == Submitted
    requires a.verifier in e.verifierAddrs && !HasAttested(e.attestations, a.verifier) && Pinned(e, a)
    requires Backs(bonds, a.bondId, AttestationPurpose(e.id), a.verifier)
    requires bonds[a.bondId].amount >= e.amount && bonds[a.bondId].status == Active
    requires var g := e.(attestations := e.attestations + [a]);
             e' == if a.passed then g
                   else g.(status := FailAttested, challengeDeadline := a.attestedAt + CHALLENGE_WINDOW_SECONDS)
    ensures EscrowTerms(e') && EscrowBacked(bonds, e') && StakesActive(bonds, e')
  {
    var n := |e.attestations|;
    assert e'.attestations[n] == a;
    assert forall i | 0 <= i < n :: e'.attestations[i] == e.attestations[i];
    if !a.passed { assert !e'.attestations[n].passed; }
  }

  // ---- Reclaiming stakes --------------------------------------------------

  lemma {:induction false} ReclaimTouches(s: State, e: Escrow, i: nat)
    requires Books(s) && i <= |e.attestations|
    ensures var r := ReclaimFrom(s, e, i);
            r.Ok? && TouchesOnly(s.bonds, r.value.bonds, {AttestationPurpose(e.id)})
            && r.value == s.(accounts := r.value.accounts, bonds := r.value.bonds)
    decreases |e.attestations| - i
  {
    if i < |e.attestations| {
      var bondId := e.attestations[i].bondId;
      if IsActive(s, bondId) && s.bonds[bondId].purpose == AttestationPurpose(e.id) {
        SettleBondBalanced(s, bondId, s.bonds[bondId].poster, Freed);
        SettleBondTouches(s, bondId, s.bonds[bondId].poster, Freed, {AttestationPurpose(e.id)});
        var t := SettleBond(s, bondId, s.bonds[bondId].poster, Freed).value;
        ReclaimTouches(t, e, i + 1);
        TouchesTrans(s.bonds, t.bonds, ReclaimFrom(t, e, i + 1).value.bonds,
                     {AttestationPurpose(e.id)}, {AttestationPurpose(e.id)});
      } else {
        ReclaimTouches(s, e, i + 1);
      }
    }
  }

  lemma ReclaimKeeps(env: Env, s: State, now: UnixTime, c: Addr, id: nat)
    requires Books(s) && InCustody(env, s, now)
    ensures var r := ReclaimAttestationBonds(s, now, c, id);
            r.Ok? ==> InCustody(env, r.value, now)
  {
    hide Keyed, Parties, Supply, ReclaimFrom, AttestationPurpose, JurorPurpose, DisputePurpose, EscrowTerms, DisputeTerms,
      InCustody, EscrowBacked, TouchesOnly, JuryExclusive;
    var r := ReclaimAttestationBonds(s, now, c, id);
    if r.Ok? {
      var e, t, p := s.escrows[id], r.value, {AttestationPurpose(id)};
      EscrowAt(env, s, now, id);
      Cases(env, s, now);
      ReclaimTouches(s, e, 0);
      FreshIds(s);
      StakePurposes(s, id);
      OthersKept(env, s, t, now, id, s.disputeSeq, p);
      EscrowBackedKept(s.bonds, t.bonds, p, e);
      SameCases(s, t);
      Conclude(env, t, now, id, s.disputeSeq);
    }
  }

  /** The purpose of an escrow's verifier stakes is that of no other stake. */
  lemma StakePurposes(s: State, id: nat)
    ensures forall i | i in s.escrows && i != id :: AttestationPurpose(i) != AttestationPurpose(id)
    ensures forall k | k in s.disputes ::
              DisputePurpose(k) != AttestationPurpose(id) && JurorPurpose(k) != AttestationPurpose(id)
  {
    forall i | i in s.escrows && i != id
      ensures AttestationPurpose(i) != AttestationPurpose(id)
    {
      PurposesDiffer(i, id);
    }
    forall k | k in s.disputes
      ensures DisputePurpose(k) != AttestationPurpose(id) && JurorPurpose(k) != AttestationPurpose(id)
    {
      PurposesDiffer(k, id);
    }
  }

  // ---- Jury ---------------------------------------------------------------

  lemma TriedKept(s: State, t: State, k: nat)
    requires forall l | l in s.disputes && l != k :: l in t.disputes && t.disputes[l] == s.disputes[l]
    requires forall l | l in t.disputes && l != k :: l in s.disputes
    requires k in s.disputes ==> s.disputes[k].status == Open
    requires k in t.disputes ==> t.disputes[k].status == Open
    ensures forall id :: Tried(s, id) == Tried(t, id)
  {
  }

  lemma OpenDisputeKeeps(env: Env, s: State, now: UnixTime, c: Addr, id: nat, reason: string, bond: U64)
    requires Keyed(s) && InCustody(env, s, now)
    ensures var r := OpenDispute(s, now, c, id, reason, bond);
            r.Ok? ==> InCustody(env, r.value, now)
  {
    hide Keyed, TouchesOnly, InCustody, LockBond, DisputeSound, EscrowTerms, EscrowBacked, StakesWait, Tried, StakesActive, FormatUint, DisputePurpose;
    var r := OpenDispute(s, now, c, id, reason, bond);
    if r.Ok? {
      var e, t, k := s.escrows[id], r.value, s.disputeSeq;
      FreshIds(s);
      EscrowAt(env, s, now, id);
      LockBondTouches(s, c, bond, DisputePurpose(k), "", FormatUint(id));
      CaseOpened(env, s, t, now, id, k);
      BesidesNewCase(env, s, t, now, id, k);
    }
  }

  lemma BesidesNewCase(env: Env, s: State, t: State, clock: int, id: nat, k: nat)
    requires Keyed(s) && InCustody(env, s, clock) && TouchesOnly(s.bonds, t.bonds, {})
    requires id in s.escrows && id in t.escrows && t.escrows == s.escrows[id := t.escrows[id]]
    requires k !in s.disputes && k in t.disputes && t.disputes == s.disputes[k := t.disputes[k]]
    requires s.escrows[id].status in {Submitted, Disputed, FailAttested, Released}
    requires s.escrows[id].status == Released ==> t.escrows[id] == s.escrows[id].(status := Challenged)
    requires OpenOn(t, k, id) && EscrowSound(t, id, clock) && DisputeSound(env, t, k)
    ensures InCustody(env, t, clock)
  {
    hide EscrowSound, DisputeSound, DisputeTerms, TouchesOnly, Keyed, DisputePurpose, JurorPurpose, AttestationPurpose, JuryExclusive;
    Cases(env, s, clock);
    CasesOn(env, s, clock, id);
    OthersKept(env, s, t, clock, id, k, {});
    NotFrozen(env, s, clock, id);
    NewCase(s, t, k, id);
    Conclude(env, t, clock, id, k);
  }

  /** Cases about an escrow outside the jury are decided, and so compatible with it being frozen anew
      after a release. */
  lemma CasesOn(env: Env, s: State, clock: int, id: nat)
    requires InCustody(env, s, clock) && id in s.escrows
    requires s.escrows[id].status in {Submitted, Disputed, FailAttested, Released}
    ensures forall k | k in s.disputes && s.disputes[k].escrowId == id ::
              && s.escrows[id].status == Released
              && DisputeTerms(env, s.escrows[id].(status := Challenged), s.disputes[k])
  {
  }

  lemma CaseOpened(env: Env, s: State, t: State, clock: int, id: nat, k: nat)
    requires EscrowSound(s, id, clock) && s.escrows[id].id == id && TouchesOnly(s.bonds, t.bonds, {})
    requires var e := s.escrows[id];
             && e.status in {Submitted, Disputed, FailAttested, Released}
             && (e.status in {FailAttested, Released} ==> clock < e.challengeDeadline)
             && (e.status == Released ==> e.attestations != [] && e.challengeDeadline != 0)
             && id in t.escrows && t.escrows[id] == e.(status := if e.status == Released then Challenged else InJury)
    requires k !in s.disputes && k in t.disputes && t.disputes == s.disputes[k := t.disputes[k]]
    requires var d := t.disputes[k];
             && d.id == k && d.escrowId == id && d.opener in {s.escrows[id].payer, s.escrows[id].payee}
             && (s.escrows[id].status == Released ==> d.opener == s.escrows[id].payer)
             && d.status == Open && d.resolution == Pending && d.votes == []
             && Backs(t.bonds, d.bondId, DisputePurpose(k), d.opener) && t.bonds[d.bondId].status == Active
    requires s.escrows[id].status == Disputed ==> StakesActive(s.bonds, s.escrows[id])
    ensures EscrowSound(t, id, clock) && DisputeSound(env, t, k)
  {
    hide TouchesOnly, EscrowTerms, EscrowBacked, StakesWait, StakesSpent;
    FrozenSound(s, t, clock, id, k);
  }

  /** Freezing an escrow keeps it sound. */
  lemma FrozenSound(s: State, t: State, clock: int, id: nat, k: nat)
    requires EscrowSound(s, id, clock) && s.escrows[id].id == id && TouchesOnly(s.bonds, t.bonds, {})
    requires var e := s.escrows[id];
             && e.status in {Submitted, Disputed, FailAttested, Released}
             && (e.status in {FailAttested, Released} ==> clock < e.challengeDeadline)
             && (e.status == Released ==> e.attestations != [] && e.challengeDeadline != 0)
             && id in t.escrows && t.escrows[id] == e.(status := if e.status == Released then Challenged else InJury)
    requires k !in s.disputes && k in t.disputes && t.disputes == s.disputes[k := t.disputes[k]] && t.disputes[k].status == Open
    requires s.escrows[id].status == Disputed ==> StakesActive(s.bonds, s.escrows[id])
    ensures EscrowSound(t, id, clock)
  {
    hide TouchesOnly, EscrowBacked, StakesActive, StakesSettled, Tried;
    var e := s.escrows[id];
    EscrowBackedKept(s.bonds, t.bonds, {}, e);
    TriedKept(s, t, k);
    SameBacking(t.bonds, e, t.escrows[id]);
    FailedStays(e);
  }

  /** An escrow outside the jury has no open case. */
  lemma NotFrozen(env: Env, s: State, clock: int, id: nat)
    requires InCustody(env, s, clock) && id in s.escrows && s.escrows[id].status !in {InJury, Challenged}
    ensures forall k :: !OpenOn(s, k, id)
  {
  }

  lemma NewCase(s: State, t: State, k: nat, id: nat)
    requires JuryExclusive(s) && k !in s.disputes && OpenOn(t, k, id)
    requires t.disputes == s.disputes[k := t.disputes[k]]
    requires forall l :: !OpenOn(s, l, id)
    requires id in s.escrows && t.escrows.Keys == s.escrows.Keys
    requires forall i | i in s.escrows && i != id :: t.escrows[i] == s.escrows[i]
    ensures JuryExclusive(t)
  {
    assert forall l, i | OpenOn(t, l, i) && l != k :: OpenOn(s, l, i);
    forall i | i in t.escrows && t.escrows[i].status in {InJury, Challenged}
      ensures exists l :: OpenOn(t, l, i)
    {
      if i != id {
        var l :| OpenOn(s, l, i);
        assert OpenOn(t, l, i);
      }
    }
  }

  lemma DisputeAt(env: Env, s: State, clock: int, k: nat)
    requires Keyed(s) && InCustody(env, s, clock) && k in s.disputes
    ensures var d := s.disputes[k];
            && d.id == k && d.escrowId in s.escrows
            && DisputeTerms(env, s.escrows[d.escrowId], d)
            && DisputeBacked(s.bonds, d) && DisputeStakes(s.bonds, d, d.status == Open)
  {
    assert DisputeSound(env, s, k);
  }

  lemma CastVoteEffect(env: Env, s: State, c: Addr, k: nat, accept: bool, stake: U64)
    requires Keyed(s)
    ensures var r := CastVote(env, s, c, k, accept, stake);
            r.Ok? ==>
              && k in s.disputes && s.disputes[k].status == Open && !HasVoted(s.disputes[k].votes, c) && c in env.anchors
              && r.value.escrows == s.escrows && TouchesOnly(s.bonds, r.value.bonds, {})
              && r.value.disputes == s.disputes[k := s.disputes[k].(votes := s.disputes[k].votes + [Vote(c, accept, s.bondSeq)])]
              && Backs(r.value.bonds, s.bondSeq, JurorPurpose(k), c) && r.value.bonds[s.bondSeq].status == Active
  {
  }

  lemma CastVoteKeeps(env: Env, s: State, now: UnixTime, c: Addr, k: nat, accept: bool, stake: U64)
    requires Keyed(s) && InCustody(env, s, now)
    ensures var r := CastVote(env, s, c, k, accept, stake);
            r.Ok? ==> InCustody(env, r.value, now)
  {
    hide Keyed, TouchesOnly, InCustody, CastVote, EscrowSound, DisputeSound;
    var r := CastVote(env, s, c, k, accept, stake);
    if r.Ok? {
      CastVoteEffect(env, s, c, k, accept, stake);
      DisputeAt(env, s, now, k);
      Cases(env, s, now);
      BesidesCase(env, s, r.value, now, k);
      VoteCounted(env, s, r.value, k);
      ConcludeCase(env, s, r.value, now, k);
    }
  }

  /** A change of one open case leaves everything else sound. */
  lemma BesidesCase(env: Env, s: State, t: State, clock: int, k: nat)
    requires Keyed(s) && InCustody(env, s, clock) && TouchesOnly(s.bonds, t.bonds, {})
    requires k in s.disputes && k in t.disputes && t.escrows == s.escrows && t.disputes == s.disputes[k := t.disputes[k]]
    requires s.disputes[k].status == Open == t.disputes[k].status && t.disputes[k].escrowId == s.disputes[k].escrowId
    ensures forall id | id in t.escrows :: EscrowSound(t, id, clock)
    ensures forall l | l in t.disputes && l != k :: DisputeSound(env, t, l)
  {
    hide InCustody, EscrowSound, DisputeSound, DisputeTerms, TouchesOnly, Keyed;
    FreshIds(s);
    NothingNamesFresh(env, s, clock);
    OthersKept(env, s, t, clock, s.escrowSeq, k, {});
    Cases(env, s, clock);
  }

  lemma ConcludeCase(env: Env, s: State, t: State, clock: int, k: nat)
    requires InCustody(env, s, clock) && t.escrows == s.escrows && k in s.disputes && k in t.disputes
    requires t.disputes == s.disputes[k := t.disputes[k]]
    requires t.disputes[k].status == s.disputes[k].status && t.disputes[k].escrowId == s.disputes[k].escrowId
    requires forall id | id in t.escrows :: EscrowSound(t, id, clock)
    requires forall l | l in t.disputes && l != k :: DisputeSound(env, t, l)
    requires DisputeSound(env, t, k)
    ensures InCustody(env, t, clock)
  {
    SameOpenCases(s, t, k);
  }

  lemma NothingNamesFresh(env: Env, s: State, clock: int)
    requires Keyed(s) && InCustody(env, s, clock)
    ensures forall k | k in s.disputes :: s.disputes[k].escrowId != s.escrowSeq
  {
  }

  lemma VoteCounted(env: Env, s: State, t: State, k: nat)
    requires DisputeSound(env, s, k) && s.disputes[k].status == Open && s.disputes[k].id == k
    requires TouchesOnly(s.bonds, t.bonds, {}) && t.escrows == s.escrows && k in t.disputes
    requires |t.disputes[k].votes| > 0
    requires var d, d' := s.disputes[k], t.disputes[k]; var v := d'.votes[|d'.votes| - 1];
             && d' == d.(votes := d.votes + [v]) && v.juror in env.anchors && !HasVoted(d.votes, v.juror)
             && Backs(t.bonds, v.bondId, JurorPurpose(k), v.juror) && t.bonds[v.bondId].status == Active
    ensures DisputeSound(env, t, k)
  {
  }

  lemma SameOpenCases(s: State, t: State, k: nat)
    requires JuryExclusive(s) && t.escrows == s.escrows && k in s.disputes
    requires k in t.disputes && t.disputes == s.disputes[k := t.disputes[k]]
    requires t.disputes[k].status == s.disputes[k].status && t.disputes[k].escrowId == s.disputes[k].escrowId
    ensures JuryExclusive(t)
  {
    assert forall l, i :: OpenOn(t, l, i) == OpenOn(s, l, i);
  }

  // ---- Verdicts -----------------------------------------------------------

  lemma SettleStakeTouches(s: State, k: Stake, purpose: string, accept: bool, winner: Addr)
    requires Books(s) && Known(s.accounts, winner) && Known(s.accounts, k.owner)
    ensures var r := SettleStake(s, k, purpose, accept, winner);
            r.Ok? && TouchesOnly(s.bonds, r.value.bonds, {purpose})
            && (k.bondId in s.bonds && s.bonds[k.bondId].purpose == purpose ==> !IsActive(r.value, k.bondId))
  {
    SettleStakeBalanced(s, k, purpose, accept, winner);
    if IsActive(s, k.bondId) && s.bonds[k.bondId].purpose == purpose {
      var to := if k.verdict == accept then k.owner else winner;
      var status := if k.verdict == accept then Freed else Slashed;
      SettleBondTouches(s, k.bondId, to, status, {purpose});
    }
  }

  /** Settling a list of stakes touches no bond of another purpose, and leaves none of the list active. */
  lemma {:induction false} SettleStakesTouches(s: State, stakes: seq<Stake>, purpose: string, accept: bool, winner: Addr)
    requires Books(s) && StakesKnown(s.accounts, stakes, winner)
    ensures var r := SettleStakes(s, stakes, purpose, accept, winner);
            && r.Ok? && TouchesOnly(s.bonds, r.value.bonds, {purpose})
            && forall i | 0 <= i < |stakes| ::
                 (stakes[i].bondId in s.bonds && s.bonds[stakes[i].bondId].purpose == purpose
                  ==> !IsActive(r.value, stakes[i].bondId))
    decreases |stakes|
  {
    hide Keyed, Parties, Supply, SettleStake;
    if stakes != [] {
      SettleStakeBalanced(s, stakes[0], purpose, accept, winner);
      SettleStakeTouches(s, stakes[0], purpose, accept, winner);
      var t := SettleStake(s, stakes[0], purpose, accept, winner).value;
      var rest := stakes[1..];
      SettleStakesTouches(t, rest, purpose, accept, winner);
      var u := SettleStakes(t, rest, purpose, accept, winner).value;
      TouchesTrans(s.bonds, t.bonds, u.bonds, {purpose}, {purpose});
      assert {purpose} + {purpose} == {purpose};
      forall i | 0 <= i < |stakes|
        ensures stakes[i].bondId in s.bonds && s.bonds[stakes[i].bondId].purpose == purpose
                ==> !IsActive(u, stakes[i].bondId)
      {
        if i > 0 { assert stakes[i] == rest[i - 1]; }
      }
    }
  }

  lemma SettleDisputeBondTouches(s: State, e: Escrow, d: Dispute, accept: bool)
    requires Books(s) && EscrowKnown(s.accounts, e) && DisputeKnown(s.accounts, d)
    ensures var r := SettleDisputeBond(s, e, d, accept);
            r.Ok? && TouchesOnly(s.bonds, r.value.bonds, {DisputePurpose(d.id)})
            && (d.bondId in s.bonds && s.bonds[d.bondId].purpose == DisputePurpose(d.id) ==> !IsActive(r.value, d.bondId))
  {
    SettleDisputeBondBalanced(s, e, d, accept);
    if IsActive(s, d.bondId) && s.bonds[d.bondId].purpose == DisputePurpose(d.id) {
      RecipientKnown(s.accounts, e, d, accept);
      SettleBondTouches(s, d.bondId, DisputeBondRecipient(e, d, accept),
                        if OpenerUpheld(e, d, accept) then Freed else Slashed, {DisputePurpose(d.id)});
    }
  }

  /** What a verdict leaves behind: the escrow as `SettleEscrow` puts it, the case decided, the stakes
      of the case and of the escrow settled, and every other bond untouched. */
  lemma SettleVerdictEffect(s: State, now: UnixTime, d: Dispute, e: Escrow, accept: bool)
    requires Books(s) && d.id in s.disputes && d == s.disputes[d.id]
    requires e.id in s.escrows && e == s.escrows[e.id] && e.status in {InJury, Challenged}
    ensures var r := SettleVerdict(s, now, d, e, accept);
            && r.Ok?
            && TouchesOnly(s.bonds, r.value.bonds, {DisputePurpose(d.id), JurorPurpose(d.id), AttestationPurpose(e.id)})
            && r.value.escrows == SettleEscrow(s, now, e, accept).value.escrows
            && r.value.disputes == s.disputes[d.id := d.(status := Resolved, resolution := if accept then Accept else Reject)]
            && (DisputeBacked(s.bonds, d) ==> DisputeStakes(r.value.bonds, d, false))
            && (EscrowBacked(s.bonds, e) ==> StakesSettled(r.value.bonds, e))
  {
    hide Keyed, Parties, Supply, SettleStakes, SettleEscrow, SettleDisputeBond, TouchesOnly, DisputeBacked, DisputeStakes,
      EscrowBacked, StakesSettled;
    DisputeOf(s, d.id);
    SettleEscrowBalanced(s, now, e, accept);
    var s1 := SettleEscrow(s, now, e, accept).value;
    SettleDisputeBondBalanced(s1, e, d, accept);
    SettleDisputeBondTouches(s1, e, d, accept);
    var s2 := SettleDisputeBond(s1, e, d, accept).value;
    var votes, atts := VoteStakes(d.votes), AttestationStakes(e.attestations);
    SettleStakesBalanced(s2, votes, JurorPurpose(d.id), accept, Winner(e, accept));
    SettleStakesTouches(s2, votes, JurorPurpose(d.id), accept, Winner(e, accept));
    var s3 := SettleStakes(s2, votes, JurorPurpose(d.id), accept, Winner(e, accept)).value;
    SettleStakesBalanced(s3, atts, AttestationPurpose(e.id), accept, Winner(e, accept));
    SettleStakesTouches(s3, atts, AttestationPurpose(e.id), accept, Winner(e, accept));
    var s4 := SettleStakes(s3, atts, AttestationPurpose(e.id), accept, Winner(e, accept)).value;
    forall i | 0 <= i < |d.votes|
      ensures d.votes[i].bondId in s2.bonds && s2.bonds[d.votes[i].bondId].purpose == JurorPurpose(d.id)
              ==> !IsActive(s3, d.votes[i].bondId)
    {
      assert votes[i].bondId == d.votes[i].bondId;
    }
    VerdictTouches(s1.bonds, s2.bonds, s3.bonds, s4.bonds, d, e);
    if EscrowBacked(s.bonds, e) { AttestationsSpent(s1.bonds, s2.bonds, s3.bonds, s4.bonds, d, e); }
  }

  lemma AttestationsSpent(b1: map<nat, Bond>, b2: map<nat, Bond>, b3: map<nat, Bond>, b4: map<nat, Bond>, d: Dispute, e: Escrow)
    requires EscrowBacked(b1, e) && TouchesOnly(b1, b2, {DisputePurpose(d.id)}) && TouchesOnly(b2, b3, {JurorPurpose(d.id)})
    requires TouchesOnly(b3, b4, {AttestationPurpose(e.id)})
    requires var atts := AttestationStakes(e.attestations);
             forall i | 0 <= i < |atts| ::
               atts[i].bondId in b3 && b3[atts[i].bondId].purpose == AttestationPurpose(e.id)
               ==> !(atts[i].bondId in b4 && b4[atts[i].bondId].status == Active)
    ensures StakesSettled(b4, e)
  {
    var atts := AttestationStakes(e.attestations);
    forall i | 0 <= i < |e.attestations|
      ensures e.attestations[i].bondId in b4 && b4[e.attestations[i].bondId].status != Active
    {
      assert atts[i] == AttestationStake(e.attestations[i]);
      assert Backs(b1, e.attestations[i].bondId, AttestationPurpose(e.id), e.attestations[i].verifier);
    }
  }

  lemma VerdictTouches(b1: map<nat, Bond>, b2: map<nat, Bond>, b3: map<nat, Bond>, b4: map<nat, Bond>, d: Dispute, e: Escrow)
    requires TouchesOnly(b1, b2, {DisputePurpose(d.id)})
    requires TouchesOnly(b2, b3, {JurorPurpose(d.id)})
    requires TouchesOnly(b3, b4, {AttestationPurpose(e.id)})
    requires d.bondId in b1 && b1[d.bondId].purpose == DisputePurpose(d.id)
             ==> !(d.bondId in b2 && b2[d.bondId].status == Active)
    requires forall i | 0 <= i < |d.votes| ::
               d.votes[i].bondId in b2 && b2[d.votes[i].bondId].purpose == JurorPurpose(d.id)
               ==> !(d.votes[i].bondId in b3 && b3[d.votes[i].bondId].status == Active)
    ensures TouchesOnly(b1, b4, {DisputePurpose(d.id), JurorPurpose(d.id), AttestationPurpose(e.id)})
    ensures DisputeBacked(b1, d) ==> DisputeStakes(b4, d, false)
  {
  }

  lemma CasePurposes(s: State, k: nat, id: nat, p: set<string>)
    requires p == {DisputePurpose(k), JurorPurpose(k), AttestationPurpose(id)}
    ensures forall i | i in s.escrows && i != id :: AttestationPurpose(i) !in p
    ensures forall l | l in s.disputes && l != k :: DisputePurpose(l) !in p && JurorPurpose(l) !in p
  {
    forall i | i in s.escrows && i != id
      ensures AttestationPurpose(i) !in p
    {
      PurposesDiffer(k, i);
      PurposesDiffer(i, id);
    }
    forall l | l in s.disputes && l != k
      ensures DisputePurpose(l) !in p && JurorPurpose(l) !in p
    {
      PurposesDiffer(l, k);
      PurposesDiffer(k, l);
      PurposesDiffer(l, id);
    }
  }

  lemma DisputeDecided(env: Env, s: State, t: State, k: nat, p: set<string>)
    requires DisputeSound(env, s, k) && s.disputes[k].status == Open && TouchesOnly(s.bonds, t.bonds, p)
    requires var id := s.disputes[k].escrowId;
             id in t.escrows && t.escrows[id].status in {Released, Refunded}
             && t.escrows[id].payer == s.escrows[id].payer && t.escrows[id].payee == s.escrows[id].payee
    requires k in t.disputes && t.disputes[k] == s.disputes[k].(status := Resolved, resolution := t.disputes[k].resolution)
    requires t.disputes[k].resolution != Pending && DisputeStakes(t.bonds, s.disputes[k], false)
    ensures DisputeSound(env, t, k)
  {
  }

  /** Deciding a case closes it, thaws its escrow, and leaves everything else sound. */
  lemma CaseDecided(env: Env, s: State, t: State, clock: int, k: nat, p: set<string>)
    requires Keyed(s) && InCustody(env, s, clock) && k in s.disputes && s.disputes[k].status == Open
    requires s.disputes[k].escrowId in s.escrows
    requires var id := s.disputes[k].escrowId; var e := s.escrows[id];
             && id in t.escrows && t.escrows == s.escrows[id := t.escrows[id]]
             && t.escrows[id] == e.(status := t.escrows[id].status, releasedAt := t.escrows[id].releasedAt)
             && (t.escrows[id].status == Released || (t.escrows[id].status == Refunded && e.status == InJury))
             && p == {DisputePurpose(k), JurorPurpose(k), AttestationPurpose(id)}
    requires k in t.disputes && t.disputes == s.disputes[k := t.disputes[k]]
    requires t.disputes[k] == s.disputes[k].(status := Resolved, resolution := t.disputes[k].resolution)
    requires t.disputes[k].resolution != Pending
    requires TouchesOnly(s.bonds, t.bonds, p) && DisputeStakes(t.bonds, s.disputes[k], false)
    requires StakesSettled(t.bonds, s.escrows[s.disputes[k].escrowId])
    ensures InCustody(env, t, clock)
  {
    hide InCustody, EscrowSound, DisputeSound, DisputeTerms, TouchesOnly, Keyed, DisputePurpose, JurorPurpose, AttestationPurpose,
      JuryExclusive, DisputeStakes, StakesSettled, OpenOn;
    var id := s.disputes[k].escrowId;
    OpenCase(env, s, clock, k);
    CasePurposes(s, k, id, p);
    Cases(env, s, clock);
    OtherCases(env, s, t, clock, k, id);
    OthersKept(env, s, t, clock, id, k, p);
    EscrowThawed(s, t, clock, id, k, p);
    DisputeDecided(env, s, t, k, p);
    NoCaseLeft(s, t, k, id);
    Conclude(env, t, clock, id, k);
  }

  lemma OpenCase(env: Env, s: State, clock: int, k: nat)
    requires Keyed(s) && InCustody(env, s, clock) && k in s.disputes && s.disputes[k].status == Open
    ensures var id := s.disputes[k].escrowId;
            && OpenOn(s, k, id) && id in s.escrows && s.escrows[id].status in {InJury, Challenged}
            && s.escrows[id].id == id && s.disputes[k].id == k
  {
    assert DisputeSound(env, s, k);
  }

  lemma OtherCases(env: Env, s: State, t: State, clock: int, k: nat, id: nat)
    requires InCustody(env, s, clock) && OpenOn(s, k, id) && id in s.escrows && id in t.escrows
    requires t.escrows[id].status in {Released, Refunded}
    requires t.escrows[id].payer == s.escrows[id].payer && t.escrows[id].payee == s.escrows[id].payee
    ensures forall l | l in s.disputes && l != k && s.disputes[l].escrowId == id ::
              DisputeTerms(env, t.escrows[id], s.disputes[l])
  {
    forall l | l in s.disputes && l != k && s.disputes[l].escrowId == id
      ensures DisputeTerms(env, t.escrows[id], s.disputes[l])
    {
      assert DisputeSound(env, s, l);
      assert !OpenOn(s, l, id);
    }
  }

  lemma EscrowThawed(s: State, t: State, clock: int, id: nat, k: nat, p: set<string>)
    requires EscrowSound(s, id, clock) && TouchesOnly(s.bonds, t.bonds, p)
    requires s.escrows[id].status in {InJury, Challenged} && s.escrows[id].id == id && id in t.escrows
    requires t.escrows[id] == s.escrows[id].(status := t.escrows[id].status, releasedAt := t.escrows[id].releasedAt)
    requires t.escrows[id].status == Released || (t.escrows[id].status == Refunded && s.escrows[id].status == InJury)
    requires k in t.disputes && t.disputes[k].status == Resolved && t.disputes[k].escrowId == id
    requires StakesSettled(t.bonds, s.escrows[id])
    ensures EscrowSound(t, id, clock)
  {
  }

  lemma NoCaseLeft(s: State, t: State, k: nat, id: nat)
    requires JuryExclusive(s) && OpenOn(s, k, id) && k in t.disputes && t.disputes[k].status == Resolved
    requires t.disputes == s.disputes[k := t.disputes[k]]
    requires id in t.escrows && t.escrows == s.escrows[id := t.escrows[id]] && t.escrows[id].status !in {InJury, Challenged}
    ensures JuryExclusive(t)
  {
    assert forall l, i | OpenOn(t, l, i) :: OpenOn(s, l, i);
    forall i | i in t.escrows && t.escrows[i].status in {InJury, Challenged}
      ensures exists l :: OpenOn(t, l, i)
    {
      var l :| OpenOn(s, l, i);
      assert OpenOn(t, l, i);
    }
  }

  lemma SettleEscrowEffect(s: State, now: UnixTime, e: Escrow, accept: bool)
    requires e.status in {InJury, Challenged}
    ensures var r := SettleEscrow(s, now, e, accept);
            r.Ok? ==>
              && e.id in r.value.escrows && r.value.escrows == s.escrows[e.id := r.value.escrows[e.id]]
              && var f := r.value.escrows[e.id];
                 && f == e.(status := f.status, releasedAt := f.releasedAt)
                 && f.status == (if e.status == InJury && !accept then Refunded else Released)
  {
  }

  lemma ResolveDisputeKeeps(env: Env, s: State, now: UnixTime, c: Addr, k: nat)
    requires Books(s) && InCustody(env, s, now)
    ensures var r := ResolveDispute(env, s, now, c, k);
            r.Ok? ==> InCustody(env, r.value, now)
  {
    hide Keyed, Parties, Supply, InCustody, SettleVerdict, SettleEscrow, TouchesOnly, DisputeBacked, DisputeStakes, EscrowTerms, EscrowBacked, StakesWait, Verdict;
    var r := ResolveDispute(env, s, now, c, k);
    if r.Ok? {
      var d := s.disputes[k];
      var e := s.escrows[d.escrowId];
      var accept := Verdict(env, d).value;
      DisputeAt(env, s, now, k);
      EscrowAt(env, s, now, d.escrowId);
      SettleVerdictEffect(s, now, d, e, accept);
      SettleEscrowBalanced(s, now, e, accept);
      SettleEscrowEffect(s, now, e, accept);
      CaseDecided(env, s, r.value, now, k, {DisputePurpose(k), JurorPurpose(k), AttestationPurpose(e.id)});
    }
  }

  // ---- Steps and runs -----------------------------------------------------

  lemma EscrowsKeepCustody(env: Env, s: State, now: UnixTime, m: EscrowMsg)
    requires Books(s) && InCustody(env, s, now)
    ensures var r := HandleEscrow(env, s, now, m);
            r.Ok? ==> InCustody(env, r.value, now)
  {
    hide Keyed, Parties, Supply, InCustody, LockEscrow, SubmitEscrow, DisputeEscrow, ReleaseEscrow,
         RefundEscrow, AttestEscrow, VerifiedRelease, ReclaimAttestationBonds;
    match m
    case MsgLockEscrow(q) => LockEscrowKeeps(env, s, now, q);
    case MsgSubmitEscrow(c, id, dh, kh, uri) => SubmitEscrowKeeps(env, s, now, c, id, dh, kh, uri);
    case MsgDisputeEscrow(c, id) => DisputeEscrowKeeps(env, s, now, c, id);
    case MsgReleaseEscrow(c, id) => ReleaseEscrowKeeps(env, s, now, c, id);
    case MsgRefundEscrow(c, id) => RefundEscrowKeeps(env, s, now, c, id);
    case MsgAttestEscrow(c, id, passed, stake, dh, kh, ah) => AttestEscrowKeeps(env, s, now, c, id, passed, stake, dh, kh, ah);
    case MsgVerifiedRelease(c, id, key) => VerifiedReleaseKeeps(env, s, now, c, id, key);
    case MsgReclaimAttestationBonds(c, id) => ReclaimKeeps(env, s, now, c, id);
  }

  lemma JuryKeepsCustody(env: Env, s: State, now: UnixTime, m: JuryMsg)
    requires Books(s) && InCustody(env, s, now)
    ensures var r := HandleJury(env, s, now, m);
            r.Ok? ==> InCustody(env, r.value, now)
  {
    hide Keyed, Parties, Supply, InCustody, OpenDispute, CastVote, ResolveDispute;
    match m
    case MsgOpenDispute(c, id, reason, bond) => OpenDisputeKeeps(env, s, now, c, id, reason, bond);
    case MsgCastVote(c, id, accept, stake) => CastVoteKeeps(env, s, now, c, id, accept, stake);
    case MsgResolveDispute(c, id) => ResolveDisputeKeeps(env, s, now, c, id);
  }

  lemma StepKeepsCustody(env: Env, s: State, now: UnixTime, m: Msg)
    requires Books(s) && InCustody(env, s, now)
    ensures var r := Step(env, s, now, m);
            r.Ok? ==> InCustody(env, r.value, now)
  {
    hide Keyed, Parties, Supply, InCustody, HandleEscrow, HandleJury, HandleBond, HandleGate;
    match m
    case ToEscrows(e) => EscrowsKeepCustody(env, s, now, e);
    case ToJury(j) => JuryKeepsCustody(env, s, now, j);
    case ToBonds(b) => BondsKeepCustody(env, s, now, b);
    case ToGates(g) => GatesKeepCustody(env, s, now, now, g);
  }

  /** Every reachable state has its books in order and its stakes in custody. */
  lemma {:induction false} RunKeepsCustody(env: Env, s: State, clock: int, txs: seq<Tx>)
    requires Books(s) && InCustody(env, s, clock) && InOrder(clock, txs)
    ensures Books(Run(env, s, txs)) && InCustody(env, Run(env, s, txs), Clock(clock, txs))
    decreases |txs|
  {
    hide Keyed, Parties, Supply, InCustody, Step;
    if txs != [] {
      var tx, rest := txs[0], txs[1..];
      LaterClock(env, s, clock, tx.now);
      StepBalanced(env, s, tx.now, tx.msg);
      StepKeepsCustody(env, s, tx.now, tx.msg);
      assert InOrder(tx.now, rest);
      RunKeepsCustody(env, Apply(env, s, tx.now, tx.msg), tx.now, rest);
    }
  }
}
