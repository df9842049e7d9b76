/** Every balance after every message, to the unit: what the signer puts up, and what each account receives. */
module Receipts {
  import opened Outcomes
  import opened Integers
  import opened Text
  import opened Types
  import opened Ledger
  import opened Escrows
  import opened Jury
  import opened Bonds
  import opened Gates
  import opened Machine
  import opened Conservation
  import opened Conserved
  import opened Custody
  import opened CustodyKept
  import opened Settlement
  import opened Minting
  import opened Rulings
  import opened Wages

  // ---- What goes in and out -----------------------------------------------

  /** The one account whose signature a message carries. */
  function Signer(m: Msg): Addr {
    match m
    case ToEscrows(MsgLockEscrow(q)) => q.payer
    case ToEscrows(x) => x.creator
    case ToJury(x) => x.creator
    case ToBonds(x) => x.creator
    case ToGates(x) => x.creator
  }

  /** The coin the message takes from its signer. */
  function Outlay(m: Msg): nat {
    match m
    case ToEscrows(MsgLockEscrow(q)) => q.amount
    case ToEscrows(MsgAttestEscrow(_, _, _, stake, _, _, _)) => stake
    case ToJury(MsgOpenDispute(_, _, _, bond)) => bond
    case ToJury(MsgCastVote(_, _, _, stake)) => stake
    case ToBonds(MsgCastVouch(_, _, _, stake)) => stake
    case ToBonds(MsgPostBond(_, amount, _, _, _)) => amount
    case ToBonds(MsgTransfer(_, _, amount)) => amount
    case _ => 0
  }

  /** Stake `id` is the oldest vouch of `from` for `to`. */
  predicate Oldest(s: State, id: nat, from: Addr, to: Addr) {
    && id in s.vouches && s.vouches[id].from == from && s.vouches[id].to == to
    && forall j | j in s.vouches && j < id :: s.vouches[j].from != from || s.vouches[j].to != to
  }

  /** The stake that stands behind `from`'s vouch for `to`, or nothing. */
  ghost function StandingStake(s: State, from: Addr, to: Addr): nat {
    if id :| Oldest(s, id, from, to) then s.vouches[id].stake else 0
  }

  /** The stakes still locked for the attestations of account `a`, from the `i`-th on. */
  function Reclaimed(bonds: map<nat, Bond>, e: Escrow, a: Addr, i: nat): nat
    requires i <= |e.attestations|
    decreases |e.attestations| - i
  {
    if i == |e.attestations| then 0
    else
      (if e.attestations[i].verifier == a then ActiveAmount(bonds, e.attestations[i].bondId) else 0)
      + Reclaimed(bonds, e, a, i + 1)
  }

  /** What account `a` receives from escrow message `x`. */
  function FromEscrow(s: State, x: EscrowMsg, a: Addr): nat {
    if x.MsgLockEscrow? || x.id !in s.escrows then 0
    else
      var e := s.escrows[x.id];
      match x
      case MsgReleaseEscrow(_, _) => if a == e.payee then e.amount else 0
      case MsgVerifiedRelease(_, _, _) => if a == e.payee then e.amount else 0
      case MsgRefundEscrow(_, _) => if a == e.payer then e.amount else 0
      case MsgReclaimAttestationBonds(_, _) => Reclaimed(s.bonds, e, a, 0)
      case _ => 0
  }

  ghost function FromVerdict(s: State, x: JuryMsg, a: Addr): nat {
    if x.MsgResolveDispute? && x.id in s.disputes && s.disputes[x.id].escrowId in s.escrows then
      var d, e := s.disputes[x.id], s.escrows[s.disputes[x.id].escrowId];
      if to :| BondGoesTo(d, e, to) then RulingPays(s.bonds, d, e, to, a) else 0
    else 0
  }

  ghost function FromBond(s: State, x: BondMsg, a: Addr): nat {
    match x
    case MsgTransfer(_, to, amount) => if a == to then amount else 0
    case MsgCastVouch(c, to, _, _) => if a == c then StandingStake(s, c, to) else 0
    case MsgUnvouch(c, to) => if a == c then StandingStake(s, c, to) else 0
    case MsgReleaseBond(_, id) => if id in s.bonds && a == s.bonds[id].poster then s.bonds[id].amount else 0
    case MsgSlashBond(_, id, beneficiary) => if id in s.bonds && a == beneficiary != "" then s.bonds[id].amount else 0
    case _ => 0
  }

  ghost function FromGate(s: State, x: GateMsg, a: Addr): nat {
    match x
    case MsgSettleGate(_, id, gold, _) =>
      if id in s.gates && exists w :: Wins(s.gates[id].answers, gold, w) && Revealed(s.gates[id].answers, w, a)
      then s.gates[id].drip else 0
    case MsgAwardContribution(_, k) => if a == k.recipient then k.amount else 0
    case _ => 0
  }

  ghost function Income(s: State, m: Msg, a: Addr): nat {
    match m
    case ToEscrows(x) => FromEscrow(s, x, a)
    case ToJury(x) => FromVerdict(s, x, a)
    case ToBonds(x) => FromBond(s, x, a)
    case ToGates(x) => FromGate(s, x, a)
  }

  /** From `s` to `t` the signer has paid the outlay, everybody has received the income, and no balance has
      changed otherwise. */
  ghost predicate Settled(s: State, t: State, m: Msg) {
    forall a :: BalanceAt(t, a) + (if a == Signer(m) then Outlay(m) else 0) == BalanceAt(s, a) + Income(s, m, a)
  }

  // ---- Escrows ------------------------------------------------------------

  lemma DebitCosts(s: State, a: Addr, amount: U64)
    ensures var r := Debit(s, a, amount);
            r.Ok? ==> forall b :: BalanceAt(r.value, b) + (if b == a then amount else 0) == BalanceAt(s, b)
  {
  }

  lemma LockBondCosts(s: State, poster: Addr, amount: U64, purpose: string, slasher: Addr, ref: string)
    ensures var r := LockBond(s, poster, amount, purpose, slasher, ref);
            r.Ok? ==> forall b :: BalanceAt(r.value, b) + (if b == poster then amount else 0) == BalanceAt(s, b)
  {
    hide Debit;
    DebitCosts(s, poster, amount);
  }

  lemma RegistrationCosts(s: State, a: Addr, guardAmount: U64)
    ensures var r := EnsureRegistered(s, a, guardAmount);
            r.Ok? ==> forall b :: BalanceAt(r.value, b) == BalanceAt(s, b)
  {
  }

  lemma LockEscrowCosts(s: State, now: UnixTime, q: LockRequest)
    ensures var r := LockEscrow(s, now, q);
            r.Ok? ==> Settled(s, r.value, ToEscrows(MsgLockEscrow(q)))
  {
    hide CheckVerifierTerms, Debit, EnsureRegistered;
    var r := LockEscrow(s, now, q);
    if r.Ok? {
      RegistrationCosts(s, q.payee, q.amount);
      DebitCosts(EnsureRegistered(s, q.payee, q.amount).value, q.payer, q.amount);
    }
  }

  lemma AttestCosts(s: State, now: UnixTime, c: Addr, id: nat, passed: bool, stake: U64, dh: string, kh: string, ah: string)
    ensures var r := AttestEscrow(s, now, c, id, passed, stake, dh, kh, ah);
            r.Ok? ==> Settled(s, r.value, ToEscrows(MsgAttestEscrow(c, id, passed, stake, dh, kh, ah)))
  {
    hide LockBond, EqualFold;
    if id in s.escrows {
      var e := s.escrows[id];
      LockBondCosts(s, c, stake, AttestationPurpose(e.id), "", FormatUint(e.id));
    }
  }

  /** From `b` to `c` the stakes of the attestations from the `i`-th on are no longer locked, and no other
      bond has changed. */
  predicate Freeing(b: map<nat, Bond>, c: map<nat, Bond>, e: Escrow, i: nat) {
    && c.Keys == b.Keys
    && (forall j | i <= j < |e.attestations| ::
          e.attestations[j].bondId in b && c[e.attestations[j].bondId] == Marked(b[e.attestations[j].bondId], true))
    && forall id | id in b && (forall j | i <= j < |e.attestations| :: e.attestations[j].bondId != id) :: c[id] == b[id]
  }

  lemma ReclaimOne(s: State, e: Escrow, i: nat) returns (t: State)
    requires Books(s) && EscrowBacked(s.bonds, e) && i < |e.attestations|
    ensures Books(t) && ReclaimFrom(s, e, i) == ReclaimFrom(t, e, i + 1)
    ensures var id := e.attestations[i].bondId;
            && id in s.bonds && t.bonds == s.bonds[id := Marked(s.bonds[id], true)]
            && forall a :: BalanceAt(t, a) == BalanceAt(s, a) + (if e.attestations[i].verifier == a then ActiveAmount(s.bonds, id) else 0)
  {
    hide Keyed, Parties, Supply, SettleBond;
    var id := e.attestations[i].bondId;
    t := s;
    if IsActive(s, id) {
      PosterKnown(s, id);
      SettleBondPays(s, id, s.bonds[id].poster, Freed);
      SettleBondBalanced(s, id, s.bonds[id].poster, Freed);
      t := SettleBond(s, id, s.bonds[id].poster, Freed).value;
    } else {
      assert s.bonds[id := s.bonds[id]] == s.bonds;
    }
  }

  lemma {:induction false} ReclaimPays(s: State, e: Escrow, i: nat)
    requires Books(s) && EscrowBacked(s.bonds, e) && i <= |e.attestations| && DistinctBonds(e)
    ensures var r := ReclaimFrom(s, e, i);
            && r.Ok? && Freeing(s.bonds, r.value.bonds, e, i)
            && forall a :: BalanceAt(r.value, a) == BalanceAt(s, a) + Reclaimed(s.bonds, e, a, i)
    decreases |e.attestations| - i
  {
    hide Books, BalanceAt, Marked, ActiveAmount, EscrowBacked, DistinctBonds, Freeing;
    if i == |e.attestations| {
      NothingFreed(s.bonds, e);
    } else {
      var t := ReclaimOne(s, e, i);
      StillReclaimed(s.bonds, t.bonds, e, i, i + 1);
      ReclaimPays(t, e, i + 1);
      FreeingNext(s.bonds, t.bonds, ReclaimFrom(t, e, i + 1).value.bonds, e, i);
    }
  }

  lemma NothingFreed(b: map<nat, Bond>, e: Escrow)
    ensures Freeing(b, b, e, |e.attestations|)
  {
  }

  lemma FreeingNext(b: map<nat, Bond>, c: map<nat, Bond>, d: map<nat, Bond>, e: Escrow, i: nat)
    requires i < |e.attestations| && e.attestations[i].bondId in b && DistinctBonds(e)
    requires c == b[e.attestations[i].bondId := Marked(b[e.attestations[i].bondId], true)] && Freeing(c, d, e, i + 1)
    ensures Freeing(b, d, e, i)
  {
    hide Marked;
  }

  lemma PosterKnown(s: State, id: nat)
    requires Parties(s) && id in s.bonds
    ensures Known(s.accounts, s.bonds[id].poster)
  {
  }

  /** No two attestations name the same stake. */
  predicate DistinctBonds(e: Escrow) {
    forall i, j | 0 <= i < j < |e.attestations| :: e.attestations[i].bondId != e.attestations[j].bondId
  }

  lemma StakesAreDistinct(bonds: map<nat, Bond>, e: Escrow)
    requires EscrowBacked(bonds, e) && EscrowTerms(e)
    ensures DistinctBonds(e)
  {
    forall i, j | 0 <= i < j < |e.attestations|
      ensures e.attestations[i].bondId != e.attestations[j].bondId
    {
      assert bonds[e.attestations[i].bondId].poster == e.attestations[i].verifier;
      assert bonds[e.attestations[j].bondId].poster == e.attestations[j].verifier;
    }
  }

  lemma StillReclaimed(b: map<nat, Bond>, c: map<nat, Bond>, e: Escrow, i: nat, next: nat)
    requires i < |e.attestations| && next == i + 1 && DistinctBonds(e) && EscrowBacked(b, e) && e.attestations[i].bondId in b
    requires c == b[e.attestations[i].bondId := Marked(b[e.attestations[i].bondId], true)]
    ensures EscrowBacked(c, e)
    ensures forall a :: Reclaimed(c, e, a, next) == Reclaimed(b, e, a, next)
  {
    forall a
      ensures Reclaimed(c, e, a, next) == Reclaimed(b, e, a, next)
    {
      ReclaimedElsewhere(b, c, e, a, next);
    }
  }

  lemma {:induction false} ReclaimedElsewhere(b: map<nat, Bond>, c: map<nat, Bond>, e: Escrow, a: Addr, i: nat)
    requires i <= |e.attestations|
    requires forall j | i <= j < |e.attestations| ::
               e.attestations[j].bondId in b && e.attestations[j].bondId in c && c[e.attestations[j].bondId] == b[e.attestations[j].bondId]
    ensures Reclaimed(c, e, a, i) == Reclaimed(b, e, a, i)
    decreases |e.attestations| - i
  {
    if i < |e.attestations| { ReclaimedElsewhere(b, c, e, a, i + 1); }
  }

  /** A reclaim returns every stake still locked to the verifier that posted it, and leaves none locked. */
  lemma ReclaimReturns(env: Env, s: State, now: UnixTime, c: Addr, id: nat)
    requires Books(s) && InCustody(env, s, now)
    ensures var r := ReclaimAttestationBonds(s, now, c, id);
            r.Ok? ==>
              && id in s.escrows && Settled(s, r.value, ToEscrows(MsgReclaimAttestationBonds(c, id)))
              && forall i | 0 <= i < |s.escrows[id].attestations| ::
                   var b := s.escrows[id].attestations[i].bondId;
                   b in s.bonds && b in r.value.bonds && r.value.bonds[b].status != Active
                   && r.value.bonds[b] == (if s.bonds[b].status == Active then s.bonds[b].(status := Freed) else s.bonds[b])
  {
    hide Keyed, Parties, Supply, InCustody, ReclaimFrom, EscrowTerms, EscrowBacked, DistinctBonds, Reclaimed;
    if id in s.escrows {
      EscrowAt(env, s, now, id);
      StakesAreDistinct(s.bonds, s.escrows[id]);
      ReclaimPays(s, s.escrows[id], 0);
    }
  }

  lemma PayoutPays(env: Env, s: State, now: UnixTime, m: EscrowMsg)
    requires Books(s) && (m.MsgReleaseEscrow? || m.MsgRefundEscrow? || m.MsgVerifiedRelease?)
    ensures var r := HandleEscrow(env, s, now, m);
            r.Ok? ==> Settled(s, r.value, ToEscrows(m))
  {
    hide Parties, Supply, PassesFrom, KeyMatches, CreditAccount;
    if m.id in s.escrows && Conservation.Held(s.escrows[m.id].status) {
      var e := s.escrows[m.id];
      EscrowRoom(s, e, e.payee);
      EscrowRoom(s, e, e.payer);
      CreditPays(s, e.payee, e.amount);
      CreditPays(s, e.payer, e.amount);
    }
  }

  lemma EscrowsSettled(env: Env, s: State, now: UnixTime, x: EscrowMsg)
    requires Books(s) && InCustody(env, s, now)
    ensures var r := HandleEscrow(env, s, now, x);
            r.Ok? ==> Settled(s, r.value, ToEscrows(x))
  {
    hide Books, InCustody, Settled, LockEscrow, AttestEscrow, ReclaimAttestationBonds, ReleaseEscrow, RefundEscrow, VerifiedRelease,
         SubmitEscrow, DisputeEscrow;
    match x
    case MsgLockEscrow(q) => LockEscrowCosts(s, now, q);
    case MsgAttestEscrow(c, id, passed, stake, dh, kh, ah) => AttestCosts(s, now, c, id, passed, stake, dh, kh, ah);
    case MsgReclaimAttestationBonds(c, id) => ReclaimReturns(env, s, now, c, id);
    case MsgSubmitEscrow(c, id, dh, kh, uri) => SubmitCostsNothing(s, now, c, id, dh, kh, uri);
    case MsgDisputeEscrow(c, id) => DisputeCostsNothing(s, c, id);
    case _ => PayoutPays(env, s, now, x);
  }

  lemma SubmitCostsNothing(s: State, now: UnixTime, c: Addr, id: nat, dh: string, kh: string, uri: string)
    ensures var r := SubmitEscrow(s, now, c, id, dh, kh, uri);
            r.Ok? ==> Settled(s, r.value, ToEscrows(MsgSubmitEscrow(c, id, dh, kh, uri)))
  {
    hide IsHexSha256;
  }

  lemma DisputeCostsNothing(s: State, c: Addr, id: nat)
    ensures var r := DisputeEscrow(s, c, id);
            r.Ok? ==> Settled(s, r.value, ToEscrows(MsgDisputeEscrow(c, id)))
  {
  }

  // ---- Jury ---------------------------------------------------------------

  lemma OpeningCosts(s: State, now: UnixTime, c: Addr, id: nat, reason: string, bond: U64)
    ensures var r := OpenDispute(s, now, c, id, reason, bond);
            r.Ok? ==> Settled(s, r.value, ToJury(MsgOpenDispute(c, id, reason, bond)))
  {
    hide LockBond, MayDispute;
    LockBondCosts(s, c, bond, DisputePurpose(s.disputeSeq), "", FormatUint(id));
  }

  lemma VotingCosts(env: Env, s: State, c: Addr, id: nat, accept: bool, stake: U64)
    ensures var r := CastVote(env, s, c, id, accept, stake);
            r.Ok? ==> Settled(s, r.value, ToJury(MsgCastVote(c, id, accept, stake)))
  {
    hide LockBond, HasVoted;
    if id in s.disputes { LockBondCosts(s, c, stake, JurorPurpose(s.disputes[id].id), "", FormatUint(s.disputes[id].id)); }
  }

  lemma VerdictSettled(env: Env, s: State, now: UnixTime, c: Addr, id: nat)
    requires Books(s) && InCustody(env, s, now)
    ensures var r := ResolveDispute(env, s, now, c, id);
            r.Ok? ==> Settled(s, r.value, ToJury(MsgResolveDispute(c, id)))
  {
    hide Books, InCustody, ResolveDispute, BondGoesTo, RulingPays;
    RulingPaysAll(env, s, now, now, c, id);
  }

  lemma JurySettled(env: Env, s: State, now: UnixTime, x: JuryMsg)
    requires Books(s) && InCustody(env, s, now)
    ensures var r := HandleJury(env, s, now, x);
            r.Ok? ==> Settled(s, r.value, ToJury(x))
  {
    hide Books, InCustody, Settled, OpenDispute, CastVote, ResolveDispute;
    match x
    case MsgOpenDispute(c, id, reason, bond) => OpeningCosts(s, now, c, id, reason, bond);
    case MsgCastVote(c, id, accept, stake) => VotingCosts(env, s, c, id, accept, stake);
    case MsgResolveDispute(c, id) => VerdictSettled(env, s, now, c, id);
  }

  // ---- Accounts, bonds and vouches ----------------------------------------

  lemma {:induction false} OldestFound(s: State, from: Addr, to: Addr, i: nat)
    requires forall j | j in s.vouches && j < i :: s.vouches[j].from != from || s.vouches[j].to != to
    ensures var r := FindVouch(s, from, to, i);
            && (r.Some? ==> Oldest(s, r.value, from, to))
            && (r.None? ==> forall j | j in s.vouches && j < s.vouchSeq :: s.vouches[j].from != from || s.vouches[j].to != to)
    decreases s.vouchSeq - i
  {
    if i < s.vouchSeq && !(i in s.vouches && s.vouches[i].from == from && s.vouches[i].to == to) {
      OldestFound(s, from, to, i + 1);
    }
  }

  lemma StandingStakeIs(s: State, from: Addr, to: Addr)
    requires Keyed(s)
    ensures var found := FindVouch(s, from, to, 0);
            && (found.Some? ==> found.value in s.vouches && StandingStake(s, from, to) == s.vouches[found.value].stake)
            && (found.None? ==> StandingStake(s, from, to) == 0)
  {
    hide FindVouch;
    OldestFound(s, from, to, 0);
    var found := FindVouch(s, from, to, 0);
    if found.Some? {
      forall id | Oldest(s, id, from, to)
        ensures id == found.value
      {
      }
    }
  }

  lemma VouchingCosts(s: State, c: Addr, to: Addr, weight: U64, stake: U64)
    requires Books(s)
    ensures var r := CastVouch(s, c, to, weight, stake);
            r.Ok? ==> Settled(s, r.value, ToBonds(MsgCastVouch(c, to, weight, stake)))
  {
    hide Parties, Supply, FindVouch, StandingStake;
    StandingStakeIs(s, c, to);
    var found := FindVouch(s, c, to, 0);
    if found.Some? { BalanceAndVouch(s, c, found.value); }
    BooksBound(s);
  }

  lemma UnvouchingPays(s: State, c: Addr, to: Addr)
    requires Books(s)
    ensures var r := Unvouch(s, c, to);
            r.Ok? ==> Settled(s, r.value, ToBonds(MsgUnvouch(c, to)))
  {
    hide Parties, Supply, FindVouch, StandingStake;
    StandingStakeIs(s, c, to);
    var found := FindVouch(s, c, to, 0);
    if found.Some? { BalanceAndVouch(s, c, found.value); }
    BooksBound(s);
  }

  lemma TransferSettled(s: State, c: Addr, to: Addr, amount: U64)
    requires Books(s)
    ensures var r := Transfer(s, c, to, amount);
            r.Ok? ==> Settled(s, r.value, ToBonds(MsgTransfer(c, to, amount)))
  {
    hide Parties, Supply, CreditAccount, Debit;
    var r := Transfer(s, c, to, amount);
    if r.Ok? {
      DebitCosts(s, c, amount);
      DebitExact(s, c, amount);
      var t := Debit(s, c, amount).value;
      RoomFor(t, to);
      BooksBound(s);
      CreditPays(t, to, amount);
    }
  }

  lemma PostingCosts(s: State, c: Addr, amount: U64, purpose: string, slasher: Addr, ref: string)
    ensures var r := PostBond(s, c, amount, purpose, slasher, ref);
            r.Ok? ==> Settled(s, r.value, ToBonds(MsgPostBond(c, amount, purpose, slasher, ref)))
  {
    hide LockBond;
    LockBondCosts(s, c, amount, purpose, slasher, ref);
  }

  lemma ReleasePays(s: State, c: Addr, id: nat)
    requires Books(s)
    ensures var r := ReleaseBond(s, c, id);
            r.Ok? ==> Settled(s, r.value, ToBonds(MsgReleaseBond(c, id)))
  {
    hide Keyed, Supply, SettleBond;
    if IsActive(s, id) {
      PosterKnown(s, id);
      SettleBondPays(s, id, s.bonds[id].poster, Freed);
    }
  }

  lemma SlashPays(s: State, c: Addr, id: nat, beneficiary: Addr)
    requires Books(s)
    ensures var r := SlashBond(s, c, id, beneficiary);
            r.Ok? ==> Settled(s, r.value, ToBonds(MsgSlashBond(c, id, beneficiary)))
  {
    hide Keyed, Parties, Supply, CreditAccount;
    if IsActive(s, id) {
      BalanceAndBond(s, beneficiary, id);
      BooksBound(s);
      CreditPays(s, beneficiary, s.bonds[id].amount);
    }
  }

  lemma RegisteringCostsNothing(s: State, c: Addr)
    requires Books(s)
    ensures var r := Register(s, c);
            r.Ok? ==> Settled(s, r.value, ToBonds(MsgRegister(c)))
  {
    hide Parties, Supply;
  }

  lemma BondsSettled(s: State, x: BondMsg)
    requires Books(s)
    ensures var r := HandleBond(s, x);
            r.Ok? ==> Settled(s, r.value, ToBonds(x))
  {
    hide Books, Settled, Register, Transfer, CastVouch, Unvouch, PostBond, ReleaseBond, SlashBond;
    match x
    case MsgRegister(c) => RegisteringCostsNothing(s, c);
    case MsgTransfer(c, to, amount) => TransferSettled(s, c, to, amount);
    case MsgCastVouch(c, to, weight, stake) => VouchingCosts(s, c, to, weight, stake);
    case MsgUnvouch(c, to) => UnvouchingPays(s, c, to);
    case MsgPostBond(c, amount, purpose, slasher, ref) => PostingCosts(s, c, amount, purpose, slasher, ref);
    case MsgReleaseBond(c, id) => ReleasePays(s, c, id);
    case MsgSlashBond(c, id, beneficiary) => SlashPays(s, c, id, beneficiary);
  }

  // ---- Gates and awards ---------------------------------------------------

  lemma AwardPays(env: Env, s: State, now: UnixTime, c: Addr, k: Contribution)
    requires Books(s)
    ensures var r := AwardContribution(env, s, now, c, k);
            r.Ok? ==> Settled(s, r.value, ToGates(MsgAwardContribution(c, k)))
  {
    hide Keyed, Parties, Supply, MintReward, CheckContribution, Awarded;
    var t := s.(awards := s.awards[s.awardSeq := Award(s.awardSeq, c, k)], awardSeq := s.awardSeq + 1);
    AwardContributionRecords(s, c, k);
    MintPays(t, now, k.recipient, k.amount);
  }

  lemma GateSettled(env: Env, s: State, now: UnixTime, c: Addr, id: nat, gold: string, salt: string)
    requires Books(s) && GatesSound(s, now)
    ensures var r := SettleGate(env, s, now, c, id, gold, salt);
            r.Ok? ==> Settled(s, r.value, ToGates(MsgSettleGate(c, id, gold, salt)))
  {
    hide Keyed, Parties, Supply, SettleGate, Wins, Revealed, Winning;
    var r := SettleGate(env, s, now, c, id, gold, salt);
    if r.Ok? {
      SettledGateStood(env, s, now, c, id, gold, salt);
      var answers := s.gates[id].answers;
      assert GateSound(s.gates[id], now);
      var w := Winning(answers, gold);
      WinnerFound(answers, gold, w);
      SettlementPays(env, s, now, now, c, id, gold, salt, w);
      forall v | Wins(answers, gold, v)
        ensures v == w
      {
        WinnerFound(answers, gold, v);
      }
    }
  }

  lemma SettledGateStood(env: Env, s: State, now: UnixTime, c: Addr, id: nat, gold: string, salt: string)
    ensures SettleGate(env, s, now, c, id, gold, salt).Ok? ==> id in s.gates
  {
    hide Winning, EqualFold, PayFrom;
  }

  lemma PostingGateCostsNothing(env: Env, s: State, now: UnixTime, c: Addr, uri: string, hash: string, gold: string, drip: U64, max: U64)
    ensures var r := PostGate(env, s, now, c, uri, hash, gold, drip, max);
            r.Ok? ==> r.value.accounts == s.accounts
  {
  }

  lemma AnsweringCostsNothing(env: Env, s: State, now: UnixTime, c: Addr, id: nat, text: string, salt: string)
    ensures CommitAnswer(s, now, c, id, text).Ok? ==> CommitAnswer(s, now, c, id, text).value.accounts == s.accounts
    ensures RevealAnswer(env, s, now, c, id, text, salt).Ok? ==> RevealAnswer(env, s, now, c, id, text, salt).value.accounts == s.accounts
  {
    hide IsHexSha256, EqualFold, Commitment;
  }

  lemma GatesSettled(env: Env, s: State, now: UnixTime, x: GateMsg)
    requires Books(s) && GatesSound(s, now)
    ensures var r := HandleGate(env, s, now, x);
            r.Ok? ==> Settled(s, r.value, ToGates(x))
  {
    hide Books, GatesSound, PostGate, CommitAnswer, RevealAnswer, SettleGate, AwardContribution, Wins;
    match x
    case MsgPostGate(c, uri, hash, gold, drip, max) => PostingGateCostsNothing(env, s, now, c, uri, hash, gold, drip, max);
    case MsgCommitAnswer(c, id, commit) => AnsweringCostsNothing(env, s, now, c, id, commit, "");
    case MsgRevealAnswer(c, id, answer, salt) => AnsweringCostsNothing(env, s, now, c, id, answer, salt);
    case MsgSettleGate(c, id, gold, salt) => GateSettled(env, s, now, c, id, gold, salt);
    case MsgAwardContribution(c, k) => AwardPays(env, s, now, c, k);
  }

  // ---- Every message, every account ---------------------------------------

  /** Whatever the message, its signer pays exactly what it puts up, every account receives exactly what the
      stores say is its due, and no other coin moves between accounts. */
  lemma EveryBalance(env: Env, s: State, now: UnixTime, m: Msg)
    requires Books(s) && InCustody(env, s, now) && GatesSound(s, now)
    ensures var r := Step(env, s, now, m);
            r.Ok? ==> forall a :: BalanceAt(r.value, a) + (if a == Signer(m) then Outlay(m) else 0) == BalanceAt(s, a) + Income(s, m, a)
  {
    hide Books, InCustody, GatesSound, HandleEscrow, HandleJury, HandleBond, HandleGate;
    match m
    case ToEscrows(x) => EscrowsSettled(env, s, now, x);
    case ToJury(x) => JurySettled(env, s, now, x);
    case ToBonds(x) => BondsSettled(s, x);
    case ToGates(x) => GatesSettled(env, s, now, x);
  }

  /** All that account `a` puts up in a run, by messages of its own that succeed. */
  function PutUp(env: Env, s: State, txs: seq<Tx>, a: Addr): nat
    decreases |txs|
  {
    if txs == [] then 0
    else
      var now, m := txs[0].now, txs[0].msg;
      (if Step(env, s, now, m).Ok? && Signer(m) == a then Outlay(m) else 0) + PutUp(env, Apply(env, s, now, m), txs[1..], a)
  }

  /** Nobody loses coin to another's message: over any run an account's balance falls by at most what its own
      messages put up. */
  lemma {:induction false} OnlySignersPay(env: Env, s: State, clock: int, txs: seq<Tx>, a: Addr)
    requires Books(s) && InCustody(env, s, clock) && GatesSound(s, clock) && InOrder(clock, txs)
    ensures BalanceAt(Run(env, s, txs), a) + PutUp(env, s, txs, a) >= BalanceAt(s, a)
    decreases |txs|
  {
    hide Keyed, Parties, Supply, InCustody, GatesSound, Step, Income, Outlay, Signer;
    if txs != [] {
      var now, m, rest := txs[0].now, txs[0].msg, txs[1..];
      LaterClock(env, s, clock, now);
      GatesLater(s, clock, now);
      EveryBalance(env, s, now, m);
      StepBalanced(env, s, now, m);
      StepKeepsCustody(env, s, now, m);
      StepGatesSound(env, s, now, m);
      assert InOrder(now, rest);
      OnlySignersPay(env, Apply(env, s, now, m), now, rest, a);
    }
  }
}
