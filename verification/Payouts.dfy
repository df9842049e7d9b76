/** Who may take the money out of an escrow, and how often. */
module Payouts {
  import opened Outcomes
  import opened Integers
  import opened Types
  import opened Ledger
  import opened Escrows
  import opened Jury
  import opened Bonds
  import opened Gates
  import opened Machine
  import opened Conservation
  import opened Conserved
  import opened Custody
  import opened CustodyKept
  import opened Lives
  import opened Settlement

  // ---- Paid out at most once ----------------------------------------------

  predicate Funded(s: State, id: nat) {
    id in s.escrows && Held(s.escrows[id].status)
  }

  /** The coin escrow `id` holds. */
  function HoldingAt(s: State, id: nat): nat {
    if id in s.escrows then Holding(s.escrows[id]) else 0
  }

  /** All coin that leaves escrow `id` over a run, step by step. */
  function Outflow(env: Env, s: State, txs: seq<Tx>, id: nat): nat
    decreases |txs|
  {
    if txs == [] then 0
    else
      var t := Apply(env, s, txs[0].now, txs[0].msg);
      (if HoldingAt(s, id) > HoldingAt(t, id) then HoldingAt(s, id) - HoldingAt(t, id) else 0) + Outflow(env, t, txs[1..], id)
  }

  /** How many transactions of a run take escrow `id` from funded to settled. */
  function Payouts(env: Env, s: State, txs: seq<Tx>, id: nat): nat
    decreases |txs|
  {
    if txs == [] then 0
    else
      var t := Apply(env, s, txs[0].now, txs[0].msg);
      (if Funded(s, id) && !Funded(t, id) then 1 else 0) + Payouts(env, t, txs[1..], id)
  }

  /** However often a released escrow is challenged and restored, its money leaves it at most once and
      never comes back: over a run, what flows out is exactly what it held at first less what it holds at
      last, all of it in one transaction or nothing. */
  lemma {:induction false} PaidOutAtMostOnce(env: Env, s: State, txs: seq<Tx>, id: nat)
    requires Books(s)
    ensures Payouts(env, s, txs, id) <= 1
    ensures id in s.escrows && !Held(s.escrows[id].status) ==> Payouts(env, s, txs, id) == 0
    ensures id in s.escrows ==>
              && Outflow(env, s, txs, id) + HoldingAt(Run(env, s, txs), id) == HoldingAt(s, id)
              && Outflow(env, s, txs, id) == Payouts(env, s, txs, id) * s.escrows[id].amount
    decreases |txs|
  {
    hide Keyed, Parties, Supply, Step, TouchesOnly;
    if txs != [] {
      var now, m := txs[0].now, txs[0].msg;
      StepEffect(env, s, now, m);
      StepBalanced(env, s, now, m);
      NothingEvolves(s);
      PaidOutAtMostOnce(env, Apply(env, s, now, m), txs[1..], id);
    }
  }

  // ---- By whose authority -------------------------------------------------

  /** A quorum of distinct verifiers named by the deal passed the delivery as submitted, each with at
      least the escrowed amount still at stake; and the key the seller committed to was shown. */
  ghost predicate QuorumStands(env: Env, s: State, e: Escrow, key: string) {
    && e.status == Submitted && |e.attestations| >= e.verifierQuorum
    && AllPassed(e) && KeyMatches(env, e, key)
    && (forall i, j | 0 <= i < j < |e.attestations| :: e.attestations[i].verifier != e.attestations[j].verifier)
    && (forall i | 0 <= i < |e.attestations| ::
          && e.attestations[i].verifier in e.verifierAddrs && Pinned(e, e.attestations[i])
          && Backs(s.bonds, e.attestations[i].bondId, AttestationPurpose(e.id), e.attestations[i].verifier)
          && s.bonds[e.attestations[i].bondId].status == Active
          && s.bonds[e.attestations[i].bondId].amount >= e.amount)
  }

  /** A jury verdict on escrow `id`. */
  predicate ByVerdict(env: Env, s: State, m: Msg, id: nat, accept: bool) {
    && m.ToJury? && m.jury.MsgResolveDispute? && OpenOn(s, m.jury.id, id)
    && Verdict(env, s.disputes[m.jury.id]) == Ok(accept)
  }

  ghost predicate ReleaseAuthorised(env: Env, s: State, now: int, m: Msg, e: Escrow) {
    || m == ToEscrows(MsgReleaseEscrow(e.payer, e.id))
    || (m.ToEscrows? && m.escrow.MsgReleaseEscrow? && m.escrow.id == e.id
        && e.verifierAddrs == [] && !e.noAutoRelease && e.status != Disputed && now >= e.deadline)
    || (m.ToEscrows? && m.escrow.MsgVerifiedRelease? && m.escrow.id == e.id
        && e.verifierAddrs != [] && QuorumStands(env, s, e, m.escrow.key))
    || (e.status == InJury && ByVerdict(env, s, m, e.id, true))
  }

  ghost predicate RefundAuthorised(env: Env, s: State, now: int, m: Msg, e: Escrow) {
    || (m == ToEscrows(MsgRefundEscrow(e.payer, e.id)) && e.status == Locked && now < e.deadline)
    || (m == ToEscrows(MsgRefundEscrow(e.payer, e.id)) && e.status == FailAttested && FailOpened(e)
        && now >= e.challengeDeadline && forall k | k in s.disputes :: s.disputes[k].escrowId != e.id)
    || (e.status == InJury && ByVerdict(env, s, m, e.id, false))
  }

  /** The escrow whose money a message may move is the one it names. */
  lemma SettledByName(env: Env, s: State, now: UnixTime, m: Msg, id: nat)
    requires Books(s) && Funded(s, id)
    ensures var r := Step(env, s, now, m);
            r.Ok? && !Funded(r.value, id) ==>
              || (m.ToEscrows? && (m.escrow.MsgReleaseEscrow? || m.escrow.MsgRefundEscrow? || m.escrow.MsgVerifiedRelease?)
                  && m.escrow.id == id)
              || (m.ToJury? && m.jury.MsgResolveDispute? && OpenOn(s, m.jury.id, id) && s.escrows[id].status == InJury)
  {
    hide Keyed, Parties, Supply, HandleBond, HandleGate, OpenDispute, CastVote, ResolveDispute, TouchesOnly, Evolves,
         LockEscrow, AttestEscrow, ReclaimFrom, ReleaseEscrow, RefundEscrow, VerifiedRelease;
    var r := Step(env, s, now, m);
    if r.Ok? && !Funded(r.value, id) {
      match m {
        case ToEscrows(x) =>
          if x.MsgLockEscrow? { LockEscrowEffect(s, now, x.request); }
          else if x.MsgAttestEscrow? {
            AttestEscrowEffect(s, now, x.creator, x.id, x.passed, x.stake, x.deliveryHash, x.keyHash, x.acceptanceHash);
          }
          else if x.MsgReclaimAttestationBonds? { ReclaimTouches(s, s.escrows[x.id], 0); }
          else { MoveEffect(env, s, now, x); EscrowOf(s, id); }
        case ToJury(x) =>
          match x {
            case MsgOpenDispute(c, k, reason, bond) => OpenDisputeEffect(s, now, c, k, reason, bond);
            case MsgCastVote(c, k, accept, stake) => CastVoteEffect(env, s, c, k, accept, stake);
            case MsgResolveDispute(c, k) => ResolveDisputeEffect(env, s, now, c, k);
          }
        case ToBonds(b) =>
          if b.MsgPostBond? || b.MsgReleaseBond? || b.MsgSlashBond? { CollateralFrame(s, b); } else { MoneyFrame(s, b); }
        case ToGates(g) => GatesFrame(env, s, now, g);
      }
    }
  }

  lemma QuorumIsReal(env: Env, s: State, now: int, e: Escrow, key: string)
    requires Keyed(s) && InCustody(env, s, now) && e.id in s.escrows && e == s.escrows[e.id] && e.status == Submitted
    requires PassesFrom(e, 0) >= e.verifierQuorum && KeyMatches(env, e, key)
    ensures QuorumStands(env, s, e, key)
  {
    EscrowAt(env, s, now, e.id);
    PassesAtMost(e, 0);
  }

  predicate IsNow(s: State, id: nat, status: EscrowStatus) {
    id in s.escrows && s.escrows[id].status == status
  }

  /** `to` has gained the escrow's whole amount. */
  predicate Gained(s: State, t: State, to: Addr, amount: nat) {
    BalanceAt(t, to) >= BalanceAt(s, to) + amount
  }

  lemma ReleaseEscrowAuthority(env: Env, s: State, now: UnixTime, c: Addr, id: nat)
    requires Books(s) && InCustody(env, s, now) && Funded(s, id)
    ensures var r := ReleaseEscrow(s, now, c, id);
            r.Ok? ==> ReleaseAuthorised(env, s, now, ToEscrows(MsgReleaseEscrow(c, id)), s.escrows[id])
                      && Gained(s, r.value, s.escrows[id].payee, s.escrows[id].amount)
  {
    hide Books, InCustody, CreditAccount;
    var r, e := ReleaseEscrow(s, now, c, id), s.escrows[id];
    EscrowNamed(env, s, now, id);
    EscrowRoom(s, e, e.payee);
    CreditPays(s, e.payee, e.amount);
  }

  lemma EscrowNamed(env: Env, s: State, now: int, id: nat)
    requires Books(s) && InCustody(env, s, now) && id in s.escrows
    ensures s.escrows[id].id == id && EscrowTerms(s.escrows[id])
  {
  }

  lemma VerifiedReleaseAuthority(env: Env, s: State, now: UnixTime, c: Addr, id: nat, key: string)
    requires Books(s) && InCustody(env, s, now) && Funded(s, id)
    ensures var r := VerifiedRelease(env, s, now, c, id, key);
            r.Ok? ==> ReleaseAuthorised(env, s, now, ToEscrows(MsgVerifiedRelease(c, id, key)), s.escrows[id])
                      && Gained(s, r.value, s.escrows[id].payee, s.escrows[id].amount)
  {
    hide InCustody, QuorumStands, KeyMatches, Parties, Supply;
    var r := VerifiedRelease(env, s, now, c, id, key);
    if r.Ok? {
      EscrowNamed(env, s, now, id);
      EscrowRoom(s, s.escrows[id], s.escrows[id].payee);
      QuorumIsReal(env, s, now, s.escrows[id], key);
    }
  }

  lemma RefundEscrowAuthority(env: Env, s: State, now: UnixTime, c: Addr, id: nat)
    requires Books(s) && InCustody(env, s, now) && Funded(s, id)
    ensures var r := RefundEscrow(s, now, c, id);
            r.Ok? ==> RefundAuthorised(env, s, now, ToEscrows(MsgRefundEscrow(c, id)), s.escrows[id])
                      && Gained(s, r.value, s.escrows[id].payer, s.escrows[id].amount)
  {
    hide Books, InCustody, CreditAccount;
    var r, e := RefundEscrow(s, now, c, id), s.escrows[id];
    EscrowNamed(env, s, now, id);
    EscrowRoom(s, e, e.payer);
    CreditPays(s, e.payer, e.amount);
    if r.Ok? { NoCaseYet(env, s, now, id); }
  }

  lemma VerdictAuthority(env: Env, s: State, now: UnixTime, c: Addr, k: nat, id: nat)
    requires Books(s) && InCustody(env, s, now) && IsNow(s, id, InJury) && OpenOn(s, k, id)
    ensures var r := ResolveDispute(env, s, now, c, k);
            r.Ok? ==>
              && Verdict(env, s.disputes[k]).Ok?
              && var accept := Verdict(env, s.disputes[k]).value;
              && IsNow(r.value, id, if accept then Released else Refunded)
              && Gained(s, r.value, Winner(s.escrows[id], accept), s.escrows[id].amount)
  {
    hide Keyed, Parties, Supply, InCustody, SettleVerdict, EscrowTerms, EscrowBacked, DisputeTerms, DisputeBacked, Due, Verdict;
    var r := ResolveDispute(env, s, now, c, k);
    if r.Ok? {
      DisputeAt(env, s, now, k);
      EscrowAt(env, s, now, id);
      ResolveDisputeEffect(env, s, now, c, k);
      SettleVerdictPays(env, s, now, s.disputes[k], s.escrows[id], Verdict(env, s.disputes[k]).value);
    }
  }

  /** A funded escrow is released only by its payer; or after its deadline, if no verifier or jury is
      bound to it; or by a standing quorum and the key; or by the jury. The payee receives the whole
      amount. In particular the clock never releases a verifier-bound escrow. */
  lemma ReleaseAuthority(env: Env, s: State, now: UnixTime, m: Msg, id: nat)
    requires Books(s) && InCustody(env, s, now) && Funded(s, id)
    ensures var r := Step(env, s, now, m);
            r.Ok? && IsNow(r.value, id, Released) ==>
              && ReleaseAuthorised(env, s, now, m, s.escrows[id])
              && Gained(s, r.value, s.escrows[id].payee, s.escrows[id].amount)
  {
    hide Keyed, Parties, Supply, InCustody, ReleaseAuthorised, RefundAuthorised, HandleBond, HandleGate, OpenDispute, CastVote,
         ResolveDispute, ReleaseEscrow, VerifiedRelease, LockEscrow, AttestEscrow, ReclaimAttestationBonds;
    var r := Step(env, s, now, m);
    if r.Ok? && IsNow(r.value, id, Released) {
      SettledByName(env, s, now, m, id);
      if m.ToJury? {
        VerdictAuthority(env, s, now, m.jury.creator, m.jury.id, id);
        EscrowNamed(env, s, now, id);
        ReleaseByJury(env, s, now, m, id);
      } else if m.escrow.MsgReleaseEscrow? {
        ReleaseEscrowAuthority(env, s, now, m.escrow.creator, id);
      } else if m.escrow.MsgVerifiedRelease? {
        VerifiedReleaseAuthority(env, s, now, m.escrow.creator, id, m.escrow.key);
      }
    }
  }

  lemma ReleaseByJury(env: Env, s: State, now: int, m: Msg, id: nat)
    requires IsNow(s, id, InJury) && s.escrows[id].id == id && ByVerdict(env, s, m, id, true)
    ensures ReleaseAuthorised(env, s, now, m, s.escrows[id])
  {
  }

  /** A funded escrow is refunded only to its payer: by the payer before the deadline while nothing was
      submitted; by the payer once a staked fail verdict stood uncontested for its whole window; or by
      the jury. */
  lemma RefundAuthority(env: Env, s: State, now: UnixTime, m: Msg, id: nat)
    requires Books(s) && InCustody(env, s, now) && Funded(s, id)
    ensures var r := Step(env, s, now, m);
            r.Ok? && IsNow(r.value, id, Refunded) ==>
              && RefundAuthorised(env, s, now, m, s.escrows[id])
              && Gained(s, r.value, s.escrows[id].payer, s.escrows[id].amount)
  {
    hide Keyed, Parties, Supply, InCustody, ReleaseAuthorised, HandleBond, HandleGate, OpenDispute, CastVote,
         ResolveDispute, RefundEscrow, LockEscrow, AttestEscrow, ReclaimAttestationBonds;
    var r := Step(env, s, now, m);
    if r.Ok? && IsNow(r.value, id, Refunded) {
      SettledByName(env, s, now, m, id);
      EscrowNamed(env, s, now, id);
      if m.ToJury? {
        VerdictAuthority(env, s, now, m.jury.creator, m.jury.id, id);
      } else if m.escrow.MsgRefundEscrow? {
        RefundEscrowAuthority(env, s, now, m.escrow.creator, id);
      }
    }
  }

  // ---- To whom, to the unit -----------------------------------------------

  /** What else account `a` receives in the step: of a verdict, its share of the collateral; otherwise
      nothing. */
  function Besides(env: Env, s: State, m: Msg, id: nat, a: Addr): nat {
    if m.ToJury? && m.jury.MsgResolveDispute? && m.jury.id in s.disputes && id in s.escrows && Verdict(env, s.disputes[m.jury.id]).Ok?
    then CollateralPays(s, s.disputes[m.jury.id], s.escrows[id], Verdict(env, s.disputes[m.jury.id]).value, a)
    else 0
  }

  /** `party` alone has gained the amount, on top of what the step pays besides. */
  ghost predicate CreditedOnce(env: Env, s: State, t: State, m: Msg, id: nat, party: Addr) {
    id in s.escrows
    && forall a :: BalanceAt(t, a) == BalanceAt(s, a) + (if a == party then s.escrows[id].amount else 0) + Besides(env, s, m, id, a)
  }

  lemma EscrowMsgCredits(env: Env, s: State, now: UnixTime, m: EscrowMsg, id: nat)
    requires Books(s) && Funded(s, id) && s.escrows[id].id == id
    requires (m.MsgReleaseEscrow? || m.MsgRefundEscrow? || m.MsgVerifiedRelease?) && m.id == id
    ensures var r := HandleEscrow(env, s, now, m); var e := s.escrows[id];
            r.Ok? ==> id in r.value.escrows
                      && r.value.escrows[id].status == (if m.MsgRefundEscrow? then Refunded else Released)
                      && CreditedOnce(env, s, r.value, ToEscrows(m), id, if m.MsgRefundEscrow? then e.payer else e.payee)
  {
    hide Books, PassesFrom, KeyMatches, LockEscrow, AttestEscrow, SubmitEscrow, DisputeEscrow, ReclaimAttestationBonds;
    EscrowRoom(s, s.escrows[id], s.escrows[id].payer);
    EscrowRoom(s, s.escrows[id], s.escrows[id].payee);
  }

  lemma VerdictCredits(env: Env, s: State, now: UnixTime, c: Addr, k: nat, id: nat)
    requires Books(s) && InCustody(env, s, now) && IsNow(s, id, InJury) && OpenOn(s, k, id)
    ensures var r := ResolveDispute(env, s, now, c, k); var m := ToJury(MsgResolveDispute(c, k)); var e := s.escrows[id];
            r.Ok? ==> id in r.value.escrows && r.value.escrows[id].status in {Released, Refunded}
                      && CreditedOnce(env, s, r.value, m, id, if r.value.escrows[id].status == Refunded then e.payer else e.payee)
  {
    hide Keyed, Parties, Supply, InCustody, SettleVerdict, EscrowTerms, EscrowBacked, DisputeTerms, DisputeBacked, CollateralPays, Verdict;
    var r := ResolveDispute(env, s, now, c, k);
    if r.Ok? {
      DisputeAt(env, s, now, k);
      EscrowAt(env, s, now, id);
      ResolveDisputeEffect(env, s, now, c, k);
      SettleVerdictPays(env, s, now, s.disputes[k], s.escrows[id], Verdict(env, s.disputes[k]).value);
    }
  }

  /** The step that takes the money out of an escrow credits exactly one of its parties by exactly its
      amount: the payee of a released escrow, the payer of a refunded one. Besides, a verdict pays out
      collateral, and no other step changes any other balance. */
  lemma PayoutCreditsOneParty(env: Env, s: State, now: UnixTime, m: Msg, id: nat)
    requires Books(s) && InCustody(env, s, now) && Funded(s, id)
    ensures var r := Step(env, s, now, m); var e := s.escrows[id];
            r.Ok? && !Funded(r.value, id) ==>
              && id in r.value.escrows && r.value.escrows[id].status in {Released, Refunded}
              && CreditedOnce(env, s, r.value, m, id, if r.value.escrows[id].status == Refunded then e.payer else e.payee)
  {
    hide Keyed, Parties, Supply, InCustody, CreditedOnce, HandleBond, HandleGate, HandleEscrow, OpenDispute, CastVote, ResolveDispute;
    var r := Step(env, s, now, m);
    if r.Ok? && !Funded(r.value, id) {
      SettledByName(env, s, now, m, id);
      EscrowNamed(env, s, now, id);
      if m.ToJury? {
        VerdictCredits(env, s, now, m.jury.creator, m.jury.id, id);
      } else {
        EscrowMsgCredits(env, s, now, m.escrow, id);
      }
    }
  }
}
