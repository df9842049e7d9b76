/** Why messages are refused: what each kind of error tells the sender. */
module Refusals {
  import opened Outcomes
  import opened Integers
  import opened Text
  import opened Types
  import opened Ledger
  import opened Escrows
  import opened Jury
  import opened Bonds
  import opened Gates
  import opened Machine
  import opened Conservation
  import opened Conserved
  import opened Custody
  import opened CustodyKept
  import opened Receipts
  import opened Admission

  /** The message names a record that is not there. */
  predicate Missing(s: State, m: Msg) {
    match m
    case ToEscrows(x) => !x.MsgLockEscrow? && x.id !in s.escrows
    case ToJury(x) => if x.MsgOpenDispute? then x.id !in s.escrows else x.id !in s.disputes
    case ToBonds(x) =>
      (match x
       case MsgReleaseBond(_, id) => id !in s.bonds
       case MsgSlashBond(_, id, _) => id !in s.bonds
       case MsgUnvouch(c, to) => to != "" && !Vouched(s, c, to)
       case _ => false)
    case ToGates(x) => (x.MsgCommitAnswer? || x.MsgRevealAnswer? || x.MsgSettleGate?) && x.id !in s.gates
  }

  /** Another address in the message is empty. */
  predicate Nameless(m: Msg) {
    match m
    case ToEscrows(MsgLockEscrow(q)) => q.payee == "" || "" in q.verifierAddrs
    case ToBonds(MsgTransfer(_, to, _)) => to == ""
    case ToBonds(MsgCastVouch(_, to, _, _)) => to == ""
    case ToBonds(MsgUnvouch(_, to)) => to == ""
    case ToBonds(MsgPostBond(_, _, _, slasher, _)) => slasher == ""
    case ToGates(MsgAwardContribution(_, k)) => k.recipient == "" || k.contributor == ""
    case _ => false
  }

  /** What the signer could spend on the message. */
  ghost function Means(s: State, m: Msg): nat {
    (if Signer(m) in s.accounts then s.accounts[Signer(m)].balance else 0)
    + (match m case ToBonds(MsgCastVouch(c, to, _, _)) => StandingStake(s, c, to) case _ => 0)
  }

  /** What an error of a kind means. */
  ghost predicate Tells(s: State, m: Msg, error: Error) {
    && error != StoreMiss
    && (Signer(m) == "" ==> error == InvalidAddress)
    && (error == InvalidAddress ==> Signer(m) == "" || Nameless(m))
    && (Signer(m) != "" ==> (error == KeyNotFound <==> Missing(s, m)))
    && (error == InsufficientFunds ==> Means(s, m) < Outlay(m))
  }

  lemma {:induction false} VerifierFault(payer: Addr, payee: Addr, verifiers: seq<Addr>, seen: set<Addr>)
    ensures var r := CheckVerifiers(payer, payee, verifiers, seen);
            r.Fail? ==> r.error in {InvalidAddress, InvalidRequest} && (r.error == InvalidAddress ==> "" in verifiers)
    decreases |verifiers|
  {
    if verifiers != [] { VerifierFault(payer, payee, verifiers[1..], seen + {verifiers[0]}); }
  }

  lemma LockTells(s: State, now: UnixTime, q: LockRequest)
    ensures var r := LockEscrow(s, now, q);
            r.Err? ==> Tells(s, ToEscrows(MsgLockEscrow(q)), r.error)
  {
    hide CheckVerifiers, IsHexSha256;
    VerifierFault(q.payer, q.payee, q.verifierAddrs, {});
  }

  lemma AttestTells(s: State, now: UnixTime, x: EscrowMsg)
    requires x.MsgAttestEscrow?
    ensures var r := AttestEscrow(s, now, x.creator, x.id, x.passed, x.stake, x.deliveryHash, x.keyHash, x.acceptanceHash);
            r.Err? ==> Tells(s, ToEscrows(x), r.error)
  {
    hide EqualFold, FormatUint;
  }

  lemma MoveTells(env: Env, s: State, now: UnixTime, x: EscrowMsg)
    requires Books(s) && !x.MsgLockEscrow? && !x.MsgAttestEscrow?
    ensures var r := HandleEscrow(env, s, now, x);
            r.Err? ==> Tells(s, ToEscrows(x), r.error)
  {
    hide Supply, ReclaimFrom, PassesFrom, KeyMatches, IsHexSha256;
    if x.id in s.escrows && x.MsgReclaimAttestationBonds? { ReclaimFromBalanced(s, s.escrows[x.id], 0); }
  }

  lemma JuryTells(env: Env, s: State, now: UnixTime, x: JuryMsg)
    requires Books(s) && InCustody(env, s, now)
    ensures var r := HandleJury(env, s, now, x);
            r.Err? ==> Tells(s, ToJury(x), r.error)
  {
    hide Keyed, Parties, Supply, InCustody, SettleVerdict, FormatUint, EscrowTerms, DisputeTerms, EscrowBacked, DisputeBacked;
    if x.MsgResolveDispute? && x.id in s.disputes && s.disputes[x.id].status == Open && Verdict(env, s.disputes[x.id]).Ok? {
      var d := s.disputes[x.id];
      DisputeAt(env, s, now, x.id);
      EscrowOf(s, d.escrowId);
      SettleVerdictBalanced(s, now, d, s.escrows[d.escrowId], Verdict(env, d).value);
    }
  }

  lemma BondTells(s: State, x: BondMsg)
    requires Books(s)
    ensures var r := HandleBond(s, x);
            r.Err? ==> Tells(s, ToBonds(x), r.error)
  {
    hide Supply, CastVouch, Unvouch, Vouched, FormatUint, StandingStake;
    if x.MsgCastVouch? { VouchTells(s, x.creator, x.to, x.weight, x.stake); }
    if x.MsgUnvouch? { UnvouchTells(s, x.creator, x.to); }
  }

  lemma VouchTells(s: State, c: Addr, to: Addr, weight: U64, stake: U64)
    requires Books(s)
    ensures var r := CastVouch(s, c, to, weight, stake);
            r.Err? ==> Tells(s, ToBonds(MsgCastVouch(c, to, weight, stake)), r.error)
  {
    hide Keyed, Parties, Supply, FindVouch, StandingStake;
    StandingStakeIs(s, c, to);
    var found := FindVouch(s, c, to, 0);
    if found.Some? { BalanceAndVouch(s, c, found.value); }
    BooksBound(s);
  }

  lemma UnvouchTells(s: State, c: Addr, to: Addr)
    requires Books(s)
    ensures var r := Unvouch(s, c, to);
            r.Err? ==> Tells(s, ToBonds(MsgUnvouch(c, to)), r.error)
  {
    hide Keyed, Supply, FindVouch, Vouched, StandingStake;
    VouchFound(s, c, to);
  }

  lemma {:induction false} PayTells(s: State, now: UnixTime, g: Gate, winning: string, i: nat)
    requires i <= |g.answers|
    ensures var r := PayFrom(s, now, g, winning, i);
            r.Err? ==> r.error == InvalidRequest
    decreases |g.answers| - i
  {
    if i < |g.answers| {
      hide MintReward;
      var m := MintReward(s, now, g.answers[i].agent, g.drip);
      MintTells(s, now, g.answers[i].agent, g.drip);
      if Coherent(g.answers[i], winning) && m.Ok? { PayTells(m.value, now, g, winning, i + 1); } else { PayTells(s, now, g, winning, i + 1); }
    }
  }

  lemma MintTells(s: State, now: UnixTime, to: Addr, amount: U64)
    ensures var r := MintReward(s, now, to, amount);
            r.Err? ==> r.error == InvalidRequest
  {
    hide Emission.Sync;
  }

  lemma GateTells(env: Env, s: State, now: UnixTime, x: GateMsg)
    ensures var r := HandleGate(env, s, now, x);
            r.Err? ==> Tells(s, ToGates(x), r.error)
  {
    hide PayFrom, MintReward, Winning, IsHexSha256, EqualFold, Awarded, FindAnswer;
    match x
    case MsgSettleGate(c, id, gold, salt) =>
      if id in s.gates { PayTells(s, now, s.gates[id], Winning(s.gates[id].answers, gold), 0); }
    case MsgAwardContribution(c, k) =>
      MintTells(s.(awards := s.awards[s.awardSeq := Award(s.awardSeq, c, k)], awardSeq := s.awardSeq + 1), now, k.recipient, k.amount);
    case _ =>
  }

  /** In a state with books and custody in order: a refusal never comes from a store that should have held a
      record; an invalid address means that the signer or another address is empty; a missing key means, for a
      named signer, exactly that the message names a record that is not there; and insufficient funds that the
      signer has less than it would put up. */
  lemma RefusalTells(env: Env, s: State, now: UnixTime, m: Msg)
    requires Books(s) && InCustody(env, s, now)
    ensures var r := Step(env, s, now, m);
            r.Err? ==> Tells(s, m, r.error)
  {
    hide Books, InCustody, Tells, HandleEscrow, HandleJury, HandleBond, HandleGate;
    match m
    case ToEscrows(x) => EscrowTells(env, s, now, x);
    case ToJury(x) => JuryTells(env, s, now, x);
    case ToBonds(x) => BondTells(s, x);
    case ToGates(x) => GateTells(env, s, now, x);
  }

  lemma EscrowTells(env: Env, s: State, now: UnixTime, x: EscrowMsg)
    requires Books(s)
    ensures var r := HandleEscrow(env, s, now, x);
            r.Err? ==> Tells(s, ToEscrows(x), r.error)
  {
    hide Books, Tells, LockEscrow, AttestEscrow;
    if x.MsgLockEscrow? { LockTells(s, now, x.request); }
    else if x.MsgAttestEscrow? { AttestTells(s, now, x); }
    else { MoveTells(env, s, now, x); }
  }
}
