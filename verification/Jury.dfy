/** Handlers of the jury: opening a case, voting, and settling the verdict. */
module Jury {
  import opened Outcomes
  import opened Integers
  import opened Text
  import opened Types
  import opened Ledger
  import opened Escrows

  function FindDispute(s: State, id: nat): Result<Dispute> {
    if !(id in s.disputes) then Err(KeyNotFound) else
    Ok(s.disputes[id])
  }

  function PutDispute(s: State, d: Dispute): State {
    s.(disputes := s.disputes[d.id := d])
  }

  /** Whether `creator` may take this escrow to the jury at this time. */
  function MayDispute(e: Escrow, now: UnixTime, creator: Addr): Check {
    match e.status
    case Submitted => Pass
    case Disputed => Pass
    case FailAttested =>
      if creator != e.payee then Fail(Unauthorized) else Need(now < e.challengeDeadline, InvalidRequest)
    case Released =>
      if creator != e.payer then Fail(Unauthorized)
      else Need(e.attestations != [] && e.challengeDeadline != 0 && now < e.challengeDeadline, InvalidRequest)
    case _ => Fail(InvalidRequest)
  }

  function OpenDispute(s: State, now: UnixTime, creator: Addr, escrowId: nat, reason: string, bondAmount: U64): Result<State> {
    if creator == "" then Err(InvalidAddress) else
    var e :- FindEscrow(s, escrowId);
    :- Need(creator in {e.payer, e.payee}, Unauthorized);
    :- MayDispute(e, now, creator);
    :- Need(bondAmount >= MIN_DISPUTE_BOND, InvalidRequest);
    var id, bondId := s.disputeSeq, s.bondSeq;
    var s :- LockBond(s, creator, bondAmount, DisputePurpose(id), "", FormatUint(escrowId));
    var s := PutDispute(s, Dispute(id, escrowId, creator, reason, Open, Pending, [], bondId));
    Ok(PutEscrow(s, e.(status := if e.status == Released then Challenged else InJury)).(disputeSeq := id + 1))
  }

  predicate HasVoted(votes: seq<Vote>, juror: Addr) {
    exists i | 0 <= i < |votes| :: votes[i].juror == juror
  }

  function CastVote(env: Env, s: State, creator: Addr, disputeId: nat, accept: bool, stake: U64): Result<State> {
    if creator == "" then Err(InvalidAddress) else
    var d :- FindDispute(s, disputeId);
    :- Need(d.status == Open, InvalidRequest);
    :- Need(creator in env.anchors, Unauthorized);
    :- Need(!HasVoted(d.votes, creator), InvalidRequest);
    :- Need(stake >= MIN_JUROR_STAKE, InvalidRequest);
    var bondId := s.bondSeq;
    var s :- LockBond(s, creator, stake, JurorPurpose(d.id), "", FormatUint(d.id));
    Ok(PutDispute(s, d.(votes := d.votes + [Vote(creator, accept, bondId)])))
  }

  /** Votes for `side` among those from the `i`-th on. */
  function TallyFrom(votes: seq<Vote>, side: bool, i: nat): nat
    requires i <= |votes|
    decreases |votes| - i
  {
    if i == |votes| then 0
    else (if votes[i].accept == side then 1 else 0) + TallyFrom(votes, side, i + 1)
  }

  function Quorum(env: Env): nat {
    |env.anchors| / 2 + 1
  }

  /** The verdict the votes call for, if there is a quorum and a majority. */
  function Verdict(env: Env, d: Dispute): Result<bool> {
    var accept, reject := TallyFrom(d.votes, true, 0), TallyFrom(d.votes, false, 0);
    :- Need(|d.votes| >= Quorum(env), InvalidRequest);
    :- Need(accept != reject, InvalidRequest);
    Ok(accept > reject)
  }

  /** Where the escrowed money goes: nowhere for a challenge, else to the winner. */
  function SettleEscrow(s: State, now: UnixTime, e: Escrow, accept: bool): Result<State> {
    if e.status == Challenged then
      Ok(PutEscrow(s, e.(status := Released)))
    else if accept then
      var s :- CreditAccount(s, e.payee, e.amount);
      Ok(PutEscrow(s, e.(status := Released, releasedAt := now)))
    else
      var s :- CreditAccount(s, e.payer, e.amount);
      Ok(PutEscrow(s, e.(status := Refunded)))
  }

  /** The first verifier that passed, from the `i`-th attestation on, or `other`. */
  function FirstPassFrom(attestations: seq<Attestation>, i: nat, other: Addr): Addr
    requires i <= |attestations|
    decreases |attestations| - i
  {
    if i == |attestations| then other
    else if attestations[i].passed then attestations[i].verifier
    else FirstPassFrom(attestations, i + 1, other)
  }

  predicate OpenerUpheld(e: Escrow, d: Dispute, accept: bool) {
    (d.opener == e.payer && !accept) || (d.opener == e.payee && accept)
  }

  /** Who receives the opener's bond. */
  function DisputeBondRecipient(e: Escrow, d: Dispute, accept: bool): Addr {
    if OpenerUpheld(e, d, accept) then d.opener
    else
      var griefed := if d.opener == e.payer then e.payee else e.payer;
      if e.status == Challenged then FirstPassFrom(e.attestations, 0, griefed) else griefed
  }

  function SettleDisputeBond(s: State, e: Escrow, d: Dispute, accept: bool): Result<State> {
    if IsActive(s, d.bondId) && s.bonds[d.bondId].purpose == DisputePurpose(d.id) then
      SettleBond(s, d.bondId, DisputeBondRecipient(e, d, accept),
                 if OpenerUpheld(e, d, accept) then Freed else Slashed)
    else Ok(s)
  }

  /** A verdict backed by a stake: a juror's vote or a verifier's attestation. */
  datatype Stake = Stake(bondId: nat, owner: Addr, verdict: bool)

  function VoteStake(v: Vote): Stake { Stake(v.bondId, v.juror, v.accept) }
  function AttestationStake(a: Attestation): Stake { Stake(a.bondId, a.verifier, a.passed) }

  function VoteStakes(votes: seq<Vote>): (r: seq<Stake>)
    ensures |r| == |votes|
  {
    seq(|votes|, i requires 0 <= i < |votes| => VoteStake(votes[i]))
  }

  function AttestationStakes(attestations: seq<Attestation>): (r: seq<Stake>)
    ensures |r| == |attestations|
  {
    seq(|attestations|, i requires 0 <= i < |attestations| => AttestationStake(attestations[i]))
  }

  /** Return the stake of a coherent verdict, give that of an incoherent one to the winner. */
  function SettleStake(s: State, k: Stake, purpose: string, accept: bool, winner: Addr): Result<State> {
    if IsActive(s, k.bondId) && s.bonds[k.bondId].purpose == purpose then
      if k.verdict == accept then SettleBond(s, k.bondId, k.owner, Freed)
      else SettleBond(s, k.bondId, winner, Slashed)
    else Ok(s)
  }

  function SettleStakes(s: State, stakes: seq<Stake>, purpose: string, accept: bool, winner: Addr): Result<State>
    decreases |stakes|
  {
    if stakes == [] then Ok(s)
    else
      var s :- SettleStake(s, stakes[0], purpose, accept, winner);
      SettleStakes(s, stakes[1..], purpose, accept, winner)
  }

  function Winner(e: Escrow, accept: bool): Addr {
    if accept then e.payee else e.payer
  }

  /** Settle the escrow, the opener's bond, the jurors' stakes and the verifiers' stakes. */
  function SettleVerdict(s: State, now: UnixTime, d: Dispute, e: Escrow, accept: bool): Result<State> {
    var s :- SettleEscrow(s, now, e, accept);
    var s :- SettleDisputeBond(s, e, d, accept);
    var s :- SettleStakes(s, VoteStakes(d.votes), JurorPurpose(d.id), accept, Winner(e, accept));
    var s :- SettleStakes(s, AttestationStakes(e.attestations), AttestationPurpose(e.id), accept, Winner(e, accept));
    Ok(PutDispute(s, d.(status := Resolved, resolution := if accept then Accept else Reject)))
  }

  function ResolveDispute(env: Env, s: State, now: UnixTime, creator: Addr, disputeId: nat): Result<State> {
    if creator == "" then Err(InvalidAddress) else
    var d :- FindDispute(s, disputeId);
    :- Need(d.status == Open, InvalidRequest);
    var accept :- Verdict(env, d);
    :- Need(d.escrowId in s.escrows, StoreMiss);
    var e := s.escrows[d.escrowId];
    :- Need(e.status in {InJury, Challenged}, InvalidRequest);
    SettleVerdict(s, now, d, e, accept)
  }

  datatype JuryMsg =
    | MsgOpenDispute(creator: Addr, id: nat, reason: string, bond: U64)
    | MsgCastVote(creator: Addr, id: nat, accept: bool, stake: U64)
    | MsgResolveDispute(creator: Addr, id: nat)

  function HandleJury(env: Env, s: State, now: UnixTime, m: JuryMsg): Result<State> {
    match m
    case MsgOpenDispute(c, id, reason, bond) => OpenDispute(s, now, c, id, reason, bond)
    case MsgCastVote(c, id, accept, stake) => CastVote(env, s, c, id, accept, stake)
    case MsgResolveDispute(c, id) => ResolveDispute(env, s, now, c, id)
  }
}
