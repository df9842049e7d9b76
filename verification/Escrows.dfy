/** Handlers that move an escrow through its life outside the jury. */
module Escrows {
  import opened Outcomes
  import opened Integers
  import opened Text
  import opened Types
  import opened Ledger

  function FindEscrow(s: State, id: nat): Result<Escrow> {
    if !(id in s.escrows) then Err(KeyNotFound) else
    Ok(s.escrows[id])
  }

  function PutEscrow(s: State, e: Escrow): State {
    s.(escrows := s.escrows[e.id := e])
  }

  /** The first fault in a verifier list, scanned in order, given the addresses already seen. */
  function CheckVerifiers(payer: Addr, payee: Addr, verifiers: seq<Addr>, seen: set<Addr>): Check
    decreases |verifiers|
  {
    if verifiers == [] then Pass
    else if verifiers[0] == "" then Fail(InvalidAddress)
    else if verifiers[0] in {payer, payee} || verifiers[0] in seen then Fail(InvalidRequest)
    else CheckVerifiers(payer, payee, verifiers[1..], seen + {verifiers[0]})
  }

  datatype LockRequest = LockRequest(
    payer: Addr,
    payee: Addr,
    amount: U64,
    ref: string,
    disputeSeconds: U64,
    noAutoRelease: bool,
    verifierAddrs: seq<Addr>,
    verifierQuorum: U64,
    acceptanceHash: string)

  function CheckVerifierTerms(m: LockRequest): Check {
    if |m.verifierAddrs| > 0 then
      if m.verifierQuorum == 0 || m.verifierQuorum > |m.verifierAddrs| then Fail(InvalidRequest)
      else if CheckVerifiers(m.payer, m.payee, m.verifierAddrs, {}).Fail?
      then CheckVerifiers(m.payer, m.payee, m.verifierAddrs, {})
      else Need(IsHexSha256(m.acceptanceHash), InvalidRequest)
    else
      Need(m.verifierQuorum == 0 && (m.acceptanceHash == "" || IsHexSha256(m.acceptanceHash)), InvalidRequest)
  }

  function LockEscrow(s: State, now: UnixTime, m: LockRequest): Result<State> {
    if m.payer == "" then Err(InvalidAddress) else
    :- ValidAddr(m.payee);
    :- Need(m.amount != 0, InvalidRequest);
    :- Need(m.payer != m.payee, InvalidRequest);
    :- CheckVerifierTerms(m);
    var _ :- Debit(s, m.payer, m.amount);
    var s :- EnsureRegistered(s, m.payee, m.amount);
    var s :- Debit(s, m.payer, m.amount);
    var e := Escrow(s.escrowSeq, m.payer, m.payee, m.amount, m.ref, Locked,
                    WrapInt64(now + ToInt64(m.disputeSeconds)),
                    m.noAutoRelease || |m.verifierAddrs| > 0,
                    "", m.verifierAddrs, m.verifierQuorum, m.acceptanceHash, "", 0, [], "", 0, 0);
    Ok(PutEscrow(s, e).(escrowSeq := s.escrowSeq + 1))
  }

  function SubmitEscrow(s: State, now: UnixTime, creator: Addr, id: nat,
                        deliveryHash: string, keyHash: string, artifactUri: string): Result<State>
  {
    if creator == "" then Err(InvalidAddress) else
    var e :- FindEscrow(s, id);
    :- Need(e.status == Locked, InvalidRequest);
    :- Need(creator == e.payee, Unauthorized);
    :- Need(e.verifierAddrs == [] || (IsHexSha256(deliveryHash) && IsHexSha256(keyHash)), InvalidRequest);
    :- Need(deliveryHash == "" || IsHexSha256(deliveryHash), InvalidRequest);
    :- Need(keyHash == "" || IsHexSha256(keyHash), InvalidRequest);
    Ok(PutEscrow(s, e.(status := Submitted, deliveryHash := deliveryHash, keyHash := keyHash,
                       artifactUri := artifactUri, submittedAt := now)))
  }

  function DisputeEscrow(s: State, creator: Addr, id: nat): Result<State> {
    if creator == "" then Err(InvalidAddress) else
    var e :- FindEscrow(s, id);
    :- Need(e.status == Submitted, InvalidRequest);
    :- Need(creator == e.payer, Unauthorized);
    :- Need(e.verifierAddrs == [], InvalidRequest);
    Ok(PutEscrow(s, e.(status := Disputed)))
  }

  function ReleaseEscrow(s: State, now: UnixTime, creator: Addr, id: nat): Result<State> {
    if creator == "" then Err(InvalidAddress) else
    var e :- FindEscrow(s, id);
    :- Need(e.status in {Locked, Submitted, Disputed, FailAttested}, InvalidRequest);
    :- Need(creator == e.payer || (e.status != Disputed && !e.noAutoRelease && now >= e.deadline), Unauthorized);
    var s :- CreditAccount(s, e.payee, e.amount);
    Ok(PutEscrow(s, e.(status := Released, releasedAt := now)))
  }

  function RefundEscrow(s: State, now: UnixTime, creator: Addr, id: nat): Result<State> {
    if creator == "" then Err(InvalidAddress) else
    var e :- FindEscrow(s, id);
    :- Need(e.status in {Locked, FailAttested}, InvalidRequest);
    :- Need(creator == e.payer, Unauthorized);
    :- Need(if e.status == FailAttested then now >= e.challengeDeadline else now < e.deadline, Unauthorized);
    var s :- CreditAccount(s, e.payer, e.amount);
    Ok(PutEscrow(s, e.(status := Refunded)))
  }

  predicate HasAttested(attestations: seq<Attestation>, verifier: Addr) {
    exists i | 0 <= i < |attestations| :: attestations[i].verifier == verifier
  }

  function AttestEscrow(s: State, now: UnixTime, creator: Addr, id: nat, passed: bool, stake: U64,
                        deliveryHash: string, keyHash: string, acceptanceHash: string): Result<State>
  {
    if creator == "" then Err(InvalidAddress) else
    var e :- FindEscrow(s, id);
    :- Need(e.status == Submitted, InvalidRequest);
    :- Need(creator in e.verifierAddrs, Unauthorized);
    :- Need(!HasAttested(e.attestations, creator), InvalidRequest);
    :- Need(EqualFold(deliveryHash, e.deliveryHash) && EqualFold(keyHash, e.keyHash)
            && EqualFold(acceptanceHash, e.acceptanceHash), InvalidRequest);
    :- Need(stake >= e.amount, InvalidRequest);
    var a := Attestation(creator, passed, s.bondSeq, e.deliveryHash, e.keyHash, e.acceptanceHash, now);
    var s :- LockBond(s, creator, stake, AttestationPurpose(e.id), "", FormatUint(e.id));
    var e := e.(attestations := e.attestations + [a]);
    Ok(PutEscrow(s, if passed then e
                    else e.(status := FailAttested, challengeDeadline := now + CHALLENGE_WINDOW_SECONDS)))
  }

  predicate CountsAsPass(e: Escrow, a: Attestation) {
    a.passed && EqualFold(a.deliveryHash, e.deliveryHash) && EqualFold(a.keyHash, e.keyHash)
    && EqualFold(a.acceptanceHash, e.acceptanceHash)
  }

  /** Pass verdicts among the attestations from the `i`-th on. */
  function PassesFrom(e: Escrow, i: nat): nat
    requires i <= |e.attestations|
    decreases |e.attestations| - i
  {
    if i == |e.attestations| then 0
    else (if CountsAsPass(e, e.attestations[i]) then 1 else 0) + PassesFrom(e, i + 1)
  }

  /** The key reveals what the payee committed to, or nothing was committed and nothing is shown. */
  predicate KeyMatches(env: Env, e: Escrow, key: string) {
    if e.keyHash != "" then EqualFold(env.sha256(key), e.keyHash) else key == ""
  }

  function VerifiedRelease(env: Env, s: State, now: UnixTime, creator: Addr, id: nat, key: string): Result<State> {
    if creator == "" then Err(InvalidAddress) else
    var e :- FindEscrow(s, id);
    :- Need(e.verifierAddrs != [], InvalidRequest);
    :- Need(e.status == Submitted, InvalidRequest);
    :- Need(PassesFrom(e, 0) >= e.verifierQuorum, InvalidRequest);
    :- Need(KeyMatches(env, e, key), InvalidRequest);
    var s :- CreditAccount(s, e.payee, e.amount);
    Ok(PutEscrow(s, e.(status := Released, releasedAt := now,
                       challengeDeadline := now + CHALLENGE_WINDOW_SECONDS)))
  }

  /** Free the still active stakes of the attestations from the `i`-th on. */
  function ReclaimFrom(s: State, e: Escrow, i: nat): Result<State>
    requires i <= |e.attestations|
    decreases |e.attestations| - i
  {
    if i == |e.attestations| then Ok(s)
    else
      var bondId := e.attestations[i].bondId;
      if IsActive(s, bondId) && s.bonds[bondId].purpose == AttestationPurpose(e.id) then
        var s :- SettleBond(s, bondId, s.bonds[bondId].poster, Freed);
        ReclaimFrom(s, e, i + 1)
      else
        ReclaimFrom(s, e, i + 1)
  }

  function ReclaimAttestationBonds(s: State, now: UnixTime, creator: Addr, id: nat): Result<State> {
    if creator == "" then Err(InvalidAddress) else
    var e :- FindEscrow(s, id);
    :- Need(e.attestations != [], InvalidRequest);
    :- Need(e.status in {Released, Refunded, FailAttested}, InvalidRequest);
    :- Need(e.challengeDeadline <= 0 || now >= e.challengeDeadline, InvalidRequest);
    ReclaimFrom(s, e, 0)
  }

  datatype EscrowMsg =
    | MsgLockEscrow(request: LockRequest)
    | MsgSubmitEscrow(creator: Addr, id: nat, deliveryHash: string, keyHash: string, artifactUri: string)
    | MsgDisputeEscrow(creator: Addr, id: nat)
    | MsgReleaseEscrow(creator: Addr, id: nat)
    | MsgRefundEscrow(creator: Addr, id: nat)
    | MsgAttestEscrow(creator: Addr, id: nat, passed: bool, stake: U64,
                      deliveryHash: string, keyHash: string, acceptanceHash: string)
    | MsgVerifiedRelease(creator: Addr, id: nat, key: string)
    | MsgReclaimAttestationBonds(creator: Addr, id: nat)

  function HandleEscrow(env: Env, s: State, now: UnixTime, m: EscrowMsg): Result<State> {
    match m
    case MsgLockEscrow(r) => LockEscrow(s, now, r)
    case MsgSubmitEscrow(c, id, dh, kh, uri) => SubmitEscrow(s, now, c, id, dh, kh, uri)
    case MsgDisputeEscrow(c, id) => DisputeEscrow(s, c, id)
    case MsgReleaseEscrow(c, id) => ReleaseEscrow(s, now, c, id)
    case MsgRefundEscrow(c, id) => RefundEscrow(s, now, c, id)
    case MsgAttestEscrow(c, id, passed, stake, dh, kh, ah) => AttestEscrow(s, now, c, id, passed, stake, dh, kh, ah)
    case MsgVerifiedRelease(c, id, key) => VerifiedRelease(env, s, now, c, id, key)
    case MsgReclaimAttestationBonds(c, id) => ReclaimAttestationBonds(s, now, c, id)
  }
}
