/** How escrows and cases evolve: what each message may do to one escrow, and what never changes. */
module Lives {
  import opened Outcomes
  import opened Integers
  import opened Text
  import opened Types
  import opened Escrows
  import opened Jury
  import opened Bonds
  import opened Gates
  import opened Machine
  import opened Conservation
  import opened Conserved
  import opened Custody
  import opened CustodyKept

  /** The terms of a deal are fixed when it is funded, its evidence when it is submitted, its verdicts
      while it is submitted; and once the money has left, it never comes back. */
  predicate Evolves(e: Escrow, f: Escrow) {
    && f == e.(status := f.status, deliveryHash := f.deliveryHash, keyHash := f.keyHash,
               challengeDeadline := f.challengeDeadline, attestations := f.attestations,
               artifactUri := f.artifactUri, submittedAt := f.submittedAt, releasedAt := f.releasedAt)
    && (e.status != Locked ==> f.deliveryHash == e.deliveryHash && f.keyHash == e.keyHash
                               && f.artifactUri == e.artifactUri && f.submittedAt == e.submittedAt)
    && (e.status != Submitted ==> f.attestations == e.attestations && f.challengeDeadline == e.challengeDeadline)
    && (!Held(e.status) ==> !Held(f.status))
    && (e.status == Refunded ==> f == e)
  }

  /** From one state to the next, escrows and cases only evolve, and cases stay with their escrow. */
  ghost predicate RecordsEvolve(s: State, t: State) {
    && (forall id | id in s.escrows :: id in t.escrows && Evolves(s.escrows[id], t.escrows[id]))
    && (forall k | k in s.disputes ::
          && k in t.disputes && t.disputes[k].escrowId == s.disputes[k].escrowId
          && t.disputes[k].opener == s.disputes[k].opener && t.disputes[k].bondId == s.disputes[k].bondId
          && (s.disputes[k].status == Resolved ==> t.disputes[k] == s.disputes[k]))
  }

  /** The purposes of the protocol-held stakes a message settles: a verdict settles those of its case
      and its escrow, a reclaim those of its escrow, any other message none. */
  function SettledPurposes(s: State, m: Msg): set<string> {
    if m.ToEscrows? && m.escrow.MsgReclaimAttestationBonds? then {AttestationPurpose(m.escrow.id)}
    else if m.ToJury? && m.jury.MsgResolveDispute? && m.jury.id in s.disputes then
      {DisputePurpose(m.jury.id), JurorPurpose(m.jury.id), AttestationPurpose(s.disputes[m.jury.id].escrowId)}
    else {}
  }

  /** What a step does to the escrow it is about, the others staying as they are. */
  lemma OneEscrowEvolves(s: State, t: State, id: nat)
    requires id in t.escrows && t.escrows == s.escrows[id := t.escrows[id]]
    requires id in s.escrows ==> Evolves(s.escrows[id], t.escrows[id])
    ensures forall i | i in s.escrows :: i in t.escrows && Evolves(s.escrows[i], t.escrows[i])
  {
  }

  lemma TouchesNothing(b: map<nat, Bond>, p: set<string>)
    ensures TouchesOnly(b, b, p)
  {
  }

  lemma LockEscrowEffect(s: State, now: UnixTime, q: LockRequest)
    requires Keyed(s)
    ensures var r := LockEscrow(s, now, q);
            r.Ok? ==>
              && s.escrowSeq !in s.escrows && s.escrowSeq in r.value.escrows
              && r.value.escrows == s.escrows[s.escrowSeq := r.value.escrows[s.escrowSeq]]
              && r.value.disputes == s.disputes && r.value.bonds == s.bonds
  {
  }

  lemma AttestEscrowEffect(s: State, now: UnixTime, c: Addr, id: nat, passed: bool, stake: U64,
                           dh: string, kh: string, ah: string)
    requires Keyed(s)
    ensures var r := AttestEscrow(s, now, c, id, passed, stake, dh, kh, ah);
            r.Ok? ==>
              && id in s.escrows && id in r.value.escrows && r.value.escrows == s.escrows[id := r.value.escrows[id]]
              && Evolves(s.escrows[id], r.value.escrows[id]) && s.escrows[id].status == Submitted
              && r.value.escrows[id].status in {Submitted, FailAttested}
              && r.value.disputes == s.disputes && TouchesOnly(s.bonds, r.value.bonds, {})
  {
  }

  predicate MovesOneEscrow(m: EscrowMsg) {
    !(m.MsgLockEscrow? || m.MsgAttestEscrow? || m.MsgReclaimAttestationBonds?)
  }

  /** Escrow `id`, outside the jury, has evolved, and nothing else the stakes depend on has changed. */
  ghost predicate OneMoved(s: State, t: State, id: nat) {
    && id in s.escrows && id in t.escrows && t.escrows == s.escrows[id := t.escrows[id]]
    && Evolves(s.escrows[id], t.escrows[id]) && s.escrows[id].status !in {InJury, Challenged}
    && t.disputes == s.disputes && t.bonds == s.bonds
  }

  lemma SubmitMoves(s: State, now: UnixTime, c: Addr, id: nat, dh: string, kh: string, uri: string)
    requires Keyed(s)
    ensures var r := SubmitEscrow(s, now, c, id, dh, kh, uri);
            r.Ok? ==> OneMoved(s, r.value, id)
  {
    hide IsHexSha256;
  }

  lemma DisputeMoves(s: State, c: Addr, id: nat)
    requires Keyed(s)
    ensures var r := DisputeEscrow(s, c, id);
            r.Ok? ==> OneMoved(s, r.value, id)
  {
  }

  lemma ReleaseMoves(s: State, now: UnixTime, c: Addr, id: nat)
    requires Keyed(s)
    ensures var r := ReleaseEscrow(s, now, c, id);
            r.Ok? ==> OneMoved(s, r.value, id)
  {
  }

  lemma RefundMoves(s: State, now: UnixTime, c: Addr, id: nat)
    requires Keyed(s)
    ensures var r := RefundEscrow(s, now, c, id);
            r.Ok? ==> OneMoved(s, r.value, id)
  {
  }

  lemma VerifiedReleaseMoves(env: Env, s: State, now: UnixTime, c: Addr, id: nat, key: string)
    requires Keyed(s)
    ensures var r := VerifiedRelease(env, s, now, c, id, key);
            r.Ok? ==> OneMoved(s, r.value, id)
  {
    hide PassesFrom, KeyMatches;
  }

  lemma MoveEffect(env: Env, s: State, now: UnixTime, m: EscrowMsg)
    requires Keyed(s) && MovesOneEscrow(m)
    ensures var r := HandleEscrow(env, s, now, m);
            r.Ok? ==> OneMoved(s, r.value, m.id)
  {
    hide Keyed, OneMoved, LockEscrow, AttestEscrow, ReclaimAttestationBonds, SubmitEscrow, DisputeEscrow, ReleaseEscrow,
      RefundEscrow, VerifiedRelease;
    match m
    case MsgSubmitEscrow(c, id, dh, kh, uri) => SubmitMoves(s, now, c, id, dh, kh, uri);
    case MsgDisputeEscrow(c, id) => DisputeMoves(s, c, id);
    case MsgReleaseEscrow(c, id) => ReleaseMoves(s, now, c, id);
    case MsgRefundEscrow(c, id) => RefundMoves(s, now, c, id);
    case MsgVerifiedRelease(c, id, key) => VerifiedReleaseMoves(env, s, now, c, id, key);
  }

  lemma EscrowMsgEffect(env: Env, s: State, now: UnixTime, m: EscrowMsg)
    requires Books(s)
    ensures var r := HandleEscrow(env, s, now, m);
            r.Ok? ==> RecordsEvolve(s, r.value) && r.value.disputes == s.disputes
                      && TouchesOnly(s.bonds, r.value.bonds, SettledPurposes(s, ToEscrows(m)))
  {
    hide Keyed, Parties, Supply, LockEscrow, SubmitEscrow, DisputeEscrow, ReleaseEscrow, RefundEscrow, AttestEscrow,
         VerifiedRelease, ReclaimFrom, Evolves, TouchesOnly;
    var r := HandleEscrow(env, s, now, m);
    TouchesNothing(s.bonds, {});
    if r.Ok? {
      if m.MsgLockEscrow? {
        LockEscrowEffect(s, now, m.request);
        OneEscrowEvolves(s, r.value, s.escrowSeq);
        NothingEvolves(s);
      } else if m.MsgAttestEscrow? {
        AttestEscrowEffect(s, now, m.creator, m.id, m.passed, m.stake, m.deliveryHash, m.keyHash, m.acceptanceHash);
        OneEscrowEvolves(s, r.value, m.id);
      } else if m.MsgReclaimAttestationBonds? {
        EscrowOf(s, m.id);
        ReclaimTouches(s, s.escrows[m.id], 0);
        NothingEvolves(s);
      } else {
        MoveEffect(env, s, now, m);
        OneEscrowEvolves(s, r.value, m.id);
      }
    }
  }

  lemma NothingEvolves(s: State)
    ensures forall id | id in s.escrows :: Evolves(s.escrows[id], s.escrows[id])
  {
  }

  lemma OpenDisputeEffect(s: State, now: UnixTime, c: Addr, id: nat, reason: string, bond: U64)
    requires Keyed(s)
    ensures var r := OpenDispute(s, now, c, id, reason, bond);
            r.Ok? ==>
              && id in s.escrows && id in r.value.escrows && r.value.escrows == s.escrows[id := r.value.escrows[id]]
              && s.escrows[id].status in {Submitted, Disputed, FailAttested, Released}
              && r.value.escrows[id] == s.escrows[id].(status := if s.escrows[id].status == Released then Challenged else InJury)
              && (s.escrows[id].status == Released ==> s.escrows[id].attestations != [])
              && s.disputeSeq !in s.disputes
              && r.value.disputes == s.disputes[s.disputeSeq := Dispute(s.disputeSeq, id, c, reason, Open, Pending, [], s.bondSeq)]
              && TouchesOnly(s.bonds, r.value.bonds, {})
  {
  }

  lemma ResolveDisputeEffect(env: Env, s: State, now: UnixTime, c: Addr, k: nat)
    requires Books(s)
    ensures var r := ResolveDispute(env, s, now, c, k);
            r.Ok? ==>
              && k in s.disputes && s.disputes[k].status == Open && s.disputes[k].id == k && Verdict(env, s.disputes[k]).Ok?
              && s.disputes[k].escrowId in s.escrows
              && var d, e := s.disputes[k], s.escrows[s.disputes[k].escrowId];
                 var accept := Verdict(env, d).value;
              && e.id == d.escrowId && e.id in r.value.escrows
              && r.value.escrows == s.escrows[e.id := r.value.escrows[e.id]] && Evolves(e, r.value.escrows[e.id])
              && e.status in {InJury, Challenged}
              && r.value.escrows[e.id].status == (if e.status == InJury && !accept then Refunded else Released)
              && r.value.disputes == s.disputes[k := d.(status := Resolved, resolution := if accept then Accept else Reject)]
              && TouchesOnly(s.bonds, r.value.bonds, {DisputePurpose(k), JurorPurpose(k), AttestationPurpose(e.id)})
  {
    hide Parties, Supply, SettleVerdict, SettleEscrow, Verdict, TouchesOnly;
    var r := ResolveDispute(env, s, now, c, k);
    if r.Ok? {
      var d := s.disputes[k];
      var e, accept := s.escrows[d.escrowId], Verdict(env, d).value;
      SettleVerdictEffect(s, now, d, e, accept);
      SettleEscrowBalanced(s, now, e, accept);
      SettleEscrowEffect(s, now, e, accept);
    }
  }

  lemma FreezingEvolves(e: Escrow)
    requires e.status in {Submitted, Disputed, FailAttested, Released}
    ensures Evolves(e, e.(status := if e.status == Released then Challenged else InJury))
  {
  }

  lemma JuryMsgEffect(env: Env, s: State, now: UnixTime, m: JuryMsg)
    requires Books(s)
    ensures var r := HandleJury(env, s, now, m);
            r.Ok? ==> RecordsEvolve(s, r.value) && TouchesOnly(s.bonds, r.value.bonds, SettledPurposes(s, ToJury(m)))
  {
    hide Keyed, Parties, Supply, OpenDispute, CastVote, ResolveDispute, Verdict, TouchesOnly, Evolves,
         DisputePurpose, JurorPurpose, AttestationPurpose;
    var r := HandleJury(env, s, now, m);
    if r.Ok? {
      match m {
        case MsgOpenDispute(c, id, reason, bond) =>
          OpenDisputeEffect(s, now, c, id, reason, bond);
          FreezingEvolves(s.escrows[id]);
          OneEscrowEvolves(s, r.value, id);
        case MsgCastVote(c, k, accept, stake) =>
          CastVoteEffect(env, s, c, k, accept, stake);
          NothingEvolves(s);
        case MsgResolveDispute(c, k) =>
          ResolveDisputeEffect(env, s, now, c, k);
          OneEscrowEvolves(s, r.value, s.disputes[k].escrowId);
      }
    }
  }

  /** What any message may do: records evolve, and bonds are settled only as `SettledPurposes` says. */
  lemma StepEffect(env: Env, s: State, now: UnixTime, m: Msg)
    requires Books(s)
    ensures var r := Step(env, s, now, m);
            r.Ok? ==> RecordsEvolve(s, r.value) && TouchesOnly(s.bonds, r.value.bonds, SettledPurposes(s, m))
  {
    hide Keyed, Parties, Supply, HandleEscrow, HandleJury, HandleBond, HandleGate;
    NothingEvolves(s);
    match m
    case ToEscrows(e) => EscrowMsgEffect(env, s, now, e);
    case ToJury(j) => JuryMsgEffect(env, s, now, j);
    case ToBonds(b) => if b.MsgPostBond? || b.MsgReleaseBond? || b.MsgSlashBond? { CollateralFrame(s, b); } else { MoneyFrame(s, b); }
    case ToGates(g) => GatesFrame(env, s, now, g);
  }
}
