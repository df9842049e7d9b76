/** What each message writes into the records, field by field. Balances, verdicts, reclaims and gate
    settlements have theorems of their own; this is everything else. */
module Records {
  import opened Outcomes
  import opened Integers
  import opened Text
  import opened Types
  import opened Ledger
  import opened Escrows
  import opened Jury
  import opened Bonds
  import opened Gates
  import opened Machine
  import opened Conservation
  import opened CustodyKept
  import opened Receipts

  /** A new stake held by the protocol, of the next free id. */
  function WithStake(s: State, poster: Addr, amount: U64, purpose: string, slasher: Addr, ref: string): State {
    s.(bonds := s.bonds[s.bondSeq := Bond(s.bondSeq, poster, amount, purpose, slasher, Active, ref)], bondSeq := s.bondSeq + 1)
  }

  /** The messages treated here. */
  predicate Plain(m: Msg) {
    match m
    case ToEscrows(x) => !x.MsgReclaimAttestationBonds?
    case ToJury(x) => !x.MsgResolveDispute?
    case ToGates(x) => !x.MsgSettleGate?
    case ToBonds(x) => true
  }

  function EscrowsWritten(s: State, now: UnixTime, x: EscrowMsg): State {
    if x.MsgLockEscrow? then
      var q := x.request;
      var end := now + (if q.disputeSeconds < TWO63 then q.disputeSeconds else q.disputeSeconds - TWO64);
      s.(escrows := s.escrows[s.escrowSeq :=
           Escrow(s.escrowSeq, q.payer, q.payee, q.amount, q.ref, Locked, if end >= TWO63 then end - TWO64 else end,
                  q.noAutoRelease || q.verifierAddrs != [], "", q.verifierAddrs, q.verifierQuorum, q.acceptanceHash, "", 0, [], "", 0, 0)],
         escrowSeq := s.escrowSeq + 1)
    else if x.id !in s.escrows then s
    else
      var e := s.escrows[x.id];
      match x
      case MsgSubmitEscrow(_, id, dh, kh, uri) =>
        s.(escrows := s.escrows[id := e.(status := Submitted, deliveryHash := dh, keyHash := kh, artifactUri := uri, submittedAt := now)])
      case MsgDisputeEscrow(_, id) => s.(escrows := s.escrows[id := e.(status := Disputed)])
      case MsgReleaseEscrow(_, id) => s.(escrows := s.escrows[id := e.(status := Released, releasedAt := now)])
      case MsgRefundEscrow(_, id) => s.(escrows := s.escrows[id := e.(status := Refunded)])
      case MsgVerifiedRelease(_, id, _) =>
        s.(escrows := s.escrows[id := e.(status := Released, releasedAt := now, challengeDeadline := now + 259200)])
      case MsgAttestEscrow(c, id, passed, stake, _, _, _) =>
        var attested := e.(attestations := e.attestations + [Attestation(c, passed, s.bondSeq, e.deliveryHash, e.keyHash, e.acceptanceHash, now)]);
        WithStake(s, c, stake, "attestation:" + FormatUint(id), "", FormatUint(id))
          .(escrows := s.escrows[id := if passed then attested else attested.(status := FailAttested, challengeDeadline := now + 259200)])
      case _ => s
  }

  function JuryWritten(s: State, x: JuryMsg): State {
    match x
    case MsgOpenDispute(c, id, reason, bond) =>
      if id !in s.escrows then s
      else
        var e := s.escrows[id];
        WithStake(s, c, bond, "dispute:" + FormatUint(s.disputeSeq), "", FormatUint(id))
          .(disputes := s.disputes[s.disputeSeq := Dispute(s.disputeSeq, id, c, reason, Open, Pending, [], s.bondSeq)],
            disputeSeq := s.disputeSeq + 1,
            escrows := s.escrows[id := e.(status := if e.status == Released then Challenged else InJury)])
    case MsgCastVote(c, id, accept, stake) =>
      if id !in s.disputes then s
      else
        var d := s.disputes[id];
        WithStake(s, c, stake, "jurorstake:" + FormatUint(id), "", FormatUint(id))
          .(disputes := s.disputes[id := d.(votes := d.votes + [Vote(c, accept, s.bondSeq)])])
    case _ => s
  }

  ghost function BondsWritten(s: State, x: BondMsg): State {
    match x
    case MsgPostBond(c, amount, purpose, slasher, ref) => WithStake(s, c, amount, purpose, slasher, ref)
    case MsgReleaseBond(_, id) => if id in s.bonds then s.(bonds := s.bonds[id := s.bonds[id].(status := Freed)]) else s
    case MsgSlashBond(_, id, _) => if id in s.bonds then s.(bonds := s.bonds[id := s.bonds[id].(status := Slashed)]) else s
    case MsgCastVouch(c, to, weight, stake) =>
      if id :| Oldest(s, id, c, to) then s.(vouches := s.vouches[id := Vouch(id, c, to, weight, stake)])
      else s.(vouches := s.vouches[s.vouchSeq := Vouch(s.vouchSeq, c, to, weight, stake)], vouchSeq := s.vouchSeq + 1)
    case MsgUnvouch(c, to) => if id :| Oldest(s, id, c, to) then s.(vouches := s.vouches - {id}) else s
    case _ => s
  }

  ghost function GatesWritten(env: Env, s: State, now: UnixTime, x: GateMsg): State {
    match x
    case MsgPostGate(c, uri, hash, gold, drip, max) =>
      s.(gates := s.gates[s.gateSeq := Gate(s.gateSeq, c, uri, hash, gold, drip, max, now + env.commitWindow,
                                            now + env.commitWindow + env.revealWindow, GateOpen, [], "", "")],
         gateSeq := s.gateSeq + 1)
    case MsgCommitAnswer(c, id, commit) =>
      if id !in s.gates then s
      else s.(gates := s.gates[id := s.gates[id].(answers := s.gates[id].answers + [GateAnswer(c, commit, "", false, false)])])
    case MsgRevealAnswer(c, id, answer, _) =>
      if id in s.gates && exists i: nat :: FirstOf(s.gates[id].answers, c, i) then
        var g := s.gates[id];
        var i: nat :| FirstOf(g.answers, c, i);
        s.(gates := s.gates[id := g.(answers := g.answers[i := g.answers[i].(answer := answer, revealed := true)])])
      else s
    case MsgAwardContribution(c, k) =>
      s.(awards := s.awards[s.awardSeq := Award(s.awardSeq, c, k)], awardSeq := s.awardSeq + 1)
    case _ => s
  }

  /** Answer `i` is agent `c`'s first. */
  predicate FirstOf(answers: seq<GateAnswer>, c: Addr, i: nat) {
    i < |answers| && answers[i].agent == c && forall j | 0 <= j < i :: answers[j].agent != c
  }

  ghost function Written(env: Env, s: State, now: UnixTime, m: Msg): State {
    match m
    case ToEscrows(x) => EscrowsWritten(s, now, x)
    case ToJury(x) => JuryWritten(s, x)
    case ToBonds(x) => BondsWritten(s, x)
    case ToGates(x) => GatesWritten(env, s, now, x)
  }

  /** `t` is `u`, accounts and emission state apart. */
  predicate SameRecords(t: State, u: State) {
    t == u.(accounts := t.accounts, emission := t.emission)
  }

  lemma StakeWrites(s: State, poster: Addr, amount: U64, purpose: string, slasher: Addr, ref: string)
    ensures var r := LockBond(s, poster, amount, purpose, slasher, ref);
            r.Ok? ==> SameRecords(r.value, WithStake(s, poster, amount, purpose, slasher, ref))
  {
  }

  lemma LockWrites(s: State, now: UnixTime, q: LockRequest)
    ensures var r := LockEscrow(s, now, q);
            r.Ok? ==> SameRecords(r.value, EscrowsWritten(s, now, MsgLockEscrow(q)))
  {
    hide CheckVerifierTerms;
  }

  lemma AttestWrites(s: State, now: UnixTime, x: EscrowMsg)
    requires Keyed(s) && x.MsgAttestEscrow?
    ensures var r := AttestEscrow(s, now, x.creator, x.id, x.passed, x.stake, x.deliveryHash, x.keyHash, x.acceptanceHash);
            r.Ok? ==> SameRecords(r.value, EscrowsWritten(s, now, x))
  {
    hide EqualFold, LockBond, FormatUint;
    if x.id in s.escrows { StakeWrites(s, x.creator, x.stake, AttestationPurpose(x.id), "", FormatUint(x.id)); }
  }

  lemma MoveWrites(env: Env, s: State, now: UnixTime, x: EscrowMsg)
    requires Keyed(s) && !x.MsgLockEscrow? && !x.MsgAttestEscrow? && !x.MsgReclaimAttestationBonds?
    ensures var r := HandleEscrow(env, s, now, x);
            r.Ok? ==> SameRecords(r.value, EscrowsWritten(s, now, x))
  {
    hide PassesFrom, KeyMatches, IsHexSha256, Add64;
  }

  lemma OpenWrites(s: State, now: UnixTime, c: Addr, id: nat, reason: string, bond: U64)
    requires Keyed(s)
    ensures var r := OpenDispute(s, now, c, id, reason, bond);
            r.Ok? ==> SameRecords(r.value, JuryWritten(s, MsgOpenDispute(c, id, reason, bond)))
  {
    hide MayDispute, LockBond, FormatUint;
    StakeWrites(s, c, bond, DisputePurpose(s.disputeSeq), "", FormatUint(id));
  }

  lemma VoteWrites(env: Env, s: State, c: Addr, id: nat, accept: bool, stake: U64)
    requires Keyed(s)
    ensures var r := CastVote(env, s, c, id, accept, stake);
            r.Ok? ==> SameRecords(r.value, JuryWritten(s, MsgCastVote(c, id, accept, stake)))
  {
    hide HasVoted, LockBond, FormatUint;
    StakeWrites(s, c, stake, JurorPurpose(id), "", FormatUint(id));
  }

  lemma OldestIsOne(s: State, from: Addr, to: Addr, i: nat, j: nat)
    requires Oldest(s, i, from, to) && Oldest(s, j, from, to)
    ensures i == j
  {
  }

  lemma VouchWrites(s: State, c: Addr, to: Addr, weight: U64, stake: U64)
    requires Keyed(s)
    ensures var r := CastVouch(s, c, to, weight, stake);
            r.Ok? ==> SameRecords(r.value, BondsWritten(s, MsgCastVouch(c, to, weight, stake)))
  {
    hide FindVouch, Add64, Keyed;
    var r, found := CastVouch(s, c, to, weight, stake), FindVouch(s, c, to, 0);
    OldestFound(s, c, to, 0);
    if r.Ok? {
      if found.Some? {
        forall id | Oldest(s, id, c, to)
          ensures id == found.value
        {
          OldestIsOne(s, c, to, id, found.value);
        }
        assert r.value.vouches == s.vouches[found.value := Vouch(found.value, c, to, weight, stake)];
      } else {
        VouchesBelowSeq(s);
        assert forall id :: !Oldest(s, id, c, to);
        assert r.value.vouches == s.vouches[s.vouchSeq := Vouch(s.vouchSeq, c, to, weight, stake)];
      }
    }
  }

  lemma VouchesBelowSeq(s: State)
    requires Keyed(s)
    ensures forall id | id in s.vouches :: id < s.vouchSeq
  {
  }

  lemma UnvouchWrites(s: State, c: Addr, to: Addr)
    ensures var r := Unvouch(s, c, to);
            r.Ok? ==> SameRecords(r.value, BondsWritten(s, MsgUnvouch(c, to)))
  {
    hide FindVouch, Add64, Oldest;
    OldestFound(s, c, to, 0);
    var found := FindVouch(s, c, to, 0);
    if found.Some? {
      forall id | Oldest(s, id, c, to)
        ensures id == found.value
      {
        OldestIsOne(s, c, to, id, found.value);
      }
    }
  }

  lemma BondWrites(s: State, x: BondMsg)
    requires Keyed(s)
    ensures var r := HandleBond(s, x);
            r.Ok? ==> SameRecords(r.value, BondsWritten(s, x))
  {
    hide CastVouch, Unvouch, Add64;
    if x.MsgCastVouch? { VouchWrites(s, x.creator, x.to, x.weight, x.stake); }
    if x.MsgUnvouch? { UnvouchWrites(s, x.creator, x.to); }
  }

  lemma RevealWrites(env: Env, s: State, now: UnixTime, c: Addr, id: nat, answer: string, salt: string)
    requires Keyed(s)
    ensures var r := RevealAnswer(env, s, now, c, id, answer, salt);
            r.Ok? ==> SameRecords(r.value, GatesWritten(env, s, now, MsgRevealAnswer(c, id, answer, salt)))
  {
    hide EqualFold, Commitment, FindAnswer;
    if id in s.gates {
      FirstFound(s.gates[id].answers, c, 0);
      forall i: nat, j: nat | FirstOf(s.gates[id].answers, c, i) && FirstOf(s.gates[id].answers, c, j)
        ensures i == j
      {
      }
    }
  }

  lemma {:induction false} FirstFound(answers: seq<GateAnswer>, c: Addr, i: nat)
    requires i <= |answers| && forall j | 0 <= j < i :: answers[j].agent != c
    ensures FindAnswer(answers, c, i).Some? ==> FirstOf(answers, c, FindAnswer(answers, c, i).value)
    decreases |answers| - i
  {
    if i < |answers| && answers[i].agent != c { FirstFound(answers, c, i + 1); }
  }

  lemma GateWrites(env: Env, s: State, now: UnixTime, x: GateMsg)
    requires Keyed(s) && !x.MsgSettleGate?
    ensures var r := HandleGate(env, s, now, x);
            r.Ok? ==> SameRecords(r.value, GatesWritten(env, s, now, x))
  {
    hide RevealAnswer, MintReward, CheckContribution, Awarded, IsHexSha256;
    match x
    case MsgRevealAnswer(c, id, answer, salt) => RevealWrites(env, s, now, c, id, answer, salt);
    case MsgAwardContribution(c, k) => AwardWrites(env, s, now, c, k);
    case _ =>
  }

  lemma AwardWrites(env: Env, s: State, now: UnixTime, c: Addr, k: Contribution)
    ensures var r := AwardContribution(env, s, now, c, k);
            r.Ok? ==> SameRecords(r.value, GatesWritten(env, s, now, MsgAwardContribution(c, k)))
  {
    hide CheckContribution, Awarded, MintReward;
    var t := s.(awards := s.awards[s.awardSeq := Award(s.awardSeq, c, k)], awardSeq := s.awardSeq + 1);
    MintTouchesNothing(t, now, k.recipient, k.amount);
  }

  /** Every such message writes exactly the records it says, under the ids it names or the next free ones, and
      changes no other. */
  lemma StepWrites(env: Env, s: State, now: UnixTime, m: Msg)
    requires Keyed(s) && Plain(m)
    ensures var r := Step(env, s, now, m);
            r.Ok? ==> r.value == Written(env, s, now, m).(accounts := r.value.accounts, emission := r.value.emission)
  {
    hide Keyed, HandleBond, HandleGate, LockEscrow, AttestEscrow, OpenDispute, CastVote, EscrowsWritten, JuryWritten, BondsWritten, GatesWritten;
    match m
    case ToEscrows(x) =>
      if x.MsgLockEscrow? { LockWrites(s, now, x.request); }
      else if x.MsgAttestEscrow? { AttestWrites(s, now, x); }
      else { MoveWrites(env, s, now, x); }
    case ToJury(x) =>
      if x.MsgOpenDispute? { OpenWrites(s, now, x.creator, x.id, x.reason, x.bond); }
      else { VoteWrites(env, s, x.creator, x.id, x.accept, x.stake); }
    case ToBonds(x) => BondWrites(s, x);
    case ToGates(x) => GateWrites(env, s, now, x);
  }
}
