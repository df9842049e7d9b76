/** Who holds what: every stake backs one record, and every frozen escrow has one open case. */
module Custody {
  import opened Types
  import opened Conservation

  // ---- Stakes back records ------------------------------------------------

  /** Bond `id` is the protocol-held stake `poster` locked for `purpose`. */
  predicate Backs(bonds: map<nat, Bond>, id: nat, purpose: string, poster: Addr) {
    && id in bonds && bonds[id].purpose == purpose && bonds[id].poster == poster
    && bonds[id].slasher == ""
  }

  predicate EscrowBacked(bonds: map<nat, Bond>, e: Escrow) {
    forall i | 0 <= i < |e.attestations| ::
      && Backs(bonds, e.attestations[i].bondId, AttestationPurpose(e.id), e.attestations[i].verifier)
      && bonds[e.attestations[i].bondId].amount >= e.amount
  }

  /** All verifiers' stakes are still locked. */
  predicate StakesActive(bonds: map<nat, Bond>, e: Escrow) {
    forall i | 0 <= i < |e.attestations| ::
      e.attestations[i].bondId in bonds && bonds[e.attestations[i].bondId].status == Active
  }

  predicate DisputeBacked(bonds: map<nat, Bond>, d: Dispute) {
    && Backs(bonds, d.bondId, DisputePurpose(d.id), d.opener)
    && forall i | 0 <= i < |d.votes| :: Backs(bonds, d.votes[i].bondId, JurorPurpose(d.id), d.votes[i].juror)
  }

  /** The opener's bond and every juror's stake are locked (`locked`) or settled (`!locked`). */
  predicate DisputeStakes(bonds: map<nat, Bond>, d: Dispute, locked: bool) {
    && d.bondId in bonds && (bonds[d.bondId].status == Active) == locked
    && forall i | 0 <= i < |d.votes| ::
         d.votes[i].bondId in bonds && (bonds[d.votes[i].bondId].status == Active) == locked
  }

  // ---- Records are sound --------------------------------------------------

  predicate AllPassed(e: Escrow) {
    forall i | 0 <= i < |e.attestations| :: e.attestations[i].passed
  }

  predicate Pinned(e: Escrow, a: Attestation) {
    a.deliveryHash == e.deliveryHash && a.keyHash == e.keyHash && a.acceptanceHash == e.acceptanceHash
  }

  /** The failing verdict that opened the contest window. */
  predicate FailOpened(e: Escrow) {
    exists i | 0 <= i < |e.attestations| ::
      !e.attestations[i].passed && e.challengeDeadline == e.attestations[i].attestedAt + CHALLENGE_WINDOW_SECONDS
  }

  predicate EscrowTerms(e: Escrow) {
    && (e.verifierAddrs != [] ==> e.noAutoRelease)
    && (forall i | 0 <= i < |e.attestations| ::
          e.attestations[i].verifier in e.verifierAddrs && Pinned(e, e.attestations[i]))
    && (forall i, j | 0 <= i < j < |e.attestations| :: e.attestations[i].verifier != e.attestations[j].verifier)
    && (e.status in {Locked, Disputed} ==> e.attestations == [])
    && (e.status in {Locked, Submitted, Disputed} ==> e.challengeDeadline == 0)
    && (e.status == Submitted ==> AllPassed(e))
    && (e.status == FailAttested ==> FailOpened(e))
    && (e.status == Challenged ==> e.attestations != [] && e.challengeDeadline != 0)
    && ((e.challengeDeadline != 0 && AllPassed(e)) ==>
          (e.status in {Released, Challenged} && |e.attestations| >= e.verifierQuorum))
  }

  predicate DisputeTerms(env: Env, e: Escrow, d: Dispute) {
    && d.opener in {e.payer, e.payee}
    && (forall i | 0 <= i < |d.votes| :: d.votes[i].juror in env.anchors)
    && (forall i, j | 0 <= i < j < |d.votes| :: d.votes[i].juror != d.votes[j].juror)
    && (d.status == Open ==> e.status in {InJury, Challenged} && d.resolution == Pending)
    && (d.status == Open && e.status == Challenged ==> d.opener == e.payer)
    && (d.status == Resolved ==> e.status in {Challenged, Released, Refunded} && d.resolution != Pending)
  }

  /** Some case about escrow `id` has been decided. */
  ghost predicate Tried(s: State, id: nat) {
    exists k | k in s.disputes :: s.disputes[k].status == Resolved && s.disputes[k].escrowId == id
  }

  /** Until a first verdict, stakes stay locked while a verdict may still be called for. */
  ghost predicate StakesWait(s: State, e: Escrow, clock: int) {
    (e.status in {Submitted, InJury, Challenged} || (e.status in {FailAttested, Released} && clock < e.challengeDeadline))
    ==> (Tried(s, e.id) || StakesActive(s.bonds, e))
  }

  /** No verifier's stake is locked any more. */
  predicate StakesSettled(bonds: map<nat, Bond>, e: Escrow) {
    forall i | 0 <= i < |e.attestations| ::
      e.attestations[i].bondId in bonds && bonds[e.attestations[i].bondId].status != Active
  }

  /** The first verdict about an escrow settles all its verifiers' stakes. */
  ghost predicate StakesSpent(s: State, e: Escrow) {
    Tried(s, e.id) ==> StakesSettled(s.bonds, e)
  }

  predicate OpenOn(s: State, k: nat, id: nat) {
    k in s.disputes && s.disputes[k].status == Open && s.disputes[k].escrowId == id
  }

  ghost predicate EscrowSound(s: State, id: nat, clock: int) {
    && id in s.escrows
    && EscrowTerms(s.escrows[id]) && EscrowBacked(s.bonds, s.escrows[id])
    && StakesWait(s, s.escrows[id], clock) && StakesSpent(s, s.escrows[id])
  }

  ghost predicate DisputeSound(env: Env, s: State, k: nat) {
    && k in s.disputes && s.disputes[k].escrowId in s.escrows
    && DisputeTerms(env, s.escrows[s.disputes[k].escrowId], s.disputes[k])
    && DisputeBacked(s.bonds, s.disputes[k])
    && DisputeStakes(s.bonds, s.disputes[k], s.disputes[k].status == Open)
  }

  /** A frozen escrow is before exactly one open case. */
  ghost predicate JuryExclusive(s: State) {
    && (forall k, l, id | OpenOn(s, k, id) && OpenOn(s, l, id) :: k == l)
    && (forall id | id in s.escrows && s.escrows[id].status in {InJury, Challenged} ::
          exists k :: OpenOn(s, k, id))
  }

  /** The invariant of custody at block time `clock`. */
  ghost predicate InCustody(env: Env, s: State, clock: int) {
    && (forall id | id in s.escrows :: EscrowSound(s, id, clock))
    && (forall k | k in s.disputes :: DisputeSound(env, s, k))
    && JuryExclusive(s)
  }

  // ---- How a step may touch bonds -----------------------------------------

  /** Bonds are never lost or rewritten: the only change is that an active one is settled, and a
      protocol-held stake is settled only if its purpose is listed. New bonds may appear. */
  ghost predicate TouchesOnly(b: map<nat, Bond>, c: map<nat, Bond>, purposes: set<string>) {
    forall id | id in b ::
      && id in c
      && (c[id] == b[id]
          || (b[id].status == Active && c[id] == b[id].(status := c[id].status) && c[id].status != Active
              && (b[id].slasher != "" || b[id].purpose in purposes)))
  }

  lemma TouchesTrans(b: map<nat, Bond>, c: map<nat, Bond>, d: map<nat, Bond>, p: set<string>, q: set<string>)
    requires TouchesOnly(b, c, p) && TouchesOnly(c, d, q)
    ensures TouchesOnly(b, d, p + q)
  {
  }

  lemma EscrowBackedKept(b: map<nat, Bond>, c: map<nat, Bond>, p: set<string>, e: Escrow)
    requires TouchesOnly(b, c, p) && EscrowBacked(b, e)
    ensures EscrowBacked(c, e)
    ensures AttestationPurpose(e.id) !in p && StakesActive(b, e) ==> StakesActive(c, e)
    ensures StakesSettled(b, e) ==> StakesSettled(c, e)
  {
  }

  lemma LaterClock(env: Env, s: State, c: int, clock: int)
    requires InCustody(env, s, c) && c <= clock
    ensures InCustody(env, s, clock)
  {
  }

  // ---- Framing ------------------------------------------------------------

  lemma EscrowKept(s: State, t: State, clock: int, id: nat, p: set<string>)
    requires EscrowSound(s, id, clock) && TouchesOnly(s.bonds, t.bonds, p)
    requires id in t.escrows && t.escrows[id] == s.escrows[id] && s.escrows[id].id == id
    requires AttestationPurpose(id) !in p && (Tried(s, id) <==> Tried(t, id))
    ensures EscrowSound(t, id, clock)
  {
  }

  lemma DisputeKept(env: Env, s: State, t: State, k: nat, p: set<string>)
    requires DisputeSound(env, s, k) && TouchesOnly(s.bonds, t.bonds, p)
    requires k in t.disputes && t.disputes[k] == s.disputes[k] && s.disputes[k].id == k
    requires DisputePurpose(k) !in p && JurorPurpose(k) !in p
    requires s.disputes[k].escrowId in t.escrows && DisputeTerms(env, t.escrows[s.disputes[k].escrowId], s.disputes[k])
    ensures DisputeSound(env, t, k)
  {
  }

  /** Only escrow `x` can have been tried for the first time. */
  lemma TriedElsewhere(s: State, t: State, x: nat, y: nat)
    requires s.disputes.Keys <= t.disputes.Keys <= s.disputes.Keys + {y}
    requires forall k | k in s.disputes && k != y :: t.disputes[k] == s.disputes[k]
    requires y in s.disputes ==> (t.disputes[y].status == Resolved || s.disputes[y].status == Open)
                                 && t.disputes[y].escrowId == s.disputes[y].escrowId
    requires y in t.disputes && t.disputes[y].status == Resolved ==>
               t.disputes[y].escrowId == x || (y in s.disputes && s.disputes[y].status == Resolved)
    ensures forall id | id != x :: Tried(s, id) <==> Tried(t, id)
  {
  }

  lemma CaseInRange(env: Env, s: State, k: nat)
    requires DisputeSound(env, s, k)
    ensures k in s.disputes && s.disputes[k].escrowId in s.escrows && DisputeTerms(env, s.escrows[s.disputes[k].escrowId], s.disputes[k])
  {
  }

  /** Everything but escrow `x` and dispute `y` is as sound after a step as before, given what the
      step did to the bonds. */
  lemma OthersKept(env: Env, s: State, t: State, clock: int, x: nat, y: nat, p: set<string>)
    requires Keyed(s) && InCustody(env, s, clock) && TouchesOnly(s.bonds, t.bonds, p)
    requires s.escrows.Keys <= t.escrows.Keys <= s.escrows.Keys + {x}
    requires s.disputes.Keys <= t.disputes.Keys <= s.disputes.Keys + {y}
    requires forall id | id in s.escrows && id != x :: t.escrows[id] == s.escrows[id]
    requires forall k | k in s.disputes && k != y :: t.disputes[k] == s.disputes[k]
    requires y in s.disputes ==> (t.disputes[y].status == Resolved || s.disputes[y].status == Open)
                                 && t.disputes[y].escrowId == s.disputes[y].escrowId
    requires y in t.disputes && t.disputes[y].status == Resolved ==>
               t.disputes[y].escrowId == x || (y in s.disputes && s.disputes[y].status == Resolved)
    requires x in t.escrows ==>
               forall k | k in s.disputes && k != y && s.disputes[k].escrowId == x ::
                 DisputeTerms(env, t.escrows[x], s.disputes[k])
    requires forall id | id in s.escrows && id != x :: AttestationPurpose(id) !in p
    requires forall k | k in s.disputes && k != y :: DisputePurpose(k) !in p && JurorPurpose(k) !in p
    ensures forall id | id in t.escrows && id != x :: EscrowSound(t, id, clock)
    ensures forall k | k in t.disputes && k != y :: DisputeSound(env, t, k)
  {
    hide EscrowSound, DisputeSound, DisputeTerms, TouchesOnly, Tried, AttestationPurpose, DisputePurpose, JurorPurpose;
    TriedElsewhere(s, t, x, y);
    forall id | id in t.escrows && id != x
      ensures EscrowSound(t, id, clock)
    {
      EscrowKept(s, t, clock, id, p);
    }
    forall k | k in t.disputes && k != y
      ensures DisputeSound(env, t, k)
    {
      CaseInRange(env, s, k);
      DisputeKept(env, s, t, k, p);
    }
  }

  lemma Conclude(env: Env, t: State, clock: int, x: nat, y: nat)
    requires forall id | id in t.escrows && id != x :: EscrowSound(t, id, clock)
    requires forall k | k in t.disputes && k != y :: DisputeSound(env, t, k)
    requires x in t.escrows ==> EscrowSound(t, x, clock)
    requires y in t.disputes ==> DisputeSound(env, t, y)
    requires JuryExclusive(t)
    ensures InCustody(env, t, clock)
  {
  }

  lemma Cases(env: Env, s: State, clock: int)
    requires InCustody(env, s, clock)
    ensures JuryExclusive(s)
    ensures forall id | id in s.escrows :: EscrowSound(s, id, clock)
    ensures forall k | k in s.disputes :: DisputeSound(env, s, k)
  {
  }
}
