/** How long each side may object, in seconds from the event and not from a stored deadline. */
module Windows {
  import opened Outcomes
  import opened Integers
  import opened Types
  import opened Escrows
  import opened Jury
  import opened Machine
  import opened Conservation
  import opened Conserved
  import opened Custody
  import opened CustodyKept
  import opened Verdicts

  /** Three days. */
  const THREE_DAYS: int := 259200

  /** `payer` can put up `bond` as the bond of a case. */
  predicate CanBond(s: State, a: Addr, bond: U64) {
    a != "" && bond >= 100 && Known(s.accounts, a) && s.accounts[a].balance >= bond
  }

  /** All verifiers' stakes are locked, each for at least the escrowed amount. */
  predicate FullyInsured(s: State, e: Escrow) {
    forall i | 0 <= i < |e.attestations| ::
      && e.attestations[i].bondId in s.bonds && s.bonds[e.attestations[i].bondId].status == Active
      && s.bonds[e.attestations[i].bondId].amount >= e.amount
  }

  lemma ReleaseOpensWindow(env: Env, s: State, now: UnixTime, c: Addr, id: nat, key: string)
    ensures var r := VerifiedRelease(env, s, now, c, id, key);
            r.Ok? && s.escrows[id].id == id ==>
              && id in r.value.escrows && r.value.escrows[id].status == Released
              && r.value.escrows[id].challengeDeadline == now + THREE_DAYS
              && r.value.escrows[id].attestations == s.escrows[id].attestations && r.value.escrows[id].payer == s.escrows[id].payer
  {
    hide PassesFrom, KeyMatches;
  }

  /** Without a case a verified release stays released. */
  lemma StillReleased(env: Env, s: State, clock: int, id: nat)
    requires Keyed(s) && InCustody(env, s, clock) && id in s.escrows && NoCase(s, id)
    requires AllPassed(s.escrows[id]) && s.escrows[id].challengeDeadline != 0
    ensures s.escrows[id].status == Released && !Tried(s, id)
  {
    EscrowAt(env, s, clock, id);
    Cases(env, s, clock);
  }

  lemma ReclaimIff(s: State, now: UnixTime, c: Addr, id: nat)
    requires Books(s) && id in s.escrows && s.escrows[id].attestations != [] && s.escrows[id].status == Released
    requires s.escrows[id].challengeDeadline > 0
    ensures ReclaimAttestationBonds(s, now, c, id).Ok? <==> c != "" && now >= s.escrows[id].challengeDeadline
  {
    hide Keyed, Parties, Supply;
    ReclaimFromBalanced(s, s.escrows[id], 0);
  }

  lemma InsuredAt(env: Env, s: State, clock: int, id: nat)
    requires Keyed(s) && InCustody(env, s, clock) && id in s.escrows && !Tried(s, id)
    requires s.escrows[id].status in {Released, FailAttested} && clock < s.escrows[id].challengeDeadline
    ensures FullyInsured(s, s.escrows[id])
  {
    EscrowAt(env, s, clock, id);
  }

  /** The window of a verified release is three days from the release. Whatever happens in between, as long as
      no case was opened about the escrow: its payer can open one exactly before three days have passed; until
      then the verifiers' stakes are all locked and cannot be reclaimed; and from then on anyone can have them
      returned. */
  lemma ChallengeWindow(env: Env, s0: State, t0: UnixTime, c: Addr, id: nat, key: string, between: seq<Tx>, t: UnixTime,
                        reason: string, bond: U64, caller: Addr)
    requires Books(s0) && InCustody(env, s0, t0) && VerifiedRelease(env, s0, t0, c, id, key).Ok?
    requires s0.escrows[id].attestations != [] && caller != ""
    requires InOrder(t0, between) && Clock(t0, between) <= t
    requires NoCase(Run(env, VerifiedRelease(env, s0, t0, c, id, key).value, between), id)
    ensures var s := Run(env, VerifiedRelease(env, s0, t0, c, id, key).value, between); var payer := s0.escrows[id].payer;
            && id in s.escrows && s.escrows[id].attestations == s0.escrows[id].attestations
            && (CanBond(s, payer, bond) ==> (OpenDispute(s, t, payer, id, reason, bond).Ok? <==> t < t0 + 259200))
            && (t < t0 + 259200 ==> FullyInsured(s, s.escrows[id]))
            && (ReclaimAttestationBonds(s, t, caller, id).Ok? <==> t >= t0 + 259200)
  {
    hide Keyed, Parties, Supply, InCustody, VerifiedRelease, OpenDispute, ReclaimAttestationBonds, Run, TouchesOnly, AllPassed, NoCase,
         FullyInsured;
    EscrowAt0(s0, id, env, t0, c, key);
    var s1 := VerifiedRelease(env, s0, t0, c, id, key).value;
    VerifiedReleaseBalanced(env, s0, t0, c, id, key);
    VerifiedReleaseKeeps(env, s0, t0, c, id, key);
    VerifiedReleaseInsures(env, s0, t0, c, id, key);
    ReleaseOpensWindow(env, s0, t0, c, id, key);
    var s := Run(env, s1, between);
    RunKeepsCustody(env, s1, t0, between);
    SettledDealStays(env, s1, between, id);
    LaterClock(env, s, Clock(t0, between), t);
    PassedStill(s1.escrows[id], s.escrows[id]);
    StillReleased(env, s, t, id);
    ReopenedIff(s, t, s0.escrows[id].payer, id, reason, bond);
    ReclaimIff(s, t, caller, id);
    if t < t0 + 259200 { InsuredAt(env, s, t, id); }
  }

  lemma EscrowAt0(s: State, id: nat, env: Env, now: UnixTime, c: Addr, key: string)
    requires Keyed(s) && VerifiedRelease(env, s, now, c, id, key).Ok?
    ensures id in s.escrows && s.escrows[id].id == id
  {
  }

  lemma PassedStill(e: Escrow, f: Escrow)
    requires AllPassed(e) && f.attestations == e.attestations
    ensures AllPassed(f)
  {
  }

  // ---- After a fail verdict -----------------------------------------------

  /** Some verifier failed the work at time `t0`. */
  predicate FailedAt(e: Escrow, t0: int) {
    exists i | 0 <= i < |e.attestations| :: !e.attestations[i].passed && e.attestations[i].attestedAt == t0
  }

  /** The window of a fail verdict is three days from the attestation that failed the work: until then the
      payee can take the escrow to the jury and the payer cannot have it refunded; from then on the payer
      can, and the payee cannot. Meanwhile all stakes are locked. */
  lemma ContestWindow(env: Env, s: State, clock: int, now: UnixTime, id: nat, reason: string, bond: U64)
    requires Books(s) && InCustody(env, s, clock) && clock <= now && id in s.escrows && s.escrows[id].status == FailAttested
    ensures var e := s.escrows[id];
            exists t0 ::
              && FailedAt(e, t0)
              && (CanBond(s, e.payee, bond) ==>
                    (OpenDispute(s, now, e.payee, id, reason, bond).Ok? <==> now < t0 + 259200))
              && (RefundEscrow(s, now, e.payer, id).Ok? <==> e.payer != "" && now >= t0 + 259200)
              && (now < t0 + 259200 ==> FullyInsured(s, e))
  {
    hide Parties, Supply, InCustody, EscrowBacked, StakesWait, StakesSpent, StakesActive, FullyInsured;
    var e := s.escrows[id];
    EscrowAt(env, s, clock, id);
    LaterClock(env, s, clock, now);
    EscrowOf(s, id);
    var i :| 0 <= i < |e.attestations| && !e.attestations[i].passed && e.challengeDeadline == e.attestations[i].attestedAt + CHALLENGE_WINDOW_SECONDS;
    var t0 := e.attestations[i].attestedAt;
    assert FailedAt(e, t0);
    if now < t0 + 259200 { InsuredAt(env, s, now, id); }
    ContestIff(s, now, id, reason, bond);
  }

  lemma ContestIff(s: State, now: UnixTime, id: nat, reason: string, bond: U64)
    requires id in s.escrows && s.escrows[id].status == FailAttested && EscrowKnown(s.accounts, s.escrows[id])
    ensures var e := s.escrows[id];
            && (CanBond(s, e.payee, bond) ==> (OpenDispute(s, now, e.payee, id, reason, bond).Ok? <==> now < e.challengeDeadline))
            && (RefundEscrow(s, now, e.payer, id).Ok? <==> e.payer != "" && now >= e.challengeDeadline)
  {
  }
}
