/** A verdict by its votes: which side wins, where the money and every stake go, counted on the records and
    not by the handler's own tally. */
module Rulings {
  import opened Outcomes
  import opened Integers
  import opened Types
  import opened Ledger
  import opened Jury
  import opened Conservation
  import opened Conserved
  import opened Custody
  import opened CustodyKept
  import opened Settlement

  // ---- Who wins -----------------------------------------------------------

  /** The places of the votes for the work. */
  function For(votes: seq<Vote>): set<nat> {
    set i | 0 <= i < |votes| && votes[i].accept
  }

  function Against(votes: seq<Vote>): set<nat> {
    set i | 0 <= i < |votes| && !votes[i].accept
  }

  lemma {:induction false} TallyCounts(votes: seq<Vote>, side: bool, i: nat)
    requires i <= |votes|
    ensures TallyFrom(votes, side, i) == |set j | i <= j < |votes| && votes[j].accept == side|
    decreases |votes| - i
  {
    var here := set j | i <= j < |votes| && votes[j].accept == side;
    if i == |votes| {
      assert here == {};
    } else {
      TallyCounts(votes, side, i + 1);
      var rest := set j | i + 1 <= j < |votes| && votes[j].accept == side;
      assert here == if votes[i].accept == side then rest + {i} else rest;
    }
  }

  lemma TallyOfSides(votes: seq<Vote>)
    ensures TallyFrom(votes, true, 0) == |For(votes)| && TallyFrom(votes, false, 0) == |Against(votes)|
    ensures |For(votes)| + |Against(votes)| == |votes|
  {
    TallyCounts(votes, true, 0);
    TallyCounts(votes, false, 0);
    TallyAll(votes, 0);
    assert For(votes) == set j | 0 <= j < |votes| && votes[j].accept == true;
    assert Against(votes) == set j | 0 <= j < |votes| && votes[j].accept == false;
  }

  lemma {:induction false} TallyAll(votes: seq<Vote>, i: nat)
    requires i <= |votes|
    ensures TallyFrom(votes, true, i) + TallyFrom(votes, false, i) == |votes| - i
    decreases |votes| - i
  {
    if i < |votes| { TallyAll(votes, i + 1); }
  }

  /** More votes stand for the work than against it. */
  predicate Carried(d: Dispute) {
    |For(d.votes)| > |Against(d.votes)|
  }

  lemma VerdictIsMajority(env: Env, d: Dispute)
    ensures Verdict(env, d).Ok? <==> 2 * |d.votes| > |env.anchors| && |For(d.votes)| != |Against(d.votes)|
    ensures Verdict(env, d).Ok? ==> Verdict(env, d).value == Carried(d)
  {
    TallyOfSides(d.votes);
  }

  /** The party the verdict favours. */
  function Favoured(d: Dispute, e: Escrow): Addr {
    if Carried(d) then e.payee else e.payer
  }

  lemma EscrowSettled(s: State, now: UnixTime, e: Escrow, accept: bool)
    ensures var r := SettleEscrow(s, now, e, accept);
            r.Ok? ==>
              r.value.escrows == s.escrows[e.id :=
                if e.status == Challenged then e.(status := Released)
                else if accept then e.(status := Released, releasedAt := now)
                else e.(status := Refunded)]
  {
    hide Add64, FreshAccount;
  }

  /** The side with more votes wins. More than half of all anchors have voted, the case is recorded as
      accepted exactly when more of them voted for the work than against it, and then an escrow before the
      jury is released, otherwise refunded; a challenged release returns to released either way. Nothing
      else in the records of cases and escrows changes. */
  lemma MajorityRules(env: Env, s: State, clock: int, now: UnixTime, c: Addr, k: nat)
    requires Books(s) && InCustody(env, s, clock)
    ensures var r := ResolveDispute(env, s, now, c, k);
            r.Ok? ==>
              && k in s.disputes && s.disputes[k].escrowId in s.escrows
              && var d, e := s.disputes[k], s.escrows[s.disputes[k].escrowId];
                 var yes, no := |set i | 0 <= i < |d.votes| && d.votes[i].accept|, |set i | 0 <= i < |d.votes| && !d.votes[i].accept|;
              && yes != no && 2 * (yes + no) > |env.anchors|
              && r.value.disputes == s.disputes[k := d.(status := Resolved, resolution := if yes > no then Accept else Reject)]
              && r.value.escrows == s.escrows[d.escrowId :=
                   if e.status == Challenged then e.(status := Released)
                   else if yes > no then e.(status := Released, releasedAt := now)
                   else e.(status := Refunded)]
  {
    hide Parties, Supply, InCustody, SettleVerdict, SettleEscrow, Verdict, Balanced, EscrowTerms, EscrowBacked, DisputeTerms, DisputeBacked, TouchesOnly;
    var r := ResolveDispute(env, s, now, c, k);
    if r.Ok? {
      var d, e := s.disputes[k], s.escrows[s.disputes[k].escrowId];
      VerdictIsMajority(env, d);
      TallyOfSides(d.votes);
      EscrowOf(s, d.escrowId);
      SettleEscrowBalanced(s, now, e, Carried(d));
      SettleVerdictEffect(s, now, d, e, Carried(d));
      EscrowSettled(s, now, e, Carried(d));
    }
  }

  // ---- Where the collateral goes ------------------------------------------

  /** The verdict is the one the opener asked for: a refund if it is the payer, a release if it is the payee. */
  predicate Upheld(d: Dispute, e: Escrow) {
    (d.opener == e.payer && !Carried(d)) || (d.opener == e.payee && Carried(d))
  }

  /** Attestation `i` is the first that passed the work. */
  predicate FirstPass(e: Escrow, i: nat) {
    i < |e.attestations| && e.attestations[i].passed && forall j | 0 <= j < i :: !e.attestations[j].passed
  }

  /** An upheld opener gets its bond back. Otherwise the other party gets it; but what a payer loses on a
      challenge goes to the first verifier that passed the work, if there is one. */
  predicate BondGoesTo(d: Dispute, e: Escrow, to: Addr) {
    if Upheld(d, e) then to == d.opener
    else if e.status == Challenged && !AllFailed(e) then exists i: nat | i < |e.attestations| :: FirstPass(e, i) && to == e.attestations[i].verifier
    else to == if d.opener == e.payer then e.payee else e.payer
  }

  predicate AllFailed(e: Escrow) {
    forall i | 0 <= i < |e.attestations| :: !e.attestations[i].passed
  }

  lemma {:induction false} FirstPassFound(e: Escrow, i: nat, other: Addr)
    requires i <= |e.attestations| && forall j | 0 <= j < i :: !e.attestations[j].passed
    ensures var to := FirstPassFrom(e.attestations, i, other);
            if AllFailed(e) then to == other else exists j: nat | j < |e.attestations| :: FirstPass(e, j) && to == e.attestations[j].verifier
    decreases |e.attestations| - i
  {
    if i < |e.attestations| {
      if e.attestations[i].passed { assert FirstPass(e, i); } else { FirstPassFound(e, i + 1, other); }
    }
  }

  lemma BondGoesToRecipient(d: Dispute, e: Escrow, to: Addr)
    ensures BondGoesTo(d, e, to) <==> to == DisputeBondRecipient(e, d, Carried(d))
  {
    hide Carried;
    var griefed := if d.opener == e.payer then e.payee else e.payer;
    FirstPassFound(e, 0, griefed);
    if !Upheld(d, e) && e.status == Challenged && !AllFailed(e) && BondGoesTo(d, e, to) {
      var i: nat :| i < |e.attestations| && FirstPass(e, i) && to == e.attestations[i].verifier;
      var j: nat :| j < |e.attestations| && FirstPass(e, j) && FirstPassFrom(e.attestations, 0, griefed) == e.attestations[j].verifier;
      assert i == j;
    }
  }

  function ActiveAmount(bonds: map<nat, Bond>, id: nat): nat {
    if id in bonds && bonds[id].status == Active then bonds[id].amount else 0
  }

  /** What account `a` gets of the jurors' stakes, from the `i`-th on: its own back if it voted as the jury
      ruled, and those of jurors that did not, if the verdict favours it. */
  function FromJurors(bonds: map<nat, Bond>, d: Dispute, e: Escrow, a: Addr, i: nat): nat
    requires i <= |d.votes|
    decreases |d.votes| - i
  {
    if i == |d.votes| then 0
    else
      (if a == (if d.votes[i].accept == Carried(d) then d.votes[i].juror else Favoured(d, e)) then ActiveAmount(bonds, d.votes[i].bondId) else 0)
      + FromJurors(bonds, d, e, a, i + 1)
  }

  /** The same for the verifiers' stakes. */
  function FromVerifiers(bonds: map<nat, Bond>, d: Dispute, e: Escrow, a: Addr, i: nat): nat
    requires i <= |e.attestations|
    decreases |e.attestations| - i
  {
    if i == |e.attestations| then 0
    else
      (if a == (if e.attestations[i].passed == Carried(d) then e.attestations[i].verifier else Favoured(d, e))
       then ActiveAmount(bonds, e.attestations[i].bondId) else 0)
      + FromVerifiers(bonds, d, e, a, i + 1)
  }

  lemma {:induction false} JurorsDue(bonds: map<nat, Bond>, d: Dispute, e: Escrow, a: Addr, i: nat)
    requires i <= |d.votes|
    ensures Due(bonds, VoteStakes(d.votes)[i..], Carried(d), Favoured(d, e), a) == FromJurors(bonds, d, e, a, i)
    decreases |d.votes| - i
  {
    hide Carried, Favoured;
    var stakes := VoteStakes(d.votes);
    if i < |d.votes| {
      JurorsDue(bonds, d, e, a, i + 1);
      assert stakes[i..][0] == VoteStake(d.votes[i]) && stakes[i..][1..] == stakes[i + 1..];
    }
  }

  lemma {:induction false} VerifiersDue(bonds: map<nat, Bond>, d: Dispute, e: Escrow, a: Addr, i: nat)
    requires i <= |e.attestations|
    ensures Due(bonds, AttestationStakes(e.attestations)[i..], Carried(d), Favoured(d, e), a) == FromVerifiers(bonds, d, e, a, i)
    decreases |e.attestations| - i
  {
    hide Carried, Favoured;
    var stakes := AttestationStakes(e.attestations);
    if i < |e.attestations| {
      VerifiersDue(bonds, d, e, a, i + 1);
      assert stakes[i..][0] == AttestationStake(e.attestations[i]) && stakes[i..][1..] == stakes[i + 1..];
    }
  }

  /** What account `a` receives from the verdict on case `d` about escrow `e`, if the opener's bond goes to
      `to`. */
  function RulingPays(bonds: map<nat, Bond>, d: Dispute, e: Escrow, to: Addr, a: Addr): nat {
    (if e.status == InJury && a == Favoured(d, e) then e.amount else 0)
    + (if a == to then ActiveAmount(bonds, d.bondId) else 0)
    + FromJurors(bonds, d, e, a, 0) + FromVerifiers(bonds, d, e, a, 0)
  }

  lemma RulingIsVerdict(s: State, d: Dispute, e: Escrow, to: Addr, a: Addr)
    requires BondGoesTo(d, e, to)
    ensures RulingPays(s.bonds, d, e, to, a) == VerdictPays(s, d, e, Carried(d), a)
  {
    hide Carried, Due, FromJurors, FromVerifiers, BondGoesTo, VoteStakes, AttestationStakes;
    BondGoesToRecipient(d, e, to);
    JurorsDue(s.bonds, d, e, a, 0);
    VerifiersDue(s.bonds, d, e, a, 0);
    assert VoteStakes(d.votes)[0..] == VoteStakes(d.votes);
    assert AttestationStakes(e.attestations)[0..] == AttestationStakes(e.attestations);
  }

  /** A verdict pays every account, to the unit, what the majority's side makes its due: the escrowed
      amount to the favoured party if the jury still held it, the opener's bond, the stakes of coherent
      jurors and verifiers to their owners, all other stakes to the favoured party. */
  lemma RulingPaysAll(env: Env, s: State, clock: int, now: UnixTime, c: Addr, k: nat)
    requires Books(s) && InCustody(env, s, clock)
    ensures var r := ResolveDispute(env, s, now, c, k);
            r.Ok? ==>
              && k in s.disputes && s.disputes[k].escrowId in s.escrows
              && var d, e := s.disputes[k], s.escrows[s.disputes[k].escrowId];
              && (exists to :: BondGoesTo(d, e, to))
              && forall to, a | BondGoesTo(d, e, to) :: BalanceAt(r.value, a) == BalanceAt(s, a) + RulingPays(s.bonds, d, e, to, a)
  {
    hide Keyed, Parties, Supply, InCustody, SettleVerdict, Verdict, EscrowTerms, EscrowBacked, DisputeTerms, DisputeBacked, TouchesOnly,
         RulingPays, VerdictPays, BondGoesTo;
    var r := ResolveDispute(env, s, now, c, k);
    if r.Ok? {
      var d, e := s.disputes[k], s.escrows[s.disputes[k].escrowId];
      DisputeAt(env, s, clock, k);
      EscrowAt(env, s, clock, d.escrowId);
      VerdictIsMajority(env, d);
      SettleVerdictPays(env, s, now, d, e, Carried(d));
      BondGoesToRecipient(d, e, DisputeBondRecipient(e, d, Carried(d)));
      forall to, a | BondGoesTo(d, e, to)
        ensures BalanceAt(r.value, a) == BalanceAt(s, a) + RulingPays(s.bonds, d, e, to, a)
      {
        RulingIsVerdict(s, d, e, to, a);
      }
    }
  }

  // ---- How the stakes are marked ------------------------------------------

  /** Freed when the verdict bears it out, slashed when it does not; a stake that was no longer active stays
      as it was. */
  function Marked(b: Bond, borneOut: bool): Bond {
    if b.status != Active then b else b.(status := if borneOut then Freed else Slashed)
  }

  lemma SettleStakeMarks(s: State, k: Stake, purpose: string, accept: bool, winner: Addr)
    requires Books(s) && Known(s.accounts, winner) && Known(s.accounts, k.owner) && Backs(s.bonds, k.bondId, purpose, k.owner)
    ensures var r := SettleStake(s, k, purpose, accept, winner);
            r.Ok? && r.value.bonds == s.bonds[k.bondId := Marked(s.bonds[k.bondId], k.verdict == accept)]
  {
    if IsActive(s, k.bondId) {
      SettleBondPays(s, k.bondId, Payee(k, accept, winner), if k.verdict == accept then Freed else Slashed);
    }
  }

  /** From `b` to `c` the listed stakes are marked by the verdict, and no other bond has changed. */
  predicate MarksOnly(b: map<nat, Bond>, c: map<nat, Bond>, stakes: seq<Stake>, accept: bool) {
    && c.Keys == b.Keys
    && (forall i | 0 <= i < |stakes| ::
          stakes[i].bondId in b && c[stakes[i].bondId] == Marked(b[stakes[i].bondId], stakes[i].verdict == accept))
    && forall id | id in b && (forall i | 0 <= i < |stakes| :: stakes[i].bondId != id) :: c[id] == b[id]
  }

  /** Settling a list of stakes marks each of them, and touches no other bond. */
  lemma {:induction false} SettleStakesMark(s: State, stakes: seq<Stake>, purpose: string, accept: bool, winner: Addr)
    requires Books(s) && StakesKnown(s.accounts, stakes, winner) && StakesBacked(s.bonds, stakes, purpose)
    ensures var r := SettleStakes(s, stakes, purpose, accept, winner);
            && r.Ok? && r.value.bonds.Keys == s.bonds.Keys
            && MarksOnly(s.bonds, r.value.bonds, stakes, accept)
    decreases |stakes|
  {
    hide Keyed, Parties, Supply, SettleStake, Marked, MarksOnly;
    if stakes == [] {
      NothingMarked(s.bonds, stakes, accept);
    } else {
      var k, rest := stakes[0], stakes[1..];
      SettleStakeBalanced(s, k, purpose, accept, winner);
      SettleStakeMarks(s, k, purpose, accept, winner);
      var t := SettleStake(s, k, purpose, accept, winner).value;
      forall i | 0 <= i < |rest|
        ensures rest[i] == stakes[i + 1] && rest[i].bondId != k.bondId && Backs(t.bonds, rest[i].bondId, purpose, rest[i].owner)
      {
        assert Backs(s.bonds, stakes[i + 1].bondId, purpose, stakes[i + 1].owner) && Backs(s.bonds, k.bondId, purpose, k.owner);
      }
      assert StakesBacked(t.bonds, rest, purpose);
      SettleStakesMark(t, rest, purpose, accept, winner);
      MarksExtend(s.bonds, t.bonds, SettleStakes(t, rest, purpose, accept, winner).value.bonds, stakes, accept);
    }
  }

  lemma NothingMarked(b: map<nat, Bond>, stakes: seq<Stake>, accept: bool)
    requires stakes == []
    ensures MarksOnly(b, b, stakes, accept)
  {
  }

  lemma MarksExtend(b: map<nat, Bond>, c: map<nat, Bond>, d: map<nat, Bond>, stakes: seq<Stake>, accept: bool)
    requires stakes != [] && stakes[0].bondId in b
    requires c == b[stakes[0].bondId := Marked(b[stakes[0].bondId], stakes[0].verdict == accept)] && MarksOnly(c, d, stakes[1..], accept)
    requires forall i | 0 < i < |stakes| :: stakes[i].bondId != stakes[0].bondId
    ensures MarksOnly(b, d, stakes, accept)
  {
    hide Marked;
    var rest := stakes[1..];
    assert forall i | 0 < i < |stakes| :: stakes[i] == rest[i - 1];
    assert forall i | 0 <= i < |rest| :: rest[i] == stakes[i + 1];
  }

  lemma OpenerBondMarked(s: State, e: Escrow, d: Dispute)
    requires Books(s) && EscrowKnown(s.accounts, e) && DisputeKnown(s.accounts, d)
    requires Backs(s.bonds, d.bondId, DisputePurpose(d.id), d.opener)
    ensures var r := SettleDisputeBond(s, e, d, Carried(d));
            r.Ok? && r.value.bonds == s.bonds[d.bondId := Marked(s.bonds[d.bondId], Upheld(d, e))]
  {
    hide Carried;
    RecipientKnown(s.accounts, e, d, Carried(d));
    if IsActive(s, d.bondId) {
      SettleBondPays(s, d.bondId, DisputeBondRecipient(e, d, Carried(d)), if Upheld(d, e) then Freed else Slashed);
    }
  }

  /** The stakes of case `d` and escrow `e` are marked as the majority ruled. */
  predicate StakesRuled(b: map<nat, Bond>, c: map<nat, Bond>, d: Dispute, e: Escrow) {
    && d.bondId in b && d.bondId in c && c[d.bondId] == Marked(b[d.bondId], Upheld(d, e))
    && (forall i | 0 <= i < |d.votes| ::
          && d.votes[i].bondId in b && d.votes[i].bondId in c
          && c[d.votes[i].bondId] == Marked(b[d.votes[i].bondId], d.votes[i].accept == Carried(d)))
    && (forall i | 0 <= i < |e.attestations| ::
          && e.attestations[i].bondId in b && e.attestations[i].bondId in c
          && c[e.attestations[i].bondId] == Marked(b[e.attestations[i].bondId], e.attestations[i].passed == Carried(d)))
  }

  /** A bond that is none of these. */
  predicate Uninvolved(id: nat, d: Dispute, e: Escrow) {
    && id != d.bondId
    && (forall i | 0 <= i < |d.votes| :: d.votes[i].bondId != id)
    && (forall i | 0 <= i < |e.attestations| :: e.attestations[i].bondId != id)
  }

  lemma VotesMarked(b: map<nat, Bond>, c: map<nat, Bond>, d: Dispute, accept: bool)
    requires MarksOnly(b, c, VoteStakes(d.votes), accept)
    ensures forall i | 0 <= i < |d.votes| ::
              d.votes[i].bondId in b && c[d.votes[i].bondId] == Marked(b[d.votes[i].bondId], d.votes[i].accept == accept)
    ensures forall id | id in b && (forall i | 0 <= i < |d.votes| :: d.votes[i].bondId != id) :: c[id] == b[id]
  {
    hide Marked;
    assert forall i | 0 <= i < |d.votes| :: VoteStakes(d.votes)[i] == VoteStake(d.votes[i]);
  }

  lemma AttestationsMarked(b: map<nat, Bond>, c: map<nat, Bond>, e: Escrow, accept: bool)
    requires MarksOnly(b, c, AttestationStakes(e.attestations), accept)
    ensures forall i | 0 <= i < |e.attestations| ::
              && e.attestations[i].bondId in b
              && c[e.attestations[i].bondId] == Marked(b[e.attestations[i].bondId], e.attestations[i].passed == accept)
    ensures forall id | id in b && (forall i | 0 <= i < |e.attestations| :: e.attestations[i].bondId != id) :: c[id] == b[id]
  {
    hide Marked;
    assert forall i | 0 <= i < |e.attestations| :: AttestationStakes(e.attestations)[i] == AttestationStake(e.attestations[i]);
  }

  /** The three kinds of stake are told apart by their purposes. */
  lemma StakesDiffer(b: map<nat, Bond>, d: Dispute, e: Escrow)
    requires DisputeBacked(b, d) && EscrowBacked(b, e)
    ensures d.bondId in b
    ensures forall i | 0 <= i < |d.votes| :: d.votes[i].bondId in b && d.votes[i].bondId != d.bondId
    ensures forall i | 0 <= i < |e.attestations| :: e.attestations[i].bondId in b && e.attestations[i].bondId != d.bondId
    ensures forall i, j | 0 <= i < |d.votes| && 0 <= j < |e.attestations| :: d.votes[i].bondId != e.attestations[j].bondId
  {
    hide DisputePurpose, JurorPurpose, AttestationPurpose;
    PurposesDiffer(d.id, d.id);
    PurposesDiffer(d.id, e.id);
  }

  lemma MarksCombine(b: map<nat, Bond>, b2: map<nat, Bond>, b3: map<nat, Bond>, b4: map<nat, Bond>, d: Dispute, e: Escrow)
    requires DisputeBacked(b, d) && EscrowBacked(b, e) && d.bondId in b && b2 == b[d.bondId := Marked(b[d.bondId], Upheld(d, e))]
    requires MarksOnly(b2, b3, VoteStakes(d.votes), Carried(d)) && MarksOnly(b3, b4, AttestationStakes(e.attestations), Carried(d))
    ensures StakesRuled(b, b4, d, e)
    ensures b4.Keys == b.Keys && forall id | id in b && Uninvolved(id, d, e) :: b4[id] == b[id]
  {
    hide Carried, Upheld, Marked, DisputeBacked, EscrowBacked, VoteStakes, AttestationStakes;
    hide MarksOnly;
    StakesDiffer(b, d, e);
    assert b3.Keys == b2.Keys == b.Keys && b4.Keys == b3.Keys by {
      KeysMarked(b2, b3, VoteStakes(d.votes), Carried(d));
      KeysMarked(b3, b4, AttestationStakes(e.attestations), Carried(d));
    }
    VotesMarked(b2, b3, d, Carried(d));
    AttestationsMarked(b3, b4, e, Carried(d));
    assert b4[d.bondId] == b3[d.bondId] == b2[d.bondId];
    forall i | 0 <= i < |d.votes|
      ensures b4[d.votes[i].bondId] == Marked(b[d.votes[i].bondId], d.votes[i].accept == Carried(d))
    {
      assert b4[d.votes[i].bondId] == b3[d.votes[i].bondId];
    }
    forall i | 0 <= i < |e.attestations|
      ensures b4[e.attestations[i].bondId] == Marked(b[e.attestations[i].bondId], e.attestations[i].passed == Carried(d))
    {
      assert b3[e.attestations[i].bondId] == b2[e.attestations[i].bondId];
    }
    forall id | id in b && Uninvolved(id, d, e)
      ensures b4[id] == b[id]
    {
      assert b4[id] == b3[id] == b2[id];
    }
  }

  lemma KeysMarked(b: map<nat, Bond>, c: map<nat, Bond>, stakes: seq<Stake>, accept: bool)
    requires MarksOnly(b, c, stakes, accept)
    ensures c.Keys == b.Keys
  {
  }

  /** A verdict settles every stake that is still locked for it, frees the ones it bears out and slashes
      the others, and touches no other bond. */
  lemma RulingMarks(env: Env, s: State, clock: int, now: UnixTime, c: Addr, k: nat)
    requires Books(s) && InCustody(env, s, clock)
    ensures var r := ResolveDispute(env, s, now, c, k);
            r.Ok? ==>
              && k in s.disputes && s.disputes[k].escrowId in s.escrows
              && var d, e := s.disputes[k], s.escrows[s.disputes[k].escrowId];
              && StakesRuled(s.bonds, r.value.bonds, d, e)
              && r.value.bonds.Keys == s.bonds.Keys && forall id | id in s.bonds && Uninvolved(id, d, e) :: r.value.bonds[id] == s.bonds[id]
  {
    hide Keyed, Parties, Supply, InCustody, SettleVerdict, Verdict, Uninvolved, StakesRuled, EscrowTerms, EscrowBacked, DisputeTerms,
         DisputeBacked;
    var r := ResolveDispute(env, s, now, c, k);
    if r.Ok? {
      var d, e := s.disputes[k], s.escrows[s.disputes[k].escrowId];
      DisputeAt(env, s, clock, k);
      EscrowAt(env, s, clock, d.escrowId);
      DisputeOf(s, k);
      VerdictIsMajority(env, d);
      VerdictMarks(env, s, now, d, e);
    }
  }

  lemma VerdictMarks(env: Env, s: State, now: UnixTime, d: Dispute, e: Escrow)
    requires Books(s) && d.id in s.disputes && d == s.disputes[d.id]
    requires e.id in s.escrows && e == s.escrows[e.id] && e.status in {InJury, Challenged}
    requires EscrowTerms(e) && EscrowBacked(s.bonds, e) && DisputeTerms(env, e, d) && DisputeBacked(s.bonds, d)
    ensures var r := SettleVerdict(s, now, d, e, Carried(d));
            && r.Ok? && StakesRuled(s.bonds, r.value.bonds, d, e)
            && r.value.bonds.Keys == s.bonds.Keys && forall id | id in s.bonds && Uninvolved(id, d, e) :: r.value.bonds[id] == s.bonds[id]
  {
    hide Keyed, Parties, Supply, Carried, SettleStakes, SettleEscrow, SettleDisputeBond, EscrowTerms, EscrowBacked, DisputeTerms,
         DisputeBacked, TouchesOnly, Marked, MarksOnly, Upheld, StakesBacked, StakesRuled, Uninvolved, VoteStakes, AttestationStakes;
    var accept := Carried(d);
    var w, votes, atts := Winner(e, accept), VoteStakes(d.votes), AttestationStakes(e.attestations);
    DisputeOf(s, d.id);
    SettleEscrowBalanced(s, now, e, accept);
    SettleEscrowPays(s, now, e, accept);
    var s1 := SettleEscrow(s, now, e, accept).value;
    VotesBacked(s.bonds, env, e, d);
    AttestationsBacked(s.bonds, e);
    PurposesDiffer(d.id, d.id);
    PurposesDiffer(d.id, e.id);
    BondOf(s.bonds, d);
    SettleDisputeBondBalanced(s1, e, d, accept);
    SettleDisputeBondTouches(s1, e, d, accept);
    OpenerBondMarked(s1, e, d);
    var s2 := SettleDisputeBond(s1, e, d, accept).value;
    StillBacked(s1.bonds, s2.bonds, votes, JurorPurpose(d.id), DisputePurpose(d.id));
    StillBacked(s1.bonds, s2.bonds, atts, AttestationPurpose(e.id), DisputePurpose(d.id));
    OwnersKnown(s2.accounts, d, e, w);
    SettleStakesBalanced(s2, votes, JurorPurpose(d.id), accept, w);
    SettleStakesTouches(s2, votes, JurorPurpose(d.id), accept, w);
    SettleStakesMark(s2, votes, JurorPurpose(d.id), accept, w);
    var s3 := SettleStakes(s2, votes, JurorPurpose(d.id), accept, w).value;
    StillBacked(s2.bonds, s3.bonds, atts, AttestationPurpose(e.id), JurorPurpose(d.id));
    OwnersKnown(s3.accounts, d, e, w);
    SettleStakesBalanced(s3, atts, AttestationPurpose(e.id), accept, w);
    SettleStakesMark(s3, atts, AttestationPurpose(e.id), accept, w);
    var s4 := SettleStakes(s3, atts, AttestationPurpose(e.id), accept, w).value;
    MarksCombine(s1.bonds, s2.bonds, s3.bonds, s4.bonds, d, e);
  }
}
