/** An evenly split jury: nothing in any run moves the case, its escrow or its stakes again. Any other open
    case can be decided. */
module Standoffs {
  import opened Outcomes
  import opened Integers
  import opened Types
  import opened Escrows
  import opened Jury
  import opened Bonds
  import opened Gates
  import opened Machine
  import opened Conservation
  import opened Conserved
  import opened Custody
  import opened CustodyKept
  import opened Lives
  import opened Rulings
  import opened Verdicts
  import Reputation

  /** Every anchor has voted on the open case `k`, and the sides are equal. */
  predicate Standoff(env: Env, s: State, k: nat) {
    && k in s.disputes && s.disputes[k].status == Open
    && (forall a | a in env.anchors :: HasVoted(s.disputes[k].votes, a))
    && TallyFrom(s.disputes[k].votes, true, 0) == TallyFrom(s.disputes[k].votes, false, 0)
  }

  /** The stakes held for case `k` and for escrow `id`. */
  predicate StakeOf(b: Bond, k: nat, id: nat) {
    b.slasher == "" && b.purpose in {DisputePurpose(k), JurorPurpose(k), AttestationPurpose(id)}
  }

  /** From `s` to `t` case `k`, escrow `id` and all their stakes are as they were. */
  ghost predicate Undisturbed(s: State, t: State, k: nat, id: nat) {
    && id in s.escrows && id in t.escrows && t.escrows[id] == s.escrows[id]
    && k in s.disputes && k in t.disputes && t.disputes[k] == s.disputes[k]
    && forall b | b in s.bonds && StakeOf(s.bonds[b], k, id) :: b in t.bonds && t.bonds[b] == s.bonds[b]
  }

  predicate About(m: Msg, k: nat) {
    m.ToJury? && (m.jury.MsgCastVote? || m.jury.MsgResolveDispute?) && m.jury.id == k
  }

  lemma OtherStakes(s: State, m: Msg, k: nat, id: nat)
    requires !About(m, k)
    requires m.ToEscrows? && m.escrow.MsgReclaimAttestationBonds? ==> m.escrow.id != id
    requires m.ToJury? && m.jury.MsgResolveDispute? && m.jury.id in s.disputes ==> s.disputes[m.jury.id].escrowId != id
    ensures forall b: Bond | StakeOf(b, k, id) :: b.purpose !in SettledPurposes(s, m)
  {
    hide DisputePurpose, JurorPurpose, AttestationPurpose;
    if m.ToEscrows? && m.escrow.MsgReclaimAttestationBonds? {
      PurposesDiffer(k, m.escrow.id);
      PurposesDiffer(id, m.escrow.id);
    } else if m.ToJury? && m.jury.MsgResolveDispute? && m.jury.id in s.disputes {
      var l := m.jury.id;
      var other := s.disputes[l].escrowId;
      PurposesDiffer(k, l);
      PurposesDiffer(l, k);
      PurposesDiffer(k, other);
      PurposesDiffer(l, id);
      PurposesDiffer(id, other);
    }
  }

  /** A step that leaves the escrow and the case as they are, and is about neither. */
  ghost predicate Elsewhere(s: State, t: State, m: Msg, k: nat, id: nat) {
    && id in s.escrows && id in t.escrows && t.escrows[id] == s.escrows[id]
    && k in s.disputes && k in t.disputes && t.disputes[k] == s.disputes[k]
    && (m.ToEscrows? && m.escrow.MsgReclaimAttestationBonds? ==> m.escrow.id != id)
    && (m.ToJury? && m.jury.MsgResolveDispute? && m.jury.id in s.disputes ==> s.disputes[m.jury.id].escrowId != id)
  }

  lemma EscrowMessagesElsewhere(env: Env, s: State, now: UnixTime, x: EscrowMsg, k: nat, id: nat)
    requires Books(s) && OpenOn(s, k, id) && id in s.escrows && s.escrows[id].status in {InJury, Challenged}
    ensures var r := HandleEscrow(env, s, now, x);
            r.Ok? ==> Elsewhere(s, r.value, ToEscrows(x), k, id)
  {
    hide Keyed, Parties, Supply, TouchesOnly, Evolves, LockEscrow, AttestEscrow, ReclaimFrom, ReleaseEscrow, RefundEscrow,
      VerifiedRelease, SubmitEscrow, DisputeEscrow;
    var r := HandleEscrow(env, s, now, x);
    if r.Ok? {
      if x.MsgLockEscrow? { LockEscrowEffect(s, now, x.request); }
      else if x.MsgAttestEscrow? {
        AttestEscrowEffect(s, now, x.creator, x.id, x.passed, x.stake, x.deliveryHash, x.keyHash, x.acceptanceHash);
      }
      else if x.MsgReclaimAttestationBonds? { ReclaimTouches(s, s.escrows[x.id], 0); }
      else { MoveEffect(env, s, now, x); }
    }
  }

  lemma ResolveElsewhere(env: Env, s: State, now: UnixTime, c: Addr, l: nat, k: nat, id: nat)
    requires Books(s) && InCustody(env, s, now) && OpenOn(s, k, id) && id in s.escrows && l != k
    ensures var r := ResolveDispute(env, s, now, c, l);
            r.Ok? ==> Elsewhere(s, r.value, ToJury(MsgResolveDispute(c, l)), k, id)
  {
    hide Keyed, Parties, Supply, InCustody, ResolveDispute, TouchesOnly, Evolves, EscrowSound, DisputeSound;
    ResolveDisputeEffect(env, s, now, c, l);
    Cases(env, s, now);
    if ResolveDispute(env, s, now, c, l).Ok? { assert OpenOn(s, l, s.disputes[l].escrowId); }
  }

  lemma JuryMessagesElsewhere(env: Env, s: State, now: UnixTime, x: JuryMsg, k: nat, id: nat)
    requires Books(s) && InCustody(env, s, now) && OpenOn(s, k, id) && id in s.escrows && !About(ToJury(x), k)
    requires s.escrows[id].status in {InJury, Challenged}
    ensures var r := HandleJury(env, s, now, x);
            r.Ok? ==> Elsewhere(s, r.value, ToJury(x), k, id)
  {
    hide Keyed, Parties, Supply, InCustody, OpenDispute, CastVote, ResolveDispute, TouchesOnly, Evolves;
    var r := HandleJury(env, s, now, x);
    if r.Ok? {
      match x {
        case MsgOpenDispute(c, i, reason, bond) => OpenDisputeEffect(s, now, c, i, reason, bond);
        case MsgCastVote(c, l, accept, stake) => CastVoteEffect(env, s, c, l, accept, stake);
        case MsgResolveDispute(c, l) => ResolveElsewhere(env, s, now, c, l, k, id);
      }
    }
  }

  /** No other message may name the frozen escrow or take its case's place. */
  lemma MessagesElsewhere(env: Env, s: State, now: UnixTime, m: Msg, k: nat, id: nat)
    requires Books(s) && InCustody(env, s, now) && OpenOn(s, k, id) && id in s.escrows && !About(m, k)
    ensures var r := Step(env, s, now, m);
            r.Ok? ==> Elsewhere(s, r.value, m, k, id)
  {
    hide Keyed, Parties, Supply, InCustody, HandleEscrow, HandleJury, HandleBond, HandleGate, TouchesOnly;
    OpenCase(env, s, now, k);
    match m {
      case ToEscrows(x) => EscrowMessagesElsewhere(env, s, now, x, k, id);
      case ToJury(x) => JuryMessagesElsewhere(env, s, now, x, k, id);
      case ToBonds(b) =>
        if b.MsgPostBond? || b.MsgReleaseBond? || b.MsgSlashBond? { CollateralFrame(s, b); } else { MoneyFrame(s, b); }
      case ToGates(g) => GatesFrame(env, s, now, g);
    }
  }

  /** Only a vote or a verdict on the case disturbs it. */
  lemma OthersLeaveCaseAlone(env: Env, s: State, now: UnixTime, m: Msg, k: nat, id: nat)
    requires Books(s) && InCustody(env, s, now) && OpenOn(s, k, id) && id in s.escrows && !About(m, k)
    ensures var r := Step(env, s, now, m);
            r.Ok? ==> Undisturbed(s, r.value, k, id)
  {
    hide Keyed, Parties, Supply, InCustody, Step, Evolves, SettledPurposes, StakeOf;
    var r := Step(env, s, now, m);
    if r.Ok? {
      MessagesElsewhere(env, s, now, m, k, id);
      StepEffect(env, s, now, m);
      OtherStakes(s, m, k, id);
      forall b | b in s.bonds && StakeOf(s.bonds[b], k, id)
        ensures b in r.value.bonds && r.value.bonds[b] == s.bonds[b]
      {
        ProtocolHeld(s.bonds[b], k, id);
      }
    }
  }

  lemma ProtocolHeld(b: Bond, k: nat, id: nat)
    requires StakeOf(b, k, id)
    ensures b.slasher == ""
  {
  }

  /** Nobody is left to vote, and the tie refuses a verdict. */
  lemma StandoffRefuses(env: Env, s: State, now: UnixTime, m: Msg, k: nat)
    requires Standoff(env, s, k) && About(m, k)
    ensures Step(env, s, now, m).Err?
  {
  }

  /** An evenly split jury never resolves: in every run, whatever messages it is made of, the case stays
      open, and its escrow and every stake of the case and the escrow stay exactly as they are. */
  lemma {:induction false} EvenSplitNeverResolves(env: Env, s: State, clock: int, txs: seq<Tx>, k: nat)
    requires Books(s) && InCustody(env, s, clock) && InOrder(clock, txs) && Standoff(env, s, k)
    ensures var t, d := Run(env, s, txs), s.disputes[k];
            && Undisturbed(s, t, k, d.escrowId) && Standoff(env, t, k)
            && t.escrows[d.escrowId].status in {InJury, Challenged}
            && Backs(t.bonds, d.bondId, DisputePurpose(k), d.opener) && t.bonds[d.bondId].status == Active
            && forall i | 0 <= i < |d.votes| ::
                 Backs(t.bonds, d.votes[i].bondId, JurorPurpose(k), d.votes[i].juror) && t.bonds[d.votes[i].bondId].status == Active
    decreases |txs|
  {
    hide Keyed, Parties, Supply, InCustody, Step, TouchesOnly, HasVoted, TallyFrom, StakeOf;
    OpenCase(env, s, clock, k);
    if txs == [] {
      DisputeAt(env, s, clock, k);
    } else {
      var now, m, rest := txs[0].now, txs[0].msg, txs[1..];
      var t := Apply(env, s, now, m);
      LaterClock(env, s, clock, now);
      StepBalanced(env, s, now, m);
      StepKeepsCustody(env, s, now, m);
      if About(m, k) {
        StandoffRefuses(env, s, now, m, k);
      } else {
        OthersLeaveCaseAlone(env, s, now, m, k, s.disputes[k].escrowId);
      }
      assert InOrder(now, rest);
      EvenSplitNeverResolves(env, t, now, rest, k);
    }
  }

  // ---- Any other case can be decided --------------------------------------

  /** The anchors that have not voted. */
  function Unheard(env: Env, votes: seq<Vote>): set<Addr> {
    set a | a in env.anchors && !HasVoted(votes, a)
  }

  /** Each of them can put up a juror's stake. */
  predicate JurorsAble(env: Env, s: State, k: nat) {
    && k in s.disputes
    && forall a | a in Unheard(env, s.disputes[k].votes) ::
         a != "" && Known(s.accounts, a) && s.accounts[a].balance >= MIN_JUROR_STAKE
  }

  lemma VoteAccepted(env: Env, s: State, a: Addr, k: nat, accept: bool)
    requires Keyed(s) && JurorsAble(env, s, k) && s.disputes[k].status == Open && a in Unheard(env, s.disputes[k].votes)
    ensures var r := CastVote(env, s, a, k, accept, MIN_JUROR_STAKE);
            && r.Ok?
            && forall b | b in s.accounts && b != a :: b in r.value.accounts && r.value.accounts[b] == s.accounts[b]
  {
    hide HasVoted;
  }

  lemma HeardNext(env: Env, votes: seq<Vote>, v: Vote)
    ensures Unheard(env, votes + [v]) == Unheard(env, votes) - {v.juror}
  {
    forall a
      ensures HasVoted(votes + [v], a) <==> HasVoted(votes, a) || a == v.juror
    {
      if HasVoted(votes, a) {
        var i :| 0 <= i < |votes| && votes[i].juror == a;
        assert (votes + [v])[i].juror == a;
      } else if a == v.juror {
        assert (votes + [v])[|votes|].juror == a;
      }
    }
  }

  lemma {:induction false} TallyNext(votes: seq<Vote>, v: Vote, side: bool, i: nat)
    requires i <= |votes|
    ensures TallyFrom(votes + [v], side, i) == TallyFrom(votes, side, i) + (if v.accept == side then 1 else 0)
    decreases |votes| - i
  {
    if i < |votes| {
      TallyNext(votes, v, side, i + 1);
    } else {
      assert TallyFrom(votes + [v], side, i + 1) == 0;
    }
  }

  /** From `s` to `t` case `k` has only gained votes, all of them for `side`. */
  predicate OnlyMore(s: State, t: State, k: nat, side: bool) {
    && k in s.disputes && k in t.disputes
    && var d, f := s.disputes[k], t.disputes[k];
    && f == d.(votes := f.votes) && |f.votes| >= |d.votes|
    && TallyFrom(f.votes, side, 0) == TallyFrom(d.votes, side, 0) + |f.votes| - |d.votes|
    && TallyFrom(f.votes, !side, 0) == TallyFrom(d.votes, !side, 0)
  }

  lemma OneMoreVote(env: Env, s: State, now: UnixTime, k: nat, side: bool, a: Addr)
    requires Books(s) && JurorsAble(env, s, k) && s.disputes[k].status == Open && a in Unheard(env, s.disputes[k].votes)
    ensures var t := Apply(env, s, now, ToJury(MsgCastVote(a, k, side, MIN_JUROR_STAKE)));
            && Books(t) && OnlyMore(s, t, k, side) && JurorsAble(env, t, k) && |t.disputes[k].votes| > |s.disputes[k].votes|
            && Unheard(env, t.disputes[k].votes) == Unheard(env, s.disputes[k].votes) - {a}
  {
    hide Keyed, Parties, Supply, CastVote, TallyFrom, HasVoted, TouchesOnly, Unheard;
    var votes, v := s.disputes[k].votes, Vote(a, side, s.bondSeq);
    VoteAccepted(env, s, a, k, side);
    CastVoteEffect(env, s, a, k, side, MIN_JUROR_STAKE);
    CastVoteBalanced(env, s, a, k, side, MIN_JUROR_STAKE);
    HeardNext(env, votes, v);
    TallyNext(votes, v, side, 0);
    TallyNext(votes, v, !side, 0);
  }

  /** All anchors not yet heard vote for `side`. */
  lemma {:induction false} VoteTheRest(env: Env, s: State, now: UnixTime, k: nat, side: bool) returns (txs: seq<Tx>)
    requires Books(s) && JurorsAble(env, s, k) && s.disputes[k].status == Open
    ensures forall i | 0 <= i < |txs| :: txs[i].now == now
    ensures var t := Run(env, s, txs);
            && OnlyMore(s, t, k, side) && Unheard(env, t.disputes[k].votes) == {}
            && (Unheard(env, s.disputes[k].votes) != {} ==> |t.disputes[k].votes| > |s.disputes[k].votes|)
    decreases |Unheard(env, if k in s.disputes then s.disputes[k].votes else [])|
  {
    hide Books, Apply, TallyFrom, HasVoted, Unheard;
    txs := [];
    if Unheard(env, s.disputes[k].votes) != {} {
      var a :| a in Unheard(env, s.disputes[k].votes);
      OneMoreVote(env, s, now, k, side, a);
      var m := ToJury(MsgCastVote(a, k, side, MIN_JUROR_STAKE));
      var rest := VoteTheRest(env, Apply(env, s, now, m), now, k, side);
      txs := [Tx(now, m)] + rest;
      assert txs[1..] == rest;
    }
  }

  /** Once all anchors are heard there are as many votes as anchors, and so a quorum. */
  lemma AllHeard(env: Env, s: State, clock: int, k: nat)
    requires InCustody(env, s, clock) && k in s.disputes && Unheard(env, s.disputes[k].votes) == {}
    requires Reputation.NoRepeats(env.anchors)
    ensures |s.disputes[k].votes| == |env.anchors|
  {
    hide EscrowSound, JuryExclusive, DisputeBacked, DisputeStakes;
    var votes := s.disputes[k].votes;
    assert DisputeSound(env, s, k);
    DistinctJurors(votes);
    Reputation.ElementCount(env.anchors, |env.anchors|);
    assert env.anchors[..|env.anchors|] == env.anchors;
    assert Jurors(votes) == Reputation.Elements(env.anchors) by {
      forall a | a in env.anchors
        ensures a in Jurors(votes)
      {
        assert a !in Unheard(env, votes);
      }
    }
  }

  /** An open case that is not split evenly by a full jury can be decided: the anchors not yet heard side
      with the majority there is, and the verdict follows in the same block. */
  lemma Decide(env: Env, s: State, now: UnixTime, k: nat) returns (txs: seq<Tx>)
    requires Books(s) && InCustody(env, s, now) && JurorsAble(env, s, k) && s.disputes[k].status == Open
    requires Reputation.NoRepeats(env.anchors) && !Standoff(env, s, k)
    ensures InOrder(now, txs)
    ensures k in Run(env, s, txs).disputes && Run(env, s, txs).disputes[k].status == Resolved
  {
    hide Keyed, Parties, Supply, InCustody, TallyFrom, HasVoted, TouchesOnly, Evolves, Run, ResolveDispute, Standoff, Unheard, Verdict;
    var votes := s.disputes[k].votes;
    var side := TallyFrom(votes, true, 0) >= TallyFrom(votes, false, 0);
    var ballots := VoteTheRest(env, s, now, k, side);
    var t := Run(env, s, ballots);
    RunConserves(env, s, ballots);
    RunKeepsCustody(env, s, now, ballots);
    AllHeard(env, t, Clock(now, ballots), k);
    TallyAll(votes, 0);
    TallyAll(t.disputes[k].votes, 0);
    if Unheard(env, votes) == {} { NobodyLeft(env, s, k); }
    var closing := Tx(now, ToJury(MsgResolveDispute("closer", k)));
    VerdictsNeverStick(env, t, Clock(now, ballots), now, "closer", k);
    ResolveDisputeEffect(env, t, now, "closer", k);
    RunThen(env, s, ballots, closing);
    txs := ballots + [closing];
  }

  lemma {:induction false} RunThen(env: Env, s: State, txs: seq<Tx>, tx: Tx)
    ensures Run(env, s, txs + [tx]) == Apply(env, Run(env, s, txs), tx.now, tx.msg)
    decreases |txs|
  {
    hide Step;
    if txs == [] {
      assert [tx][1..] == [];
    } else {
      assert (txs + [tx])[1..] == txs[1..] + [tx];
      RunThen(env, Apply(env, s, txs[0].now, txs[0].msg), txs[1..], tx);
    }
  }

  lemma NobodyLeft(env: Env, s: State, k: nat)
    requires k in s.disputes && s.disputes[k].status == Open && Unheard(env, s.disputes[k].votes) == {}
    ensures Standoff(env, s, k) <==> TallyFrom(s.disputes[k].votes, true, 0) == TallyFrom(s.disputes[k].votes, false, 0)
  {
    forall a | a in env.anchors
      ensures HasVoted(s.disputes[k].votes, a)
    {
      assert a !in Unheard(env, s.disputes[k].votes);
    }
  }

  predicate Settles(env: Env, s: State, txs: seq<Tx>, k: nat) {
    k in Run(env, s, txs).disputes && Run(env, s, txs).disputes[k].status == Resolved
  }

  /** As long as the anchors not yet heard can pay their stakes, some run decides an open case if and only
      if the jury is not evenly split with nobody left to hear. */
  lemma DecidableIff(env: Env, s: State, clock: UnixTime, k: nat)
    requires Books(s) && InCustody(env, s, clock) && JurorsAble(env, s, k) && s.disputes[k].status == Open
    requires Reputation.NoRepeats(env.anchors)
    ensures (exists txs :: InOrder(clock, txs) && Settles(env, s, txs, k)) <==> !Standoff(env, s, k)
  {
    hide Keyed, Parties, Supply, InCustody, Run, Standoff, Unheard;
    if Standoff(env, s, k) {
      forall txs | InOrder(clock, txs)
        ensures !Settles(env, s, txs, k)
      {
        EvenSplitNeverResolves(env, s, clock, txs, k);
      }
    } else {
      var txs := Decide(env, s, clock, k);
      assert Settles(env, s, txs, k);
    }
  }
}
