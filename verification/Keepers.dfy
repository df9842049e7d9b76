/** The keeper itself: stores that message handlers update in place. Every handler is proved to do
    what its specification function says; on a refusal the handler reports the same error, and
    `Deliver` restores the stores, as the rollback of a failed transaction does. */
module Keepers {
  import opened Outcomes
  import opened Integers
  import opened Text
  import opened Types
  import opened Emission
  import opened Ledger
  import opened Escrows
  import opened Jury
  import opened Bonds
  import opened Gates
  import opened Machine
  import opened Plurality
  import Ranking
  import Reputation
  import Scores
  import Startup
  import Trust

  class Keeper {
    const env: Env
    var accounts: map<Addr, Account>
    var vouches: map<nat, Vouch>
    var vouchSeq: nat
    var escrows: map<nat, Escrow>
    var escrowSeq: nat
    var disputes: map<nat, Dispute>
    var disputeSeq: nat
    var bonds: map<nat, Bond>
    var bondSeq: nat
    var gates: map<nat, Gate>
    var gateSeq: nat
    var awards: map<nat, Award>
    var awardSeq: nat
    var emission: Option<EmissionState>

    /** The contents of all stores. */
    function Contents(): State
      reads this
    {
      State(accounts, vouches, vouchSeq, escrows, escrowSeq, disputes, disputeSeq,
            bonds, bondSeq, gates, gateSeq, awards, awardSeq, emission)
    }

    /** A handler's answer and the stores it leaves agree with its specification. */
    ghost predicate Matches(r: Check, spec: Result<State>)
      reads this
    {
      match spec
      case Ok(s) => r == Pass && Contents() == s
      case Err(e) => r == Fail(e)
    }

    constructor (env: Env, genesis: State)
      ensures this.env == env && Contents() == genesis
    {
      this.env := env;
      new;
      Restore(genesis);
    }

    /** Loads a genesis state record by record into empty stores. */
    constructor InitGenesis(env: Env, now: UnixTime, g: Startup.GenesisState)
      ensures this.env == Startup.LoadedEnv(env, g) && Contents() == Startup.Loaded(g, now)
    {
      this.env := if |g.anchors| > 0 then env.(anchors := g.anchors) else env;
      new;
      var e := if g.emission.maxSupply == 0 then Default(0) else g.emission;
      if e.genesisTime == 0 { e := e.(genesisTime := now, epochStartedAt := now); }
      var storedAccounts := Load(g.accounts, Startup.AddressOf);
      var storedVouches := Load(g.vouches, Startup.VouchId);
      var storedEscrows := Load(g.escrows, Startup.EscrowId);
      var storedAwards := Load(g.awards, Startup.AwardId);
      Restore(State(storedAccounts, storedVouches, g.vouchCount, storedEscrows, g.escrowCount,
                    map[], 0, map[], 0, map[], 0, storedAwards, g.awardCount, Some(e)));
    }

    static method Load<K, V>(records: seq<V>, key: V -> K) returns (store: map<K, V>)
      ensures store == Startup.Stored(records, key)
    {
      store := map[];
      for i := 0 to |records|
        invariant store == Startup.Stored(records[..i], key)
      {
        assert records[..i + 1][..i] == records[..i];
        store := store[key(records[i]) := records[i]];
      }
      assert records[..|records|] == records;
    }

    method Restore(s: State)
      modifies this
      ensures Contents() == s
    {
      RestoreRecords(s);
      bonds, bondSeq, gates, gateSeq := s.bonds, s.bondSeq, s.gates, s.gateSeq;
      awards, awardSeq, emission := s.awards, s.awardSeq, s.emission;
    }

    method RestoreRecords(s: State)
      modifies this`accounts, this`vouches, this`vouchSeq, this`escrows, this`escrowSeq, this`disputes, this`disputeSeq
      ensures accounts == s.accounts && vouches == s.vouches && vouchSeq == s.vouchSeq
      ensures escrows == s.escrows && escrowSeq == s.escrowSeq && disputes == s.disputes && disputeSeq == s.disputeSeq
    {
      accounts, vouches, vouchSeq := s.accounts, s.vouches, s.vouchSeq;
      escrows, escrowSeq, disputes, disputeSeq := s.escrows, s.escrowSeq, s.disputes, s.disputeSeq;
    }

    // ---- Accounts and stakes ----------------------------------------------

    method CreditAccount(a: Addr, amount: U64) returns (r: Check)
      modifies this`accounts
      ensures Matches(r, Ledger.CreditAccount(old(Contents()), a, amount))
    {
      var to: Account;
      if a !in accounts {
        if amount < MIN_NEW_ACCOUNT_CREDIT { return Fail(InvalidRequest); }
        to := FreshAccount(a);
      } else {
        to := accounts[a];
        if !to.registered { to := to.(registered := true); }
      }
      to := to.(balance := Add64(to.balance, amount));
      accounts := accounts[a := to];
      return Pass;
    }

    method EnsureRegistered(a: Addr, guardAmount: U64) returns (r: Check)
      modifies this`accounts
      ensures Matches(r, Ledger.EnsureRegistered(old(Contents()), a, guardAmount))
    {
      var to: Account;
      if a !in accounts {
        if guardAmount < MIN_NEW_ACCOUNT_CREDIT { return Fail(InvalidRequest); }
        to := FreshAccount(a);
      } else {
        to := accounts[a];
        if !to.registered { to := to.(registered := true); }
      }
      accounts := accounts[a := to];
      return Pass;
    }

    /** Debit the poster and store a new bond, as every staking handler does. */
    method LockBond(poster: Addr, amount: U64, purpose: string, slasher: Addr, ref: string) returns (r: Check)
      modifies this`accounts, this`bonds, this`bondSeq
      ensures Matches(r, Ledger.LockBond(old(Contents()), poster, amount, purpose, slasher, ref))
    {
      if poster !in accounts || !accounts[poster].registered { return Fail(InvalidRequest); }
      var from := accounts[poster];
      if from.balance < amount { return Fail(InsufficientFunds); }
      from := from.(balance := from.balance - amount);
      accounts := accounts[poster := from];
      var id := bondSeq;
      bondSeq := bondSeq + 1;
      bonds := bonds[id := Bond(id, poster, amount, purpose, slasher, Active, ref)];
      return Pass;
    }

    /** Pay a bond to an existing account and store its new status. */
    method SettleBond(id: nat, recipient: Addr, status: BondStatus) returns (r: Check)
      requires id in bonds
      modifies this`accounts, this`bonds
      ensures Matches(r, Ledger.SettleBond(old(Contents()), id, recipient, status))
    {
      var bond := bonds[id];
      if recipient !in accounts { return Fail(StoreMiss); }
      var acct := accounts[recipient];
      acct := acct.(balance := Add64(acct.balance, bond.amount));
      accounts := accounts[recipient := acct];
      bonds := bonds[bond.id := bond.(status := status)];
      return Pass;
    }

    // ---- Escrows ------------------------------------------------------------

    method LockEscrow(now: UnixTime, m: LockRequest) returns (r: Check)
      modifies this
      ensures Matches(r, Escrows.LockEscrow(old(Contents()), now, m))
    {
      hide CheckVerifierTerms;
      if m.payer == "" || m.payee == "" { return Fail(InvalidAddress); }
      if m.amount == 0 || m.payer == m.payee { return Fail(InvalidRequest); }
      r := CheckTerms(m);
      if r.Fail? { return; }
      var noAutoRelease := m.noAutoRelease;
      if |m.verifierAddrs| > 0 { noAutoRelease := true; }
      if m.payer !in accounts || !accounts[m.payer].registered { return Fail(InvalidRequest); }
      var payer := accounts[m.payer];
      if payer.balance < m.amount { return Fail(InsufficientFunds); }
      r := EnsureRegistered(m.payee, m.amount);
      if r.Fail? { return; }
      payer := payer.(balance := payer.balance - m.amount);
      accounts := accounts[m.payer := payer];
      var deadline := WrapInt64(now + ToInt64(m.disputeSeconds));
      var id := escrowSeq;
      escrowSeq := escrowSeq + 1;
      escrows := escrows[id := Escrow(id, m.payer, m.payee, m.amount, m.ref, Locked, deadline, noAutoRelease,
                                      "", m.verifierAddrs, m.verifierQuorum, m.acceptanceHash, "", 0, [], "", 0, 0)];
    }

    /** Quorum, verifier list and acceptance hash, in the order they are checked. */
    static method CheckTerms(m: LockRequest) returns (r: Check)
      ensures r == CheckVerifierTerms(m)
    {
      hide IsHexSha256;
      if |m.verifierAddrs| > 0 {
        if m.verifierQuorum == 0 || m.verifierQuorum > |m.verifierAddrs| { return Fail(InvalidRequest); }
        r := ScanVerifiers(m.payer, m.payee, m.verifierAddrs);
        if r.Fail? { return; }
        if !IsHexSha256(m.acceptanceHash) { return Fail(InvalidRequest); }
      } else if m.verifierQuorum > 0 {
        return Fail(InvalidRequest);
      } else if m.acceptanceHash != "" && !IsHexSha256(m.acceptanceHash) {
        return Fail(InvalidRequest);
      }
      return Pass;
    }

    /** The verifier list is checked left to right against the set of those already seen. */
    static method ScanVerifiers(payer: Addr, payee: Addr, verifiers: seq<Addr>) returns (r: Check)
      ensures r == CheckVerifiers(payer, payee, verifiers, {})
    {
      var seen: set<Addr> := {};
      for i := 0 to |verifiers|
        invariant CheckVerifiers(payer, payee, verifiers[i..], seen) == CheckVerifiers(payer, payee, verifiers, {})
      {
        var v := verifiers[i];
        assert verifiers[i..][1..] == verifiers[i + 1..];
        if v == "" { return Fail(InvalidAddress); }
        if v == payer || v == payee { return Fail(InvalidRequest); }
        if v in seen { return Fail(InvalidRequest); }
        seen := seen + {v};
      }
      return Pass;
    }

    method SubmitEscrow(now: UnixTime, creator: Addr, id: nat, deliveryHash: string, keyHash: string, artifactUri: string)
      returns (r: Check)
      modifies this`escrows
      ensures Matches(r, Escrows.SubmitEscrow(old(Contents()), now, creator, id, deliveryHash, keyHash, artifactUri))
    {
      hide IsHexSha256;
      if creator == "" { return Fail(InvalidAddress); }
      if id !in escrows { return Fail(KeyNotFound); }
      var escrow := escrows[id];
      if escrow.status != Locked { return Fail(InvalidRequest); }
      if creator != escrow.payee { return Fail(Unauthorized); }
      var verifierBound := |escrow.verifierAddrs| > 0;
      if verifierBound && (!IsHexSha256(deliveryHash) || !IsHexSha256(keyHash)) { return Fail(InvalidRequest); }
      if deliveryHash != "" && !IsHexSha256(deliveryHash) { return Fail(InvalidRequest); }
      if keyHash != "" && !IsHexSha256(keyHash) { return Fail(InvalidRequest); }
      escrow := escrow.(status := Submitted, deliveryHash := deliveryHash, keyHash := keyHash,
                        artifactUri := artifactUri, submittedAt := now);
      escrows := escrows[escrow.id := escrow];
      return Pass;
    }

    method DisputeEscrow(creator: Addr, id: nat) returns (r: Check)
      modifies this`escrows
      ensures Matches(r, Escrows.DisputeEscrow(old(Contents()), creator, id))
    {
      if creator == "" { return Fail(InvalidAddress); }
      if id !in escrows { return Fail(KeyNotFound); }
      var escrow := escrows[id];
      if escrow.status != Submitted { return Fail(InvalidRequest); }
      if creator != escrow.payer { return Fail(Unauthorized); }
      if |escrow.verifierAddrs| > 0 { return Fail(InvalidRequest); }
      escrows := escrows[escrow.id := escrow.(status := Disputed)];
      return Pass;
    }

    method ReleaseEscrow(now: UnixTime, creator: Addr, id: nat) returns (r: Check)
      modifies this`accounts, this`escrows
      ensures Matches(r, Escrows.ReleaseEscrow(old(Contents()), now, creator, id))
    {
      hide Ledger.CreditAccount;
      if creator == "" { return Fail(InvalidAddress); }
      if id !in escrows { return Fail(KeyNotFound); }
      var escrow := escrows[id];
      if escrow.status != Locked && escrow.status != Submitted && escrow.status != Disputed && escrow.status != FailAttested {
        return Fail(InvalidRequest);
      }
      if escrow.status == Disputed {
        if creator != escrow.payer { return Fail(Unauthorized); }
      } else if creator != escrow.payer {
        if escrow.noAutoRelease { return Fail(Unauthorized); }
        if now < escrow.deadline { return Fail(Unauthorized); }
      }
      r := CreditAccount(escrow.payee, escrow.amount);
      if r.Fail? { return; }
      escrows := escrows[escrow.id := escrow.(status := Released, releasedAt := now)];
    }

    method RefundEscrow(now: UnixTime, creator: Addr, id: nat) returns (r: Check)
      modifies this`accounts, this`escrows
      ensures Matches(r, Escrows.RefundEscrow(old(Contents()), now, creator, id))
    {
      hide Ledger.CreditAccount;
      if creator == "" { return Fail(InvalidAddress); }
      if id !in escrows { return Fail(KeyNotFound); }
      var escrow := escrows[id];
      if escrow.status != Locked && escrow.status != FailAttested { return Fail(InvalidRequest); }
      if creator != escrow.payer { return Fail(Unauthorized); }
      if escrow.status == FailAttested {
        if now < escrow.challengeDeadline { return Fail(Unauthorized); }
      } else if now >= escrow.deadline {
        return Fail(Unauthorized);
      }
      r := CreditAccount(escrow.payer, escrow.amount);
      if r.Fail? { return; }
      escrows := escrows[escrow.id := escrow.(status := Refunded)];
    }

    method AttestEscrow(now: UnixTime, creator: Addr, id: nat, passed: bool, stake: U64,
                        deliveryHash: string, keyHash: string, acceptanceHash: string) returns (r: Check)
      modifies this
      ensures Matches(r, Escrows.AttestEscrow(old(Contents()), now, creator, id, passed, stake, deliveryHash, keyHash, acceptanceHash))
    {
      hide EqualFold, AttestationPurpose, FormatUint, Ledger.LockBond;
      if creator == "" { return Fail(InvalidAddress); }
      if id !in escrows { return Fail(KeyNotFound); }
      var escrow := escrows[id];
      if escrow.status != Submitted { return Fail(InvalidRequest); }
      if creator !in escrow.verifierAddrs { return Fail(Unauthorized); }
      for i := 0 to |escrow.attestations|
        invariant Contents() == old(Contents())
        invariant forall j | 0 <= j < i :: escrow.attestations[j].verifier != creator
      {
        if escrow.attestations[i].verifier == creator { return Fail(InvalidRequest); }
      }
      if !EqualFold(deliveryHash, escrow.deliveryHash) || !EqualFold(keyHash, escrow.keyHash)
         || !EqualFold(acceptanceHash, escrow.acceptanceHash)
      {
        return Fail(InvalidRequest);
      }
      if stake < escrow.amount { return Fail(InvalidRequest); }
      var bondId := bondSeq;
      r := LockBond(creator, stake, AttestationPurpose(escrow.id), "", FormatUint(escrow.id));
      if r.Fail? { return; }
      escrow := escrow.(attestations := escrow.attestations
        + [Attestation(creator, passed, bondId, escrow.deliveryHash, escrow.keyHash, escrow.acceptanceHash, now)]);
      if !passed {
        escrow := escrow.(status := FailAttested, challengeDeadline := now + CHALLENGE_WINDOW_SECONDS);
      }
      escrows := escrows[escrow.id := escrow];
    }

    method VerifiedRelease(now: UnixTime, creator: Addr, id: nat, key: string) returns (r: Check)
      modifies this`accounts, this`escrows
      ensures Matches(r, Escrows.VerifiedRelease(env, old(Contents()), now, creator, id, key))
    {
      hide EqualFold, Ledger.CreditAccount;
      if creator == "" { return Fail(InvalidAddress); }
      if id !in escrows { return Fail(KeyNotFound); }
      var escrow := escrows[id];
      if |escrow.verifierAddrs| == 0 { return Fail(InvalidRequest); }
      if escrow.status != Submitted { return Fail(InvalidRequest); }
      var passed := 0;
      for i := 0 to |escrow.attestations|
        invariant Contents() == old(Contents())
        invariant passed + PassesFrom(escrow, i) == PassesFrom(escrow, 0)
      {
        if CountsAsPass(escrow, escrow.attestations[i]) { passed := passed + 1; }
      }
      if passed < escrow.verifierQuorum { return Fail(InvalidRequest); }
      if escrow.keyHash != "" {
        if !EqualFold(env.sha256(key), escrow.keyHash) { return Fail(InvalidRequest); }
      } else if key != "" {
        return Fail(InvalidRequest);
      }
      r := CreditAccount(escrow.payee, escrow.amount);
      if r.Fail? { return; }
      escrow := escrow.(status := Released, releasedAt := now, challengeDeadline := now + CHALLENGE_WINDOW_SECONDS);
      escrows := escrows[escrow.id := escrow];
    }

    method ReclaimAttestationBonds(now: UnixTime, creator: Addr, id: nat) returns (r: Check)
      modifies this`accounts, this`bonds
      ensures Matches(r, Escrows.ReclaimAttestationBonds(old(Contents()), now, creator, id))
    {
      hide Ledger.SettleBond, AttestationPurpose;
      if creator == "" { return Fail(InvalidAddress); }
      if id !in escrows { return Fail(KeyNotFound); }
      var escrow := escrows[id];
      if |escrow.attestations| == 0 { return Fail(InvalidRequest); }
      if escrow.status != Released && escrow.status != Refunded && escrow.status != FailAttested { return Fail(InvalidRequest); }
      if escrow.challengeDeadline > 0 && now < escrow.challengeDeadline { return Fail(InvalidRequest); }
      for i := 0 to |escrow.attestations|
        invariant ReclaimFrom(Contents(), escrow, i) == ReclaimFrom(old(Contents()), escrow, 0)
      {
        var bondId := escrow.attestations[i].bondId;
        if bondId !in bonds || bonds[bondId].status != Active || bonds[bondId].purpose != AttestationPurpose(escrow.id) {
          continue;
        }
        r := SettleBond(bondId, bonds[bondId].poster, Freed);
        if r.Fail? { return; }
      }
      return Pass;
    }

    // ---- The jury -----------------------------------------------------------

    method OpenDispute(now: UnixTime, creator: Addr, escrowId: nat, reason: string, bondAmount: U64) returns (r: Check)
      modifies this
      ensures Matches(r, Jury.OpenDispute(old(Contents()), now, creator, escrowId, reason, bondAmount))
    {
      hide DisputePurpose, FormatUint, Ledger.LockBond;
      if creator == "" { return Fail(InvalidAddress); }
      if escrowId !in escrows { return Fail(KeyNotFound); }
      var escrow := escrows[escrowId];
      if creator != escrow.payer && creator != escrow.payee { return Fail(Unauthorized); }
      var frozenStatus := InJury;
      match escrow.status {
        case Submitted | Disputed =>
        case FailAttested =>
          if creator != escrow.payee { return Fail(Unauthorized); }
          if now >= escrow.challengeDeadline { return Fail(InvalidRequest); }
        case Released =>
          if creator != escrow.payer { return Fail(Unauthorized); }
          if |escrow.attestations| == 0 || escrow.challengeDeadline == 0 { return Fail(InvalidRequest); }
          if now >= escrow.challengeDeadline { return Fail(InvalidRequest); }
          frozenStatus := Challenged;
        case _ => return Fail(InvalidRequest);
      }
      assert Jury.MayDispute(escrow, now, creator) == Pass;
      if bondAmount < MIN_DISPUTE_BOND { return Fail(InvalidRequest); }
      var id, bondId := disputeSeq, bondSeq;
      r := LockBond(creator, bondAmount, DisputePurpose(id), "", FormatUint(escrowId));
      if r.Fail? { return; }
      disputeSeq := disputeSeq + 1;
      disputes := disputes[id := Dispute(id, escrowId, creator, reason, Open, Pending, [], bondId)];
      escrows := escrows[escrow.id := escrow.(status := frozenStatus)];
    }

    method CastVote(creator: Addr, disputeId: nat, accept: bool, stake: U64) returns (r: Check)
      modifies this
      ensures Matches(r, Jury.CastVote(env, old(Contents()), creator, disputeId, accept, stake))
    {
      hide JurorPurpose, FormatUint, Ledger.LockBond;
      if creator == "" { return Fail(InvalidAddress); }
      if disputeId !in disputes { return Fail(KeyNotFound); }
      var dispute := disputes[disputeId];
      if dispute.status != Open { return Fail(InvalidRequest); }
      if creator !in env.anchors { return Fail(Unauthorized); }
      for i := 0 to |dispute.votes|
        invariant Contents() == old(Contents())
        invariant forall j | 0 <= j < i :: dispute.votes[j].juror != creator
      {
        if dispute.votes[i].juror == creator { return Fail(InvalidRequest); }
      }
      if stake < MIN_JUROR_STAKE { return Fail(InvalidRequest); }
      var bondId := bondSeq;
      r := LockBond(creator, stake, JurorPurpose(dispute.id), "", FormatUint(dispute.id));
      if r.Fail? { return; }
      dispute := dispute.(votes := dispute.votes + [Vote(creator, accept, bondId)]);
      disputes := disputes[dispute.id := dispute];
    }

    method ResolveDispute(now: UnixTime, creator: Addr, disputeId: nat) returns (r: Check)
      modifies this`accounts, this`escrows, this`bonds, this`disputes
      ensures Matches(r, Jury.ResolveDispute(env, old(Contents()), now, creator, disputeId))
    {
      hide Jury.SettleVerdict, TallyFrom;
      if creator == "" { return Fail(InvalidAddress); }
      if disputeId !in disputes { return Fail(KeyNotFound); }
      var dispute := disputes[disputeId];
      if dispute.status != Open { return Fail(InvalidRequest); }
      var accept, reject := TallyVotes(dispute.votes);
      var quorum := |env.anchors| / 2 + 1;
      if |dispute.votes| < quorum { return Fail(InvalidRequest); }
      if accept == reject { return Fail(InvalidRequest); }
      if dispute.escrowId !in escrows { return Fail(StoreMiss); }
      var escrow := escrows[dispute.escrowId];
      if escrow.status != InJury && escrow.status != Challenged { return Fail(InvalidRequest); }
      r := SettleVerdict(now, dispute, escrow, accept > reject);
    }

    static method TallyVotes(votes: seq<Vote>) returns (accept: nat, reject: nat)
      ensures accept == TallyFrom(votes, true, 0) && reject == TallyFrom(votes, false, 0)
    {
      accept, reject := 0, 0;
      for i := 0 to |votes|
        invariant accept + TallyFrom(votes, true, i) == TallyFrom(votes, true, 0)
        invariant reject + TallyFrom(votes, false, i) == TallyFrom(votes, false, 0)
      {
        if votes[i].accept { accept := accept + 1; } else { reject := reject + 1; }
      }
    }

    /** Escrow money, opener's bond, juror stakes, attestation stakes, and the verdict itself. */
    method SettleVerdict(now: UnixTime, d: Dispute, e: Escrow, accept: bool) returns (r: Check)
      modifies this`accounts, this`escrows, this`bonds, this`disputes
      ensures Matches(r, Jury.SettleVerdict(old(Contents()), now, d, e, accept))
    {
      hide Jury.SettleEscrow, Jury.SettleDisputeBond, SettleStakes, VoteStakes, AttestationStakes, JurorPurpose, AttestationPurpose;
      var winner := if accept then e.payee else e.payer;
      r := SettleEscrow(now, e, accept);
      if r.Fail? { return; }
      r := SettleDisputeBond(e, d, accept);
      if r.Fail? { return; }
      r := SettleVotes(d.votes, JurorPurpose(d.id), accept, winner);
      if r.Fail? { return; }
      r := SettleAttestations(e.attestations, AttestationPurpose(e.id), accept, winner);
      if r.Fail? { return; }
      disputes := disputes[d.id := d.(status := Resolved, resolution := if accept then Accept else Reject)];
    }

    /** The escrow's own money: none moves for a challenge. */
    method SettleEscrow(now: UnixTime, e: Escrow, accept: bool) returns (r: Check)
      modifies this`accounts, this`escrows
      ensures Matches(r, Jury.SettleEscrow(old(Contents()), now, e, accept))
    {
      hide Ledger.CreditAccount;
      var escrow := e;
      if escrow.status == Challenged {
        escrow := escrow.(status := Released);
      } else if accept {
        r := CreditAccount(escrow.payee, escrow.amount);
        if r.Fail? { return; }
        escrow := escrow.(status := Released, releasedAt := now);
      } else {
        r := CreditAccount(escrow.payer, escrow.amount);
        if r.Fail? { return; }
        escrow := escrow.(status := Refunded);
      }
      escrows := escrows[escrow.id := escrow];
      return Pass;
    }

    method SettleDisputeBond(e: Escrow, d: Dispute, accept: bool) returns (r: Check)
      modifies this`accounts, this`bonds
      ensures Matches(r, Jury.SettleDisputeBond(old(Contents()), e, d, accept))
    {
      hide Ledger.SettleBond, DisputePurpose;
      if d.bondId !in bonds || bonds[d.bondId].status != Active || bonds[d.bondId].purpose != DisputePurpose(d.id) {
        return Pass;
      }
      var openerUpheld := (d.opener == e.payer && !accept) || (d.opener == e.payee && accept);
      var recipient := d.opener;
      var status := Freed;
      if !openerUpheld {
        recipient := if d.opener == e.payer then e.payee else e.payer;
        if e.status == Challenged {
          ghost var griefed := recipient;
          for i := 0 to |e.attestations|
            invariant Contents() == old(Contents()) && recipient == griefed
            invariant FirstPassFrom(e.attestations, i, griefed) == FirstPassFrom(e.attestations, 0, griefed)
          {
            if e.attestations[i].passed {
              recipient := e.attestations[i].verifier;
              break;
            }
          }
        }
        status := Slashed;
      }
      r := SettleBond(d.bondId, recipient, status);
    }

    method SettleVotes(votes: seq<Vote>, purpose: string, accept: bool, winner: Addr) returns (r: Check)
      modifies this`accounts, this`bonds
      ensures Matches(r, SettleStakes(old(Contents()), VoteStakes(votes), purpose, accept, winner))
    {
      hide Ledger.SettleBond;
      ghost var stakes := VoteStakes(votes);
      for i := 0 to |votes|
        invariant SettleStakes(Contents(), stakes[i..], purpose, accept, winner)
               == SettleStakes(old(Contents()), stakes, purpose, accept, winner)
      {
        assert stakes[i..][1..] == stakes[i + 1..];
        var v := votes[i];
        if v.bondId !in bonds || bonds[v.bondId].status != Active || bonds[v.bondId].purpose != purpose { continue; }
        if v.accept == accept {
          r := SettleBond(v.bondId, v.juror, Freed);
        } else {
          r := SettleBond(v.bondId, winner, Slashed);
        }
        if r.Fail? { return; }
      }
      return Pass;
    }

    method SettleAttestations(attestations: seq<Attestation>, purpose: string, accept: bool, winner: Addr) returns (r: Check)
      modifies this`accounts, this`bonds
      ensures Matches(r, SettleStakes(old(Contents()), AttestationStakes(attestations), purpose, accept, winner))
    {
      hide Ledger.SettleBond;
      ghost var stakes := AttestationStakes(attestations);
      for i := 0 to |attestations|
        invariant SettleStakes(Contents(), stakes[i..], purpose, accept, winner)
               == SettleStakes(old(Contents()), stakes, purpose, accept, winner)
      {
        assert stakes[i..][1..] == stakes[i + 1..];
        var a := attestations[i];
        if a.bondId !in bonds || bonds[a.bondId].status != Active || bonds[a.bondId].purpose != purpose { continue; }
        if a.passed == accept {
          r := SettleBond(a.bondId, a.verifier, Freed);
        } else {
          r := SettleBond(a.bondId, winner, Slashed);
        }
        if r.Fail? { return; }
      }
      return Pass;
    }

    // ---- Collateral, transfers and vouches ----------------------------------

    method Register(creator: Addr) returns (r: Check)
      modifies this`accounts
      ensures Matches(r, Bonds.Register(old(Contents()), creator))
    {
      if creator == "" { return Fail(InvalidAddress); }
      if creator in accounts && accounts[creator].registered { return Fail(InvalidRequest); }
      accounts := accounts[creator := Account(creator, 0, 0, true, false)];
      return Pass;
    }

    method Transfer(creator: Addr, to: Addr, amount: U64) returns (r: Check)
      modifies this`accounts
      ensures Matches(r, Bonds.Transfer(old(Contents()), creator, to, amount))
    {
      if creator == "" || to == "" { return Fail(InvalidAddress); }
      if amount == 0 || creator == to { return Fail(InvalidRequest); }
      if creator !in accounts || !accounts[creator].registered { return Fail(InvalidRequest); }
      var from := accounts[creator];
      if from.balance < amount { return Fail(InsufficientFunds); }
      if to !in accounts && amount < MIN_NEW_ACCOUNT_CREDIT { return Fail(InvalidRequest); }
      from := from.(balance := from.balance - amount);
      accounts := accounts[creator := from];
      r := CreditAccount(to, amount);
    }

    method PostBond(creator: Addr, amount: U64, purpose: string, slasher: Addr, ref: string) returns (r: Check)
      modifies this`accounts, this`bonds, this`bondSeq
      ensures Matches(r, Bonds.PostBond(old(Contents()), creator, amount, purpose, slasher, ref))
    {
      hide Ledger.LockBond;
      if creator == "" || slasher == "" { return Fail(InvalidAddress); }
      if amount == 0 || creator == slasher { return Fail(InvalidRequest); }
      r := LockBond(creator, amount, purpose, slasher, ref);
    }

    method ReleaseBond(creator: Addr, id: nat) returns (r: Check)
      modifies this`accounts, this`bonds
      ensures Matches(r, Bonds.ReleaseBond(old(Contents()), creator, id))
    {
      hide Ledger.SettleBond;
      if creator == "" { return Fail(InvalidAddress); }
      if id !in bonds { return Fail(KeyNotFound); }
      var bond := bonds[id];
      if bond.status != Active { return Fail(InvalidRequest); }
      if creator != bond.slasher { return Fail(Unauthorized); }
      r := SettleBond(id, bond.poster, Freed);
    }

    method SlashBond(creator: Addr, id: nat, beneficiary: Addr) returns (r: Check)
      modifies this`accounts, this`bonds
      ensures Matches(r, Bonds.SlashBond(old(Contents()), creator, id, beneficiary))
    {
      if creator == "" { return Fail(InvalidAddress); }
      if id !in bonds { return Fail(KeyNotFound); }
      var bond := bonds[id];
      if bond.status != Active { return Fail(InvalidRequest); }
      if creator != bond.slasher { return Fail(Unauthorized); }
      if beneficiary != "" {
        r := CreditAccount(beneficiary, bond.amount);
        if r.Fail? { return; }
      }
      bonds := bonds[bond.id := bond.(status := Slashed)];
      return Pass;
    }

    /** The store walk for an existing vouch, in id order. */
    method WalkVouches(from: Addr, to: Addr) returns (found: Option<nat>)
      ensures found == FindVouch(Contents(), from, to, 0)
    {
      var i := 0;
      while i < vouchSeq
        invariant FindVouch(Contents(), from, to, i) == FindVouch(Contents(), from, to, 0)
      {
        if i in vouches && vouches[i].from == from && vouches[i].to == to { return Some(i); }
        i := i + 1;
      }
      return None;
    }

    method CastVouch(creator: Addr, to: Addr, weight: U64, stake: U64) returns (r: Check)
      modifies this`accounts, this`vouches, this`vouchSeq
      ensures Matches(r, Bonds.CastVouch(old(Contents()), creator, to, weight, stake))
    {
      hide FindVouch;
      if creator == "" || to == "" { return Fail(InvalidAddress); }
      if creator == to { return Fail(InvalidRequest); }
      if weight < 1 || weight > MAX_VOUCH_WEIGHT { return Fail(InvalidRequest); }
      if stake < MIN_VOUCH_STAKE { return Fail(InvalidRequest); }
      if creator !in accounts || !accounts[creator].registered { return Fail(InvalidRequest); }
      if to !in accounts || !accounts[to].registered { return Fail(InvalidRequest); }
      var from := accounts[creator];
      var found := WalkVouches(creator, to);
      if found.Some? && found.value in vouches {
        from := from.(balance := Add64(from.balance, vouches[found.value].stake));
      }
      if from.balance < stake { return Fail(InsufficientFunds); }
      from := from.(balance := from.balance - stake);
      accounts := accounts[creator := from];
      if found.Some? {
        vouches := vouches[found.value := Vouch(found.value, creator, to, weight, stake)];
      } else {
        vouches := vouches[vouchSeq := Vouch(vouchSeq, creator, to, weight, stake)];
        vouchSeq := vouchSeq + 1;
      }
      return Pass;
    }

    method Unvouch(creator: Addr, to: Addr) returns (r: Check)
      modifies this`accounts, this`vouches
      ensures Matches(r, Bonds.Unvouch(old(Contents()), creator, to))
    {
      hide FindVouch;
      if creator == "" || to == "" { return Fail(InvalidAddress); }
      var found := WalkVouches(creator, to);
      if found.None? || found.value !in vouches { return Fail(KeyNotFound); }
      var stake := vouches[found.value].stake;
      if creator !in accounts { return Fail(StoreMiss); }
      var from := accounts[creator];
      from := from.(balance := Add64(from.balance, stake));
      accounts := accounts[creator := from];
      vouches := vouches - {found.value};
      return Pass;
    }

    // ---- Minting ------------------------------------------------------------

    /** Bring the emission state up to `now`, one epoch boundary at a time, and store it. */
    method SyncEmissionState(now: UnixTime) returns (e: EmissionState)
      modifies this`emission
      ensures e == Sync(old(emission), now) && emission == Some(e)
    {
      hide RemainingScheduled, RemainingEpoch, Reward;
      if emission.None? || emission.value.maxSupply == 0 { emission := Some(Default(now)); }
      e := emission.value;
      if e.genesisTime == 0 { e := e.(genesisTime := now); }
      if e.epochStartedAt == 0 { e := e.(epochStartedAt := now); }
      if e.currentEpoch == 0 { e := e.(currentEpoch := 1); }
      if e.epochLength == 0 { e := e.(epochLength := EPOCH_LENGTH_SECONDS); }
      if e.divisor == 0 { e := e.(divisor := EPOCH_REWARD_DIVISOR); }
      if e.epochScheduled == 0 && RemainingScheduled(e) > 0 { e := e.(epochScheduled := NextEpochScheduled(e)); }
      ghost var filled := e;
      assert filled == Fill(Fetch(old(emission), now), now);
      var epochLen := ToInt64(e.epochLength);
      while epochLen > 0 && now >= e.epochStartedAt + epochLen
        invariant e.divisor > 0 && ToInt64(e.epochLength) == epochLen
        invariant CatchUp(e, now) == CatchUp(filled, now)
        decreases now - e.epochStartedAt
      {
        var burned := RemainingEpoch(e);
        e := e.(totalBurned := Add64(e.totalBurned, burned));
        e := e.(currentEpoch := e.currentEpoch + 1);
        e := e.(epochStartedAt := e.epochStartedAt + epochLen);
        e := e.(epochMined := 0);
        e := e.(epochScheduled := NextEpochScheduled(e));
      }
      emission := Some(e);
    }

    method MintProtocolReward(now: UnixTime, recipient: Addr, amount: U64) returns (r: Check)
      modifies this`accounts, this`emission
      ensures Matches(r, MintReward(old(Contents()), now, recipient, amount))
    {
      hide Sync, RemainingScheduled, RemainingEpoch;
      if amount == 0 { return Fail(InvalidRequest); }
      if recipient !in accounts && amount < MIN_NEW_ACCOUNT_CREDIT { return Fail(InvalidRequest); }
      var e := SyncEmissionState(now);
      if amount > RemainingScheduled(e) { return Fail(InvalidRequest); }
      if amount > RemainingEpoch(e) { return Fail(InvalidRequest); }
      e := e.(totalMined := Add64(e.totalMined, amount));
      e := e.(epochMined := Add64(e.epochMined, amount));
      emission := Some(e);
      r := CreditAccount(recipient, amount);
    }

    method PostGate(now: UnixTime, creator: Addr, payloadUri: string, payloadHash: string,
                    goldCommit: string, drip: U64, maxAnswers: U64) returns (r: Check)
      modifies this`gates, this`gateSeq
      ensures Matches(r, Gates.PostGate(env, old(Contents()), now, creator, payloadUri, payloadHash, goldCommit, drip, maxAnswers))
    {
      hide IsHexSha256;
      if creator == "" { return Fail(InvalidAddress); }
      if creator !in env.anchors { return Fail(Unauthorized); }
      if !IsHexSha256(payloadHash) || !IsHexSha256(goldCommit) { return Fail(InvalidRequest); }
      if drip == 0 || drip > MAX_DRIP_PER_ANSWER { return Fail(InvalidRequest); }
      if maxAnswers == 0 || maxAnswers > MAX_GATE_ANSWERS { return Fail(InvalidRequest); }
      var id := gateSeq;
      gateSeq := gateSeq + 1;
      gates := gates[id := Gate(id, creator, payloadUri, payloadHash, goldCommit, drip, maxAnswers,
                                now + env.commitWindow, now + env.commitWindow + env.revealWindow, GateOpen, [], "", "")];
      return Pass;
    }

    method CommitAnswer(now: UnixTime, creator: Addr, gateId: nat, commit: string) returns (r: Check)
      modifies this`gates
      ensures Matches(r, Gates.CommitAnswer(old(Contents()), now, creator, gateId, commit))
    {
      hide IsHexSha256;
      if creator == "" { return Fail(InvalidAddress); }
      if gateId !in gates { return Fail(KeyNotFound); }
      var gate := gates[gateId];
      if gate.status != GateOpen { return Fail(InvalidRequest); }
      if now >= gate.commitDeadline { return Fail(InvalidRequest); }
      if creator == gate.poster { return Fail(InvalidRequest); }
      if creator !in accounts || !accounts[creator].registered { return Fail(InvalidRequest); }
      if !IsHexSha256(commit) { return Fail(InvalidRequest); }
      if |gate.answers| >= gate.maxAnswers { return Fail(InvalidRequest); }
      for i := 0 to |gate.answers|
        invariant Contents() == old(Contents())
        invariant FindAnswer(gate.answers, creator, i) == FindAnswer(gate.answers, creator, 0)
      {
        if gate.answers[i].agent == creator { return Fail(InvalidRequest); }
      }
      gate := gate.(answers := gate.answers + [GateAnswer(creator, commit, "", false, false)]);
      gates := gates[gate.id := gate];
      return Pass;
    }

    method RevealAnswer(now: UnixTime, creator: Addr, gateId: nat, answer: string, salt: string) returns (r: Check)
      modifies this`gates
      ensures Matches(r, Gates.RevealAnswer(env, old(Contents()), now, creator, gateId, answer, salt))
    {
      hide EqualFold, Commitment;
      if creator == "" { return Fail(InvalidAddress); }
      if gateId !in gates { return Fail(KeyNotFound); }
      var gate := gates[gateId];
      if gate.status != GateOpen { return Fail(InvalidRequest); }
      if now < gate.commitDeadline { return Fail(InvalidRequest); }
      if now >= gate.revealDeadline { return Fail(InvalidRequest); }
      if answer == "" { return Fail(InvalidRequest); }
      for i := 0 to |gate.answers|
        invariant Contents() == old(Contents())
        invariant FindAnswer(gate.answers, creator, i) == FindAnswer(gate.answers, creator, 0)
      {
        var a := gate.answers[i];
        if a.agent != creator { continue; }
        if a.revealed { return Fail(InvalidRequest); }
        if !EqualFold(Commitment(env, answer, salt), a.commit) { return Fail(InvalidRequest); }
        gate := gate.(answers := gate.answers[i := a.(answer := answer, revealed := true)]);
        gates := gates[gate.id := gate];
        return Pass;
      }
      return Fail(InvalidRequest);
    }

    method SettleGate(now: UnixTime, creator: Addr, gateId: nat, goldAnswer: string, goldSalt: string) returns (r: Check)
      modifies this`accounts, this`emission, this`gates
      ensures Matches(r, Gates.SettleGate(env, old(Contents()), now, creator, gateId, goldAnswer, goldSalt))
    {
      hide EqualFold, Commitment, PluralityFrom, PayFrom, MarkPaid;
      if creator == "" { return Fail(InvalidAddress); }
      if gateId !in gates { return Fail(KeyNotFound); }
      var gate := gates[gateId];
      if gate.status != GateOpen { return Fail(InvalidRequest); }
      if now < gate.revealDeadline { return Fail(InvalidRequest); }
      if !EqualFold(Commitment(env, goldAnswer, goldSalt), gate.goldCommit) { return Fail(InvalidRequest); }
      var winning := goldAnswer;
      if winning == "" { winning := CountPlurality(gate.answers); }
      var answers;
      r, answers := PayCoherent(now, gate, winning);
      if r.Fail? { return; }
      gate := gate.(answers := answers, status := GateSettled, goldAnswer := goldAnswer, consensus := winning);
      gates := gates[gate.id := gate];
    }

    /** The minting loop: each coherent answer is paid and marked. */
    method PayCoherent(now: UnixTime, g: Gate, winning: string) returns (r: Check, answers: seq<GateAnswer>)
      modifies this`accounts, this`emission
      ensures Matches(r, PayFrom(old(Contents()), now, g, winning, 0))
      ensures r.Pass? ==> answers == MarkPaid(g.answers, winning)
    {
      hide MintReward;
      answers := g.answers;
      r := Pass;
      for i := 0 to |g.answers|
        invariant |answers| == |g.answers| && r == Pass
        invariant PayFrom(Contents(), now, g, winning, i) == PayFrom(old(Contents()), now, g, winning, 0)
        invariant forall j | 0 <= j < i :: answers[j] == MarkPaid(g.answers, winning)[j]
        invariant forall j | i <= j < |answers| :: answers[j] == g.answers[j]
      {
        var a := g.answers[i];
        if winning == "" || !a.revealed || a.answer != winning { continue; }
        r := MintProtocolReward(now, a.agent, g.drip);
        if r.Fail? { return; }
        answers := answers[i := a.(paid := true)];
      }
    }

    /** The store walk for an award of the same artifact; the awards may come in any order. */
    method WalkAwards(artifactSha256: string) returns (duplicate: bool)
      ensures duplicate == Awarded(Contents(), artifactSha256)
    {
      hide EqualFold;
      var rest := awards.Keys;
      while rest != {}
        invariant rest <= awards.Keys
        invariant forall id | id in awards && id !in rest :: !EqualFold(awards[id].contribution.artifactSha256, artifactSha256)
        decreases |rest|
      {
        var id :| id in rest;
        if EqualFold(awards[id].contribution.artifactSha256, artifactSha256) { return true; }
        rest := rest - {id};
      }
      return false;
    }

    method AwardContribution(now: UnixTime, creator: Addr, c: Contribution) returns (r: Check)
      modifies this`accounts, this`emission, this`awards, this`awardSeq
      ensures Matches(r, Gates.AwardContribution(env, old(Contents()), now, creator, c))
    {
      hide IsHexSha256, Blank, Awarded, MintReward;
      if creator == "" || c.recipient == "" || c.contributor == "" { return Fail(InvalidAddress); }
      if creator !in env.anchors { return Fail(Unauthorized); }
      if c.amount == 0 || c.amount > MAX_CONTRIBUTION_AWARD { return Fail(InvalidRequest); }
      if c.recipient != c.contributor { return Fail(InvalidRequest); }
      if c.founderAuthored && c.recipient != creator { return Fail(InvalidRequest); }
      if c.recipient == creator && !c.founderAuthored { return Fail(InvalidRequest); }
      if c.founderAuthored && Blank(c.reviewEvidenceUri) { return Fail(InvalidRequest); }
      if Blank(c.repoUrl) || Blank(c.commitSha) || Blank(c.artifactUri) || Blank(c.scope) { return Fail(InvalidRequest); }
      if !IsHexSha256(c.artifactSha256) || !IsHexSha256(c.evidenceSha256) { return Fail(InvalidRequest); }
      if c.rationaleHash != "" && !IsHexSha256(c.rationaleHash) { return Fail(InvalidRequest); }
      var duplicate := WalkAwards(c.artifactSha256);
      if duplicate { return Fail(InvalidRequest); }
      if c.recipient !in accounts && c.amount < MIN_NEW_ACCOUNT_CREDIT { return Fail(InvalidRequest); }
      var id := awardSeq;
      awardSeq := awardSeq + 1;
      awards := awards[id := Award(id, creator, c)];
      r := MintProtocolReward(now, c.recipient, c.amount);
    }

    // ---- Reputation ---------------------------------------------------------

    /** The query's walk over vouches, released escrows and upheld disputes, and the ranking of the result. */
    method ReputationScores() returns (scores: map<Addr, real>)
      ensures Scores.IsScores(Trust.TrustEdges(Contents()), env.anchors, scores)
    {
      hide Reputation.Edges, Reputation.Weighted, Scores.IsScores;
      var seen := [];
      for id := 0 to vouchSeq
        invariant seen == Trust.VouchesBelow(Contents(), id)
      {
        if id in vouches { seen := seen + [vouches[id]]; }
      }
      var jobs := [];
      for id := 0 to escrowSeq
        invariant jobs == Trust.JobsBelow(Contents(), id)
      {
        if id in escrows && escrows[id].status == Released {
          jobs := jobs + [Reputation.JobEdge(escrows[id].payer, escrows[id].payee, escrows[id].amount)];
        }
      }
      var endorsed := WalkEndorsements();
      jobs := jobs + endorsed;
      scores := Ranking.Rank(seen, jobs, env.anchors);
    }

    /** Jurors that accepted work the jury upheld. */
    method WalkEndorsements() returns (jobs: seq<Reputation.JobEdge>)
      ensures jobs == Trust.EndorsementsBelow(Contents(), disputeSeq)
    {
      jobs := [];
      for id := 0 to disputeSeq
        invariant jobs == Trust.EndorsementsBelow(Contents(), id)
      {
        if id !in disputes || disputes[id].resolution != Accept { continue; }
        var d := disputes[id];
        if d.escrowId !in escrows { continue; }
        var e := escrows[d.escrowId];
        ghost var before := jobs;
        for k := 0 to |d.votes|
          invariant jobs == before + Trust.Endorsements(d.votes, e, k)
        {
          if d.votes[k].accept { jobs := jobs + [Reputation.JobEdge(d.votes[k].juror, e.payee, e.amount)]; }
        }
      }
    }

    // ---- Transactions -------------------------------------------------------

    method RouteEscrow(now: UnixTime, m: EscrowMsg) returns (r: Check)
      modifies this
      ensures Matches(r, HandleEscrow(env, old(Contents()), now, m))
    {
      hide Escrows.LockEscrow, Escrows.SubmitEscrow, Escrows.DisputeEscrow, Escrows.ReleaseEscrow, Escrows.RefundEscrow,
        Escrows.AttestEscrow, Escrows.VerifiedRelease, Escrows.ReclaimAttestationBonds;
      match m
      case MsgLockEscrow(q) => r := LockEscrow(now, q);
      case MsgSubmitEscrow(c, id, dh, kh, uri) => r := SubmitEscrow(now, c, id, dh, kh, uri);
      case MsgDisputeEscrow(c, id) => r := DisputeEscrow(c, id);
      case MsgReleaseEscrow(c, id) => r := ReleaseEscrow(now, c, id);
      case MsgRefundEscrow(c, id) => r := RefundEscrow(now, c, id);
      case MsgAttestEscrow(c, id, passed, stake, dh, kh, ah) => r := AttestEscrow(now, c, id, passed, stake, dh, kh, ah);
      case MsgVerifiedRelease(c, id, key) => r := VerifiedRelease(now, c, id, key);
      case MsgReclaimAttestationBonds(c, id) => r := ReclaimAttestationBonds(now, c, id);
    }

    method RouteJury(now: UnixTime, m: JuryMsg) returns (r: Check)
      modifies this
      ensures Matches(r, HandleJury(env, old(Contents()), now, m))
    {
      hide Jury.OpenDispute, Jury.CastVote, Jury.ResolveDispute;
      match m
      case MsgOpenDispute(c, id, reason, bond) => r := OpenDispute(now, c, id, reason, bond);
      case MsgCastVote(c, id, accept, stake) => r := CastVote(c, id, accept, stake);
      case MsgResolveDispute(c, id) => r := ResolveDispute(now, c, id);
    }

    method RouteBond(m: BondMsg) returns (r: Check)
      modifies this
      ensures Matches(r, HandleBond(old(Contents()), m))
    {
      hide Bonds.Register, Bonds.Transfer, Bonds.CastVouch, Bonds.Unvouch, Bonds.PostBond, Bonds.ReleaseBond, Bonds.SlashBond;
      match m
      case MsgRegister(c) => r := Register(c);
      case MsgTransfer(c, to, amount) => r := Transfer(c, to, amount);
      case MsgCastVouch(c, to, weight, stake) => r := CastVouch(c, to, weight, stake);
      case MsgUnvouch(c, to) => r := Unvouch(c, to);
      case MsgPostBond(c, amount, purpose, slasher, ref) => r := PostBond(c, amount, purpose, slasher, ref);
      case MsgReleaseBond(c, id) => r := ReleaseBond(c, id);
      case MsgSlashBond(c, id, beneficiary) => r := SlashBond(c, id, beneficiary);
    }

    method RouteGate(now: UnixTime, m: GateMsg) returns (r: Check)
      modifies this
      ensures Matches(r, HandleGate(env, old(Contents()), now, m))
    {
      hide Gates.PostGate, Gates.CommitAnswer, Gates.RevealAnswer, Gates.SettleGate, Gates.AwardContribution;
      match m
      case MsgPostGate(c, uri, hash, gold, drip, max) => r := PostGate(now, c, uri, hash, gold, drip, max);
      case MsgCommitAnswer(c, id, commit) => r := CommitAnswer(now, c, id, commit);
      case MsgRevealAnswer(c, id, answer, salt) => r := RevealAnswer(now, c, id, answer, salt);
      case MsgSettleGate(c, id, gold, salt) => r := SettleGate(now, c, id, gold, salt);
      case MsgAwardContribution(c, contribution) => r := AwardContribution(now, c, contribution);
    }

    /** One transaction: the handler runs on the stores, and a refusal rolls them back. */
    method Deliver(tx: Tx) returns (r: Check)
      modifies this
      ensures Contents() == Apply(env, old(Contents()), tx.now, tx.msg)
      ensures r.Pass? <==> Step(env, old(Contents()), tx.now, tx.msg).Ok?
    {
      hide HandleEscrow, HandleJury, HandleBond, HandleGate;
      var snapshot := Contents();
      match tx.msg {
        case ToEscrows(m) => r := RouteEscrow(tx.now, m);
        case ToJury(m) => r := RouteJury(tx.now, m);
        case ToBonds(m) => r := RouteBond(m);
        case ToGates(m) => r := RouteGate(tx.now, m);
      }
      if r.Fail? { Restore(snapshot); }
    }

    /** A list of transactions leaves the state that the machine's run describes. */
    method DeliverAll(txs: seq<Tx>)
      modifies this
      ensures Contents() == Run(env, old(Contents()), txs)
    {
      hide Apply;
      for i := 0 to |txs|
        invariant Run(env, Contents(), txs[i..]) == Run(env, old(Contents()), txs)
      {
        assert txs[i..][1..] == txs[i + 1..];
        var _ := Deliver(txs[i]);
      }
    }
  }
}
