/** Which messages are accepted, in plain terms and figures, in any state whose books and custody are in
    order: nothing but what is said here can stand in the way. */
module Admission {
  import opened Outcomes
  import opened Integers
  import opened Text
  import opened Types
  import opened Emission
  import opened Escrows
  import opened Jury
  import opened Bonds
  import opened Gates
  import opened Machine
  import opened Conservation
  import opened Conserved
  import opened Custody
  import opened CustodyKept
  import opened Minting
  import opened Receipts
  import opened Rulings
  import opened Verdicts
  import opened Wages
  import Reputation

  // ---- Plain terms --------------------------------------------------------

  /** `a` has a registered account with at least `amount` on it. */
  predicate Funds(s: State, a: Addr, amount: nat) {
    a != "" && a in s.accounts && s.accounts[a].registered && s.accounts[a].balance >= amount
  }

  /** Accounts that do not exist yet are opened by a credit of 100 or more. */
  predicate MayOpen(s: State, a: Addr, amount: nat) {
    a in s.accounts || amount >= 100
  }

  /** 64 hexadecimal digits. */
  predicate Digest(t: string) {
    |t| == 64 && forall i | 0 <= i < 64 :: t[i] in "0123456789abcdefABCDEF"
  }

  predicate SameLetter(c: char, d: char) {
    c == d || ('a' <= c <= 'z' && c as int - d as int == 32) || ('A' <= c <= 'Z' && d as int - c as int == 32)
  }

  /** Equal up to the case of letters. */
  predicate SameText(t: string, u: string) {
    |t| == |u| && forall i | 0 <= i < |t| :: SameLetter(t[i], u[i])
  }

  lemma DigestIs(t: string)
    ensures IsHexSha256(t) <==> Digest(t)
  {
    assert forall c: char :: IsHexChar(c) <==> c in "0123456789abcdefABCDEF" by {
      forall c: char
        ensures IsHexChar(c) <==> c in "0123456789abcdefABCDEF"
      {
        HexDigit(c);
      }
    }
  }

  lemma HexDigit(c: char)
    ensures IsHexChar(c) <==> c in "0123456789abcdefABCDEF"
  {
    var digits := "0123456789abcdefABCDEF";
    if '0' <= c <= '9' {
      assert digits[c as int - '0' as int] == c;
    } else if 'a' <= c <= 'f' {
      assert digits[10 + (c as int - 'a' as int)] == c;
    } else if 'A' <= c <= 'F' {
      assert digits[16 + (c as int - 'A' as int)] == c;
    }
  }

  lemma SameTextIs(t: string, u: string)
    ensures EqualFold(t, u) <==> SameText(t, u)
  {
    forall i | 0 <= i < |t| && |t| == |u|
      ensures LowerChar(t[i]) == LowerChar(u[i]) <==> SameLetter(t[i], u[i])
    {
      SameLetterIs(t[i], u[i]);
    }
  }

  lemma SameLetterIs(c: char, d: char)
    ensures LowerChar(c) == LowerChar(d) <==> SameLetter(c, d)
  {
  }

  // ---- Escrows ------------------------------------------------------------

  /** A verifier set is a list of distinct third parties with a quorum among them and a digest of the terms. */
  predicate VerifierTerms(q: LockRequest) {
    if q.verifierAddrs == [] then q.verifierQuorum == 0 && (q.acceptanceHash == "" || Digest(q.acceptanceHash))
    else
      && 1 <= q.verifierQuorum <= |q.verifierAddrs| && Digest(q.acceptanceHash) && Reputation.NoRepeats(q.verifierAddrs)
      && forall i | 0 <= i < |q.verifierAddrs| :: q.verifierAddrs[i] !in {"", q.payer, q.payee}
  }

  predicate EscrowAdmits(env: Env, s: State, now: int, x: EscrowMsg) {
    match x
    case MsgLockEscrow(q) =>
      q.amount > 0 && Funds(s, q.payer, q.amount) && q.payee !in {"", q.payer} && MayOpen(s, q.payee, q.amount) && VerifierTerms(q)
    case _ =>
      x.creator != "" && x.id in s.escrows && EscrowAllows(env, s, now, x, s.escrows[x.id])
  }

  predicate EscrowAllows(env: Env, s: State, now: int, x: EscrowMsg, e: Escrow)
    requires !x.MsgLockEscrow?
  {
    match x
    case MsgSubmitEscrow(c, _, dh, kh, _) =>
      && c == e.payee && e.status == Locked
      && (dh == "" ==> e.verifierAddrs == []) && (kh == "" ==> e.verifierAddrs == [])
      && (dh == "" || Digest(dh)) && (kh == "" || Digest(kh))
    case MsgDisputeEscrow(c, _) => c == e.payer && e.status == Submitted && e.verifierAddrs == []
    case MsgReleaseEscrow(c, _) =>
      || (c == e.payer && e.status in {Locked, Submitted, Disputed, FailAttested})
      || (e.status in {Locked, Submitted, FailAttested} && !e.noAutoRelease && now >= e.deadline)
    case MsgRefundEscrow(c, _) =>
      c == e.payer && ((e.status == Locked && now < e.deadline) || (e.status == FailAttested && now >= e.challengeDeadline))
    case MsgAttestEscrow(c, _, _, stake, dh, kh, ah) =>
      && e.status == Submitted && c in e.verifierAddrs && (forall i | 0 <= i < |e.attestations| :: e.attestations[i].verifier != c)
      && SameText(dh, e.deliveryHash) && SameText(kh, e.keyHash) && SameText(ah, e.acceptanceHash)
      && stake >= e.amount && Funds(s, c, stake)
    case MsgVerifiedRelease(_, _, key) =>
      && e.status == Submitted && e.verifierAddrs != [] && |e.attestations| >= e.verifierQuorum
      && if e.keyHash == "" then key == "" else SameText(env.sha256(key), e.keyHash)
    case MsgReclaimAttestationBonds(_, _) =>
      e.attestations != [] && e.status in {Released, Refunded, FailAttested} && (e.challengeDeadline <= 0 || now >= e.challengeDeadline)
  }

  lemma {:induction false} VerifiersChecked(payer: Addr, payee: Addr, verifiers: seq<Addr>, seen: set<Addr>)
    ensures CheckVerifiers(payer, payee, verifiers, seen) == Pass <==>
              && (forall i | 0 <= i < |verifiers| :: verifiers[i] !in {"", payer, payee} && verifiers[i] !in seen)
              && Reputation.NoRepeats(verifiers)
    decreases |verifiers|
  {
    if verifiers != [] {
      var rest := verifiers[1..];
      VerifiersChecked(payer, payee, rest, seen + {verifiers[0]});
      assert forall i | 0 < i < |verifiers| :: verifiers[i] == rest[i - 1];
      assert forall i | 0 <= i < |rest| :: rest[i] == verifiers[i + 1];
    }
  }

  lemma TermsChecked(q: LockRequest)
    ensures CheckVerifierTerms(q) == Pass <==> VerifierTerms(q)
  {
    hide IsHexSha256, Digest, CheckVerifiers;
    DigestIs(q.acceptanceHash);
    VerifiersChecked(q.payer, q.payee, q.verifierAddrs, {});
  }

  lemma LockAdmitted(env: Env, s: State, now: UnixTime, q: LockRequest)
    ensures LockEscrow(s, now, q).Ok? <==> EscrowAdmits(env, s, now, MsgLockEscrow(q))
  {
    hide CheckVerifierTerms, VerifierTerms;
    TermsChecked(q);
  }

  lemma AttestAdmitted(env: Env, s: State, now: UnixTime, x: EscrowMsg)
    requires x.MsgAttestEscrow?
    ensures AttestEscrow(s, now, x.creator, x.id, x.passed, x.stake, x.deliveryHash, x.keyHash, x.acceptanceHash).Ok?
       <==> EscrowAdmits(env, s, now, x)
  {
    hide EqualFold, SameText, FormatUint;
    if x.id in s.escrows {
      SameTextIs(x.deliveryHash, s.escrows[x.id].deliveryHash);
      SameTextIs(x.keyHash, s.escrows[x.id].keyHash);
      SameTextIs(x.acceptanceHash, s.escrows[x.id].acceptanceHash);
    }
  }

  lemma VerifiedReleaseAdmitted(env: Env, s: State, now: UnixTime, c: Addr, id: nat, key: string)
    requires Books(s) && InCustody(env, s, now)
    ensures VerifiedRelease(env, s, now, c, id, key).Ok? <==> EscrowAdmits(env, s, now, MsgVerifiedRelease(c, id, key))
  {
    hide Supply, InCustody, EqualFold, SameText, EscrowBacked, StakesWait, StakesSpent, StakesActive;
    if id in s.escrows {
      var e := s.escrows[id];
      EscrowAt(env, s, now, id);
      SameTextIs(env.sha256(key), e.keyHash);
      if e.status == Submitted { AllCount(e, 0); }
    }
  }

  /** While an escrow is submitted every attestation counts as a pass. */
  lemma {:induction false} AllCount(e: Escrow, i: nat)
    requires i <= |e.attestations| && AllPassed(e) && forall j | 0 <= j < |e.attestations| :: Pinned(e, e.attestations[j])
    ensures PassesFrom(e, i) == |e.attestations| - i
    decreases |e.attestations| - i
  {
    if i < |e.attestations| { AllCount(e, i + 1); }
  }

  lemma SubmitAdmitted(env: Env, s: State, now: UnixTime, c: Addr, id: nat, dh: string, kh: string, uri: string)
    ensures SubmitEscrow(s, now, c, id, dh, kh, uri).Ok? <==> EscrowAdmits(env, s, now, MsgSubmitEscrow(c, id, dh, kh, uri))
  {
    hide IsHexSha256, Digest;
    DigestIs(dh);
    DigestIs(kh);
    NoDigest();
  }

  lemma NoDigest()
    ensures !Digest("")
  {
  }

  lemma MovesAdmitted(env: Env, s: State, now: UnixTime, x: EscrowMsg)
    requires Books(s) && (x.MsgDisputeEscrow? || x.MsgReleaseEscrow? || x.MsgRefundEscrow? || x.MsgReclaimAttestationBonds?)
    ensures HandleEscrow(env, s, now, x).Ok? <==> EscrowAdmits(env, s, now, x)
  {
    hide Supply, ReclaimFrom;
    if x.id in s.escrows && x.MsgReclaimAttestationBonds? { ReclaimFromBalanced(s, s.escrows[x.id], 0); }
  }

  lemma EscrowsAdmitted(env: Env, s: State, now: UnixTime, x: EscrowMsg)
    requires Books(s) && InCustody(env, s, now)
    ensures HandleEscrow(env, s, now, x).Ok? <==> EscrowAdmits(env, s, now, x)
  {
    hide Books, InCustody, EscrowAdmits, LockEscrow, SubmitEscrow, AttestEscrow, VerifiedRelease;
    match x
    case MsgLockEscrow(q) => LockAdmitted(env, s, now, q);
    case MsgSubmitEscrow(c, id, dh, kh, uri) => SubmitAdmitted(env, s, now, c, id, dh, kh, uri);
    case MsgAttestEscrow(_, _, _, _, _, _, _) => AttestAdmitted(env, s, now, x);
    case MsgVerifiedRelease(c, id, key) => VerifiedReleaseAdmitted(env, s, now, c, id, key);
    case _ => MovesAdmitted(env, s, now, x);
  }

  // ---- Jury ---------------------------------------------------------------

  /** Either party may take contested or submitted work to the jury; only the payee a fail verdict, and only
      the payer an attested release, each within its window. */
  predicate MayOpenCase(e: Escrow, now: int, c: Addr) {
    || (e.status in {Submitted, Disputed} && c in {e.payer, e.payee})
    || (e.status == FailAttested && c == e.payee && now < e.challengeDeadline)
    || (e.status == Released && c == e.payer && e.attestations != [] && e.challengeDeadline != 0 && now < e.challengeDeadline)
  }

  predicate JuryAdmits(env: Env, s: State, now: int, x: JuryMsg) {
    match x
    case MsgOpenDispute(c, id, _, bond) => id in s.escrows && MayOpenCase(s.escrows[id], now, c) && bond >= 100 && Funds(s, c, bond)
    case MsgCastVote(c, id, _, stake) =>
      && id in s.disputes && s.disputes[id].status == Open && c in env.anchors
      && (forall i | 0 <= i < |s.disputes[id].votes| :: s.disputes[id].votes[i].juror != c)
      && stake >= 100 && Funds(s, c, stake)
    case MsgResolveDispute(c, id) =>
      && c != "" && id in s.disputes && s.disputes[id].status == Open
      && 2 * |s.disputes[id].votes| > |env.anchors|
      && |For(s.disputes[id].votes)| != |Against(s.disputes[id].votes)|
  }

  lemma OpenAdmitted(env: Env, s: State, now: UnixTime, c: Addr, id: nat, reason: string, bond: U64)
    ensures OpenDispute(s, now, c, id, reason, bond).Ok? <==> JuryAdmits(env, s, now, MsgOpenDispute(c, id, reason, bond))
  {
    hide FormatUint;
  }

  lemma VoteAdmitted(env: Env, s: State, now: UnixTime, c: Addr, id: nat, accept: bool, stake: U64)
    ensures CastVote(env, s, c, id, accept, stake).Ok? <==> JuryAdmits(env, s, now, MsgCastVote(c, id, accept, stake))
  {
    hide FormatUint;
  }

  lemma VerdictAdmitted(env: Env, s: State, now: UnixTime, c: Addr, id: nat)
    requires Books(s) && InCustody(env, s, now)
    ensures ResolveDispute(env, s, now, c, id).Ok? <==> JuryAdmits(env, s, now, MsgResolveDispute(c, id))
  {
    hide Books, InCustody, ResolveDispute;
    VerdictsNeverStick(env, s, now, now, c, id);
    if id in s.disputes { TallyOfSides(s.disputes[id].votes); }
  }

  // ---- Accounts, bonds and vouches ----------------------------------------

  predicate BondAdmits(s: State, x: BondMsg) {
    match x
    case MsgRegister(c) => c != "" && (c in s.accounts ==> !s.accounts[c].registered)
    case MsgTransfer(c, to, amount) => amount > 0 && to !in {"", c} && Funds(s, c, amount) && MayOpen(s, to, amount)
    case MsgCastVouch(c, to, weight, stake) =>
      && c != "" && to !in {"", c} && 1 <= weight <= 100 && stake >= 100 && Known(s.accounts, to)
      && Known(s.accounts, c) && Enough(s, c, to, stake)
    case MsgUnvouch(c, to) => c != "" && to != "" && Vouched(s, c, to)
    case MsgPostBond(c, amount, _, slasher, _) => amount > 0 && slasher !in {"", c} && Funds(s, c, amount)
    case MsgReleaseBond(c, id) => c != "" && id in s.bonds && s.bonds[id].status == Active && s.bonds[id].slasher == c
    case MsgSlashBond(c, id, beneficiary) =>
      && c != "" && id in s.bonds && s.bonds[id].status == Active && s.bonds[id].slasher == c
      && (beneficiary == "" || MayOpen(s, beneficiary, s.bonds[id].amount))
  }

  /** `from` has a vouch for `to`. */
  predicate Vouched(s: State, from: Addr, to: Addr) {
    exists id | id in s.vouches :: s.vouches[id].from == from && s.vouches[id].to == to
  }

  /** The balance, with the stake of the vouch that is to be replaced, covers the new stake. */
  predicate Enough(s: State, c: Addr, to: Addr, stake: nat) {
    c in s.accounts
    && (if Vouched(s, c, to) then exists id | id in s.vouches :: Oldest(s, id, c, to) && s.accounts[c].balance + s.vouches[id].stake >= stake
        else s.accounts[c].balance >= stake)
  }

  lemma VouchFound(s: State, c: Addr, to: Addr)
    requires Keyed(s)
    ensures var found := FindVouch(s, c, to, 0);
            && (found.Some? <==> Vouched(s, c, to))
            && (found.Some? ==> found.value in s.vouches && Oldest(s, found.value, c, to)
                                && forall id | Oldest(s, id, c, to) :: id == found.value)
  {
    hide FindVouch;
    OldestFound(s, c, to, 0);
  }

  lemma VouchAdmitted(s: State, c: Addr, to: Addr, weight: U64, stake: U64)
    requires Books(s)
    ensures CastVouch(s, c, to, weight, stake).Ok? <==> BondAdmits(s, MsgCastVouch(c, to, weight, stake))
  {
    hide Keyed, Parties, Supply, FindVouch, Vouched, Oldest;
    VouchFound(s, c, to);
    var found := FindVouch(s, c, to, 0);
    if found.Some? { BalanceAndVouch(s, c, found.value); }
    BooksBound(s);
  }

  lemma UnvouchAdmitted(s: State, c: Addr, to: Addr)
    requires Books(s)
    ensures Unvouch(s, c, to).Ok? <==> BondAdmits(s, MsgUnvouch(c, to))
  {
    hide Keyed, Supply, FindVouch, Vouched;
    VouchFound(s, c, to);
  }

  lemma BondsAdmitted(s: State, x: BondMsg)
    requires Books(s)
    ensures HandleBond(s, x).Ok? <==> BondAdmits(s, x)
  {
    hide Supply, CastVouch, Unvouch, Vouched, Enough, FormatUint;
    if x.MsgCastVouch? { VouchAdmitted(s, x.creator, x.to, x.weight, x.stake); }
    else if x.MsgUnvouch? { UnvouchAdmitted(s, x.creator, x.to); }
  }

  // ---- Gates and awards ---------------------------------------------------

  /** Once the epoch boundaries up to now are passed, the current epoch's reward and the supply both still
      cover `amount`. */
  predicate Covers(stored: Option<EmissionState>, now: UnixTime, amount: nat) {
    var e := Sync(stored, now);
    amount == 0 || (amount + e.totalMined + e.totalBurned <= e.maxSupply && amount + e.epochMined <= e.epochScheduled)
  }

  lemma CoversIs(stored: Option<EmissionState>, now: UnixTime, amount: nat)
    ensures Affordable(stored, now, amount) <==> Covers(stored, now, amount)
  {
    hide Sync;
  }

  ghost predicate GateAdmits(env: Env, s: State, now: UnixTime, x: GateMsg) {
    match x
    case MsgPostGate(c, _, hash, gold, drip, max) =>
      c != "" && c in env.anchors && Digest(hash) && Digest(gold) && 1 <= drip <= 50 && 1 <= max <= 1000
    case MsgCommitAnswer(c, id, commit) =>
      && id in s.gates && s.gates[id].status == GateOpen && now < s.gates[id].commitDeadline
      && c !in {"", s.gates[id].poster} && Known(s.accounts, c) && Digest(commit) && |s.gates[id].answers| < s.gates[id].maxAnswers
      && forall i | 0 <= i < |s.gates[id].answers| :: s.gates[id].answers[i].agent != c
    case MsgRevealAnswer(c, id, answer, salt) =>
      && c != "" && id in s.gates && s.gates[id].status == GateOpen
      && s.gates[id].commitDeadline <= now < s.gates[id].revealDeadline && answer != ""
      && MayReveal(s.gates[id].answers, c, env.sha256(answer + ":" + salt))
    case MsgSettleGate(c, id, gold, salt) =>
      && c != "" && id in s.gates && s.gates[id].status == GateOpen && now >= s.gates[id].revealDeadline
      && SameText(env.sha256(gold + ":" + salt), s.gates[id].goldCommit)
      && exists w :: Wins(s.gates[id].answers, gold, w)
                     && Covers(s.emission, now, if w == "" then 0 else s.gates[id].drip * |Readers(s.gates[id].answers, w)|)
    case MsgAwardContribution(c, k) =>
      && AwardTerms(env, c, k) && MayOpen(s, k.recipient, k.amount) && Covers(s.emission, now, k.amount)
      && forall id | id in s.awards :: !SameText(s.awards[id].contribution.artifactSha256, k.artifactSha256)
  }

  /** `c` has committed to the text with this hash and not yet revealed it. */
  predicate MayReveal(answers: seq<GateAnswer>, c: Addr, hash: string) {
    exists i | 0 <= i < |answers| :: answers[i].agent == c && !answers[i].revealed && SameText(hash, answers[i].commit)
  }

  /** Something other than white space is written there. */
  predicate Shown(text: string) {
    exists c | c in text :: !SpaceCode(c as int)
  }

  /** An anchor certifies a contributor's work; its own only with a review. */
  predicate AwardTerms(env: Env, c: Addr, k: Contribution) {
    && c != "" && c in env.anchors && k.recipient != "" && k.recipient == k.contributor && 1 <= k.amount <= 500
    && (k.founderAuthored <==> k.recipient == c) && (k.founderAuthored ==> Shown(k.reviewEvidenceUri))
    && Shown(k.repoUrl) && Shown(k.commitSha) && Shown(k.artifactUri) && Shown(k.scope)
    && Digest(k.artifactSha256) && Digest(k.evidenceSha256) && (k.rationaleHash == "" || Digest(k.rationaleHash))
  }

  lemma PostAdmitted(env: Env, s: State, now: UnixTime, x: GateMsg)
    requires x.MsgPostGate?
    ensures HandleGate(env, s, now, x).Ok? <==> GateAdmits(env, s, now, x)
  {
    hide IsHexSha256, Digest;
    DigestIs(x.payloadHash);
    DigestIs(x.goldCommit);
  }

  lemma CommitAdmitted(env: Env, s: State, now: UnixTime, c: Addr, id: nat, commit: string)
    ensures CommitAnswer(s, now, c, id, commit).Ok? <==> GateAdmits(env, s, now, MsgCommitAnswer(c, id, commit))
  {
    hide IsHexSha256, Digest;
    DigestIs(commit);
  }

  lemma RevealAdmitted(env: Env, s: State, now: UnixTime, c: Addr, id: nat, answer: string, salt: string)
    requires GatesSound(s, now)
    ensures RevealAnswer(env, s, now, c, id, answer, salt).Ok? <==> GateAdmits(env, s, now, MsgRevealAnswer(c, id, answer, salt))
  {
    hide EqualFold, SameText;
    if id in s.gates {
      var answers := s.gates[id].answers;
      assert GateSound(s.gates[id], now);
      forall i | 0 <= i < |answers|
        ensures EqualFold(Commitment(env, answer, salt), answers[i].commit) <==> SameText(env.sha256(answer + ":" + salt), answers[i].commit)
      {
        SameTextIs(Commitment(env, answer, salt), answers[i].commit);
      }
    }
  }

  lemma SettleAdmitted(env: Env, s: State, now: UnixTime, c: Addr, id: nat, gold: string, salt: string)
    requires GatesSound(s, now)
    ensures SettleGate(env, s, now, c, id, gold, salt).Ok? <==> GateAdmits(env, s, now, MsgSettleGate(c, id, gold, salt))
  {
    hide GatesSound, SettleGate, EqualFold, SameText, Winning, Wins, Covers, Affordable, Readers;
    SettleGateIff(env, s, now, now, c, id, gold, salt);
    if id in s.gates {
      var g := s.gates[id];
      SameTextIs(Commitment(env, gold, salt), g.goldCommit);
      WageBill(s, now, id, gold);
    }
  }

  /** What settling costs is the drip times the number of agents that revealed the winning text. */
  lemma WageBill(s: State, now: UnixTime, id: nat, gold: string)
    requires GatesSound(s, now) && id in s.gates
    ensures var g := s.gates[id]; var w := Winning(g.answers, gold);
            && (forall v :: Wins(g.answers, gold, v) <==> v == w)
            && g.drip * CoherentFrom(g, w, 0) == (if w == "" then 0 else g.drip * |Readers(g.answers, w)|)
            && (Affordable(s.emission, now, g.drip * CoherentFrom(g, w, 0)) <==> Covers(s.emission, now, g.drip * CoherentFrom(g, w, 0)))
  {
    hide Winning, Wins, Covers, Affordable, Readers;
    var g := s.gates[id];
    assert GateSound(g, now);
    var w := Winning(g.answers, gold);
    forall v
      ensures Wins(g.answers, gold, v) <==> v == w
    {
      WinnerFound(g.answers, gold, v);
    }
    if w == "" {
      NobodyCoherent(g, 0);
    } else {
      CoherentReaders(g, w, 0);
      AreReaders(g.answers, w);
    }
    CoversIs(s.emission, now, g.drip * CoherentFrom(g, w, 0));
  }

  lemma ShownIs(text: string)
    ensures Shown(text) <==> !Blank(text)
  {
    BlankMeans(text);
  }

  lemma AwardChecked(env: Env, c: Addr, k: Contribution)
    ensures CheckContribution(env, c, k) == Pass <==> AwardTerms(env, c, k)
  {
    hide IsHexSha256, Digest, Blank, Shown;
    ShownIs(k.reviewEvidenceUri);
    ShownIs(k.repoUrl);
    ShownIs(k.commitSha);
    ShownIs(k.artifactUri);
    ShownIs(k.scope);
    DigestIs(k.artifactSha256);
    DigestIs(k.evidenceSha256);
    DigestIs(k.rationaleHash);
  }

  lemma AwardAdmitted(env: Env, s: State, now: UnixTime, c: Addr, k: Contribution)
    ensures AwardContribution(env, s, now, c, k).Ok? <==> GateAdmits(env, s, now, MsgAwardContribution(c, k))
  {
    hide CheckContribution, AwardTerms, EqualFold, SameText, Sync, Covers, RemainingScheduled, RemainingEpoch;
    AwardChecked(env, c, k);
    CoversIs(s.emission, now, k.amount);
    forall id | id in s.awards
      ensures EqualFold(s.awards[id].contribution.artifactSha256, k.artifactSha256)
         <==> SameText(s.awards[id].contribution.artifactSha256, k.artifactSha256)
    {
      SameTextIs(s.awards[id].contribution.artifactSha256, k.artifactSha256);
    }
    if AwardTerms(env, c, k) { AmountPositive(env, c, k); }
  }

  lemma AmountPositive(env: Env, c: Addr, k: Contribution)
    requires AwardTerms(env, c, k)
    ensures k.amount > 0
  {
  }

  lemma GatesAdmitted(env: Env, s: State, now: UnixTime, x: GateMsg)
    requires GatesSound(s, now)
    ensures HandleGate(env, s, now, x).Ok? <==> GateAdmits(env, s, now, x)
  {
    hide GatesSound, GateAdmits, CommitAnswer, RevealAnswer, SettleGate, AwardContribution;
    match x
    case MsgPostGate(_, _, _, _, _, _) => PostAdmitted(env, s, now, x);
    case MsgCommitAnswer(c, id, commit) => CommitAdmitted(env, s, now, c, id, commit);
    case MsgRevealAnswer(c, id, answer, salt) => RevealAdmitted(env, s, now, c, id, answer, salt);
    case MsgSettleGate(c, id, gold, salt) => SettleAdmitted(env, s, now, c, id, gold, salt);
    case MsgAwardContribution(c, k) => AwardAdmitted(env, s, now, c, k);
  }

  // ---- Every message ------------------------------------------------------

  ghost predicate Admitted(env: Env, s: State, now: UnixTime, m: Msg) {
    match m
    case ToEscrows(x) => EscrowAdmits(env, s, now, x)
    case ToJury(x) => JuryAdmits(env, s, now, x)
    case ToBonds(x) => BondAdmits(s, x)
    case ToGates(x) => GateAdmits(env, s, now, x)
  }

  /** In a state with books, custody and gates in order a message succeeds if and only if it meets its plain
      terms. Nothing else can refuse it: no missing record or account, and no guard on new accounts in a
      payout, a verdict, a reclaim or a drip. */
  lemma AdmittedIff(env: Env, s: State, now: UnixTime, m: Msg)
    requires Books(s) && InCustody(env, s, now) && GatesSound(s, now)
    ensures Step(env, s, now, m).Ok? <==> Admitted(env, s, now, m)
  {
    hide Books, InCustody, GatesSound, HandleEscrow, HandleJury, HandleBond, HandleGate, EscrowAdmits, JuryAdmits, BondAdmits, GateAdmits;
    match m
    case ToEscrows(x) => EscrowsAdmitted(env, s, now, x);
    case ToJury(x) => JuryAdmitted(env, s, now, x);
    case ToBonds(x) => BondsAdmitted(s, x);
    case ToGates(x) => GatesAdmitted(env, s, now, x);
  }

  lemma JuryAdmitted(env: Env, s: State, now: UnixTime, x: JuryMsg)
    requires Books(s) && InCustody(env, s, now)
    ensures HandleJury(env, s, now, x).Ok? <==> JuryAdmits(env, s, now, x)
  {
    hide Books, InCustody, JuryAdmits, OpenDispute, CastVote, ResolveDispute;
    match x
    case MsgOpenDispute(c, id, reason, bond) => OpenAdmitted(env, s, now, c, id, reason, bond);
    case MsgCastVote(c, id, accept, stake) => VoteAdmitted(env, s, now, c, id, accept, stake);
    case MsgResolveDispute(c, id) => VerdictAdmitted(env, s, now, c, id);
  }
}
