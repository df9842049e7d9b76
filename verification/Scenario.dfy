/** Concrete states: a challenge that meets the hypotheses of the made-whole theorem, and one state for
    each guarantee that fails. */
module Scenario {
  import opened Outcomes
  import opened Integers
  import opened Sums
  import opened Types
  import opened Emission
  import opened Escrows
  import opened Jury
  import opened Conservation
  import opened Conserved
  import opened Custody
  import opened Lives
  import opened Settlement
  import opened Limits
  import opened Standoffs
  import opened Startup
  import opened Verdicts

  const BUYER: Addr := "buyer"
  const SELLER: Addr := "seller"
  const VERIFIER: Addr := "verifier"
  const JUROR: Addr := "juror"

  const DEAL: Escrow :=
    Escrow(0, BUYER, SELLER, 500, "", Challenged, 1000, true, "d", [VERIFIER], 1, "a", "k", 300000,
           [Attestation(VERIFIER, true, 0, "d", "k", "a", 20)], "", 10, 30)

  const CASE: Dispute := Dispute(0, 0, BUYER, "fraud", Open, Pending, [Vote(JUROR, false, 2)], 1)

  function Member(a: Addr): Account { Account(a, 1000, 0, true, false) }

  /** A buyer has challenged a verified release, and the only juror has voted to reject it. */
  function Challenge(): State {
    State(map[BUYER := Member(BUYER), SELLER := Member(SELLER), VERIFIER := Member(VERIFIER), JUROR := Member(JUROR)],
          map[], 0,
          map[0 := DEAL], 1,
          map[0 := CASE], 1,
          map[0 := Bond(0, VERIFIER, 500, AttestationPurpose(0), "", Active, "0"),
              1 := Bond(1, BUYER, 100, DisputePurpose(0), "", Active, "0"),
              2 := Bond(2, JUROR, 100, JurorPurpose(0), "", Active, "0")], 3,
          map[], 0, map[], 0, Some(Default(1)))
  }

  function Court(sha256: string -> string): Env {
    Env(sha256, [JUROR], 300, 300)
  }

  /** `n` entries of at most `bound` each. */
  function Repeated(n: nat, bound: nat): nat {
    if n == 0 then 0 else bound + Repeated(n - 1, bound)
  }

  lemma {:induction false} SumAtMost<K(!new), V>(m: map<K, V>, f: V -> nat, bound: nat)
    requires forall k | k in m :: f(m[k]) <= bound
    ensures Sum(m, f) <= Repeated(|m|, bound)
    decreases |m|
  {
    if m != map[] {
      var k :| k in m;
      SumTakeOut(m, k, f);
      SumAtMost(m - {k}, f, bound);
      assert (m - {k}).Keys == m.Keys - {k};
    }
  }

  lemma BalancesSmall()
    ensures Sum(Challenge().accounts, BalanceOf) <= 4000
  {
    hide Default, DisputePurpose, JurorPurpose, AttestationPurpose;
    var m := Challenge().accounts;
    assert m.Keys == {BUYER, SELLER, VERIFIER, JUROR};
    SumAtMost(m, BalanceOf, 1000);
  }

  lemma CollateralSmall()
    ensures Sum(Challenge().bonds, Collateral) <= 3000
  {
    hide Default, DisputePurpose, JurorPurpose, AttestationPurpose;
    var m := Challenge().bonds;
    assert m.Keys == {0, 1, 2};
    SumAtMost(m, Collateral, 1000);
  }

  lemma HoldingsSmall()
    ensures Sum(Challenge().escrows, Holding) <= 1000 && Sum(Challenge().vouches, Staked) == 0
  {
    hide Default, DisputePurpose, JurorPurpose, AttestationPurpose;
    var m := Challenge().escrows;
    assert m.Keys == {0};
    SumAtMost(m, Holding, 1000);
  }

  lemma ChallengeSupply()
    ensures Supply(Challenge()) <= 8000
  {
    hide Challenge, Sum;
    BalancesSmall();
    CollateralSmall();
    HoldingsSmall();
  }

  lemma ChallengeKeyed()
    ensures Keyed(Challenge())
  {
    hide DisputePurpose, JurorPurpose, AttestationPurpose;
  }

  lemma ChallengeParties()
    ensures Parties(Challenge())
  {
    hide Default, DisputePurpose, JurorPurpose, AttestationPurpose;
    assert Known(Challenge().accounts, BUYER) && Known(Challenge().accounts, SELLER);
    assert Known(Challenge().accounts, VERIFIER) && Known(Challenge().accounts, JUROR);
  }

  lemma ChallengeBooks()
    ensures Books(Challenge())
  {
    hide Keyed, Parties, Supply;
    ChallengeSupply();
    ChallengeKeyed();
    ChallengeParties();
  }

  lemma OneCaseInCustody(env: Env, s: State, clock: int)
    requires s.escrows.Keys == {0} && s.disputes.Keys == {0} && OpenOn(s, 0, 0)
    requires EscrowSound(s, 0, clock) && DisputeSound(env, s, 0)
    ensures InCustody(env, s, clock)
  {
    hide EscrowSound, DisputeSound;
  }

  lemma DealSound(s: State, clock: int)
    requires s.escrows == map[0 := DEAL] && 0 in s.bonds && s.bonds[0] == Challenge().bonds[0]
    requires forall k | k in s.disputes :: s.disputes[k].status == Open
    ensures EscrowSound(s, 0, clock)
  {
    hide DisputePurpose, JurorPurpose, AttestationPurpose, Default;
    assert StakesActive(s.bonds, DEAL);
  }

  lemma CaseSound(env: Env)
    requires env.anchors == [JUROR]
    ensures DisputeSound(env, Challenge(), 0)
  {
    hide DisputePurpose, JurorPurpose, AttestationPurpose, Default;
  }

  lemma ChallengeInCustody(env: Env, clock: int)
    requires env.anchors == [JUROR]
    ensures InCustody(env, Challenge(), clock)
  {
    hide DisputeSound, EscrowSound, DisputePurpose, JurorPurpose, AttestationPurpose, Default;
    var s := Challenge();
    assert s.escrows.Keys == {0} && s.disputes.Keys == {0};
    DealSound(s, clock);
    CaseSound(env);
    OneCaseInCustody(env, s, clock);
  }

  lemma OneReject()
    ensures TallyFrom(CASE.votes, true, 0) == 0 && TallyFrom(CASE.votes, false, 0) == 1
  {
    assert TallyFrom(CASE.votes, true, 1) == 0 && TallyFrom(CASE.votes, false, 1) == 0;
  }

  /** The court's only vote decides the case. */
  lemma CourtRejects(sha256: string -> string, s: State, clock: int, now: UnixTime)
    requires Books(s) && InCustody(Court(sha256), s, clock) && 0 in s.disputes && s.disputes[0] == CASE
    ensures var r := ResolveDispute(Court(sha256), s, now, JUROR, 0);
            r.Ok? && Decided(r.value, 0, Reject)
  {
    hide Books, InCustody, ResolveDispute;
    var env := Court(sha256);
    OneReject();
    VerdictsNeverStick(env, s, clock, now, JUROR, 0);
    ResolveDisputeEffect(env, s, now, JUROR, 0);
  }

  lemma ChallengeFacts()
    ensures var s := Challenge();
            && OpenOn(s, 0, 0) && OnlyCase(s, 0, 0) && 0 in s.escrows && s.escrows[0] == DEAL && VerifierReleased(DEAL)
            && 0 in s.disputes && s.disputes[0] == CASE && CASE.bondId in s.bonds && s.bonds[CASE.bondId].amount == 100
            && BalanceAt(s, BUYER) == 1000
  {
    hide DisputePurpose, JurorPurpose, AttestationPurpose, Default;
  }

  /** The state meets every hypothesis of `MadeWhole`, and the verdict is a reject: the buyer ends with at
      least the quorum times the amount, plus the challenge bond, on top of what it had. */
  lemma ChallengeMadeWhole(sha256: string -> string, now: UnixTime)
    ensures var s, env := Challenge(), Court(sha256); var r := ResolveDispute(env, s, now, JUROR, 0);
            && Books(s) && InCustody(env, s, 40)
            && OpenOn(s, 0, 0) && OnlyCase(s, 0, 0) && VerifierReleased(s.escrows[0])
            && r.Ok? && Decided(r.value, 0, Reject)
            && BUYER in r.value.accounts && r.value.accounts[BUYER].balance >= 1000 + 500 + 100
  {
    hide Books, InCustody, Supply, ResolveDispute, Challenge, OnlyCase;
    var s, env := Challenge(), Court(sha256);
    ChallengeBooks();
    ChallengeInCustody(env, 40);
    ChallengeFacts();
    CourtRejects(sha256, s, 40, now);
    MadeWhole(env, s, 40, now, JUROR, 0, 0);
  }

  // ---- Released is not final ----------------------------------------------

  /** After that verdict the same buyer may challenge the same release again. */
  lemma SecondChallenge(sha256: string -> string)
    ensures var r := ResolveDispute(Court(sha256), Challenge(), 50, JUROR, 0);
            r.Ok? && 0 in r.value.escrows && r.value.escrows[0].status == Released
            && OpenDispute(r.value, 60, BUYER, 0, "", 100).Ok?
  {
    hide Books, InCustody, Supply, ResolveDispute;
    var s, env := Challenge(), Court(sha256);
    ChallengeMadeWhole(sha256, 50);
    ResolveDisputeEffect(env, s, 50, JUROR, 0);
    VerdictBooks(env, s, JUROR, 0);
    ReopenedIff(ResolveDispute(env, s, 50, JUROR, 0).value, 60, BUYER, 0, "", 100);
  }

  lemma VerdictBooks(env: Env, s: State, c: Addr, k: nat)
    requires Books(s) && ResolveDispute(env, s, 50, c, k).Ok?
    ensures Books(ResolveDispute(env, s, 50, c, k).value)
    ensures forall a | a in ResolveDispute(env, s, 50, c, k).value.accounts ::
              ResolveDispute(env, s, 50, c, k).value.accounts[a].balance > 0 ==> ResolveDispute(env, s, 50, c, k).value.accounts[a].registered
  {
    ResolveDisputeBalanced(env, s, 50, c, k);
  }

  /** A verifier has failed the delivery; the contest window is open. */
  const FAILED: Escrow :=
    DEAL.(status := FailAttested, attestations := [Attestation(VERIFIER, false, 0, "d", "k", "a", 20)],
          challengeDeadline := 20 + CHALLENGE_WINDOW_SECONDS, releasedAt := 0)

  function Failed(): State {
    Challenge().(escrows := map[0 := FAILED], disputes := map[], disputeSeq := 0,
                 bonds := map[0 := Bond(0, VERIFIER, 500, AttestationPurpose(0), "", Active, "0")], bondSeq := 1)
  }

  /** A buyer that pays a seller in spite of a fail verdict may challenge its own release. */
  lemma OwnReleaseChallenged()
    ensures var r := ReleaseEscrow(Failed(), 40, BUYER, 0);
            r.Ok? && 0 in r.value.escrows && r.value.escrows[0].status == Released
            && OpenDispute(r.value, 50, BUYER, 0, "", 100).Ok?
  {
    var r := ReleaseEscrow(Failed(), 40, BUYER, 0);
    ReopenedIff(r.value, 50, BUYER, 0, "", 100);
  }

  /** That release, challenged: the only juror has voted to reject it. */
  const OWN: Escrow := FAILED.(status := Challenged, releasedAt := 40)

  function OwnChallenge(): State {
    Challenge().(escrows := map[0 := OWN])
  }

  lemma OwnHoldings()
    ensures Sum(OwnChallenge().escrows, Holding) <= 1000
  {
    hide Default, DisputePurpose, JurorPurpose, AttestationPurpose;
    var m := OwnChallenge().escrows;
    assert m.Keys == {0};
    SumAtMost(m, Holding, 1000);
  }

  lemma OwnBooks()
    ensures Books(OwnChallenge())
  {
    hide Sum, DisputePurpose, JurorPurpose, AttestationPurpose, Keyed, Parties;
    BalancesSmall();
    CollateralSmall();
    HoldingsSmall();
    OwnHoldings();
    OwnKeyed();
    OwnParties();
  }

  lemma OwnKeyed()
    ensures Keyed(OwnChallenge())
  {
    hide DisputePurpose, JurorPurpose, AttestationPurpose;
  }

  lemma OwnParties()
    ensures Parties(OwnChallenge())
  {
    hide Default, DisputePurpose, JurorPurpose, AttestationPurpose;
    assert Known(OwnChallenge().accounts, BUYER) && Known(OwnChallenge().accounts, SELLER);
    assert Known(OwnChallenge().accounts, VERIFIER) && Known(OwnChallenge().accounts, JUROR);
  }

  lemma OwnSound(env: Env, clock: int)
    requires env.anchors == [JUROR]
    ensures EscrowSound(OwnChallenge(), 0, clock) && DisputeSound(env, OwnChallenge(), 0)
  {
    hide DisputePurpose, JurorPurpose, AttestationPurpose, Default;
    CaseSound(env);
  }

  /** It is the first case, the verdict is a reject, and yet the verifiers' part is nothing: the buyer gets
      its challenge bond back and no coin besides. */
  lemma OwnReleaseUninsured(sha256: string -> string, now: UnixTime)
    ensures var s, env := OwnChallenge(), Court(sha256); var r := ResolveDispute(env, s, now, JUROR, 0);
            && Books(s) && InCustody(env, s, 40) && OpenOn(s, 0, 0) && OnlyCase(s, 0, 0)
            && r.Ok? && Decided(r.value, 0, Reject) && VerifiersPart(s, OWN) == 0
            && BUYER in r.value.accounts && r.value.accounts[BUYER].balance == 1000 + 100
  {
    hide Books, InCustody, Supply, ResolveDispute, HasInsurer, VerifiersPart, JurorsPart, OwnChallenge, OnlyCase;
    var s, env := OwnChallenge(), Court(sha256);
    OwnBooks();
    OwnInCustody(env, 40);
    OwnFacts();
    CourtRejects(sha256, s, 40, now);
    NobodyPassed();
    MadeWholeIffFirst(env, s, 40, now, JUROR, 0, 0);
    NobodyAccepted();
  }

  lemma OwnInCustody(env: Env, clock: int)
    requires env.anchors == [JUROR]
    ensures InCustody(env, OwnChallenge(), clock)
  {
    hide DisputeSound, EscrowSound, InCustody, DisputePurpose, JurorPurpose, AttestationPurpose, Default;
    var s := OwnChallenge();
    assert s.escrows.Keys == {0} && s.disputes.Keys == {0};
    OwnSound(env, clock);
    OneCaseInCustody(env, s, clock);
  }

  lemma OwnFacts()
    ensures var s := OwnChallenge();
            && OpenOn(s, 0, 0) && OnlyCase(s, 0, 0) && 0 in s.escrows && s.escrows[0] == OWN && OWN.status == Challenged
            && 0 in s.disputes && s.disputes[0] == CASE && CASE.bondId in s.bonds && s.bonds[CASE.bondId].amount == 100
            && BalanceAt(s, BUYER) == 1000
  {
    hide DisputePurpose, JurorPurpose, AttestationPurpose, Default;
    ChallengeFacts();
  }

  lemma NobodyPassed()
    ensures !HasInsurer(OWN)
  {
    assert !Insurer(OWN, OWN.attestations[0]);
  }

  lemma NobodyAccepted()
    ensures JurorsPart(OwnChallenge(), CASE, OWN) == 0
  {
    hide DisputePurpose, JurorPurpose, AttestationPurpose, Default;
    var bonds, stakes := OwnChallenge().bonds, VoteStakes(CASE.votes);
    assert stakes == [Stake(2, JUROR, false)] && stakes[1..] == [];
    assert Payee(stakes[0], false, BUYER) != BUYER;
    assert Due(bonds, stakes[1..], false, BUYER, BUYER) == 0;
  }

  // ---- An evenly split jury -----------------------------------------------

  const SPLIT: Dispute := CASE.(votes := [Vote(JUROR, false, 2), Vote(SELLER, true, 3)])

  /** Two anchors, both heard, one on either side. */
  function SplitJury(): State {
    Challenge().(disputes := map[0 := SPLIT],
                 bonds := Challenge().bonds[3 := Bond(3, SELLER, 100, JurorPurpose(0), "", Active, "0")], bondSeq := 4)
  }

  lemma SplitCollateral()
    ensures Sum(SplitJury().bonds, Collateral) <= 4000
  {
    hide Default, DisputePurpose, JurorPurpose, AttestationPurpose;
    var m := SplitJury().bonds;
    assert m.Keys == {0, 1, 2, 3};
    SumAtMost(m, Collateral, 1000);
  }

  lemma SplitKeyed()
    ensures Keyed(SplitJury())
  {
    hide DisputePurpose, JurorPurpose, AttestationPurpose;
  }

  lemma SplitParties()
    ensures Parties(SplitJury())
  {
    hide Default, DisputePurpose, JurorPurpose, AttestationPurpose;
    assert Known(SplitJury().accounts, BUYER) && Known(SplitJury().accounts, SELLER);
    assert Known(SplitJury().accounts, VERIFIER) && Known(SplitJury().accounts, JUROR);
  }

  lemma SplitBooks()
    ensures Books(SplitJury())
  {
    hide Sum, DisputePurpose, JurorPurpose, AttestationPurpose, Keyed, Parties;
    BalancesSmall();
    HoldingsSmall();
    SplitCollateral();
    SplitKeyed();
    SplitParties();
  }

  lemma SplitSound(env: Env)
    requires env.anchors == [JUROR, SELLER]
    ensures DisputeSound(env, SplitJury(), 0)
  {
    hide DisputePurpose, JurorPurpose, AttestationPurpose, Default;
  }

  /** Such a state exists, so that what `EvenSplitNeverResolves` says of it happens. */
  lemma SplitJuryStands(sha256: string -> string, clock: int)
    ensures var env := Env(sha256, [JUROR, SELLER], 300, 300);
            Books(SplitJury()) && InCustody(env, SplitJury(), clock) && Standoff(env, SplitJury(), 0)
  {
    hide Books, InCustody, SplitJury, Standoff;
    var env := Env(sha256, [JUROR, SELLER], 300, 300);
    SplitBooks();
    SplitInCustody(env, clock);
    SplitHeard(env);
  }

  lemma SplitInCustody(env: Env, clock: int)
    requires env.anchors == [JUROR, SELLER]
    ensures InCustody(env, SplitJury(), clock)
  {
    hide DisputeSound, EscrowSound, InCustody, DisputePurpose, JurorPurpose, AttestationPurpose, Default;
    var s := SplitJury();
    assert s.escrows.Keys == {0} && s.disputes.Keys == {0};
    DealSound(s, clock);
    SplitSound(env);
    OneCaseInCustody(env, s, clock);
  }

  lemma SplitHeard(env: Env)
    requires env.anchors == [JUROR, SELLER]
    ensures Standoff(env, SplitJury(), 0)
  {
    var votes := SPLIT.votes;
    assert votes[0].juror == JUROR && votes[1].juror == SELLER;
    assert TallyFrom(votes, true, 2) == 0 && TallyFrom(votes, false, 2) == 0;
    assert TallyFrom(votes, true, 1) == 1 && TallyFrom(votes, false, 1) == 0;
  }

  // ---- A wrapped deadline -------------------------------------------------

  /** The longest window a request can ask for. */
  const FOREVER: LockRequest := LockRequest(BUYER, SELLER, 500, "", TWO64 - 1, false, [], 0, "")

  /** It wraps: the escrow is locked with a deadline in the past, and anyone releases it in the same block. */
  lemma WrappedDeadline(now: UnixTime)
    ensures var r := LockEscrow(Failed(), now, FOREVER);
            && r.Ok? && 1 in r.value.escrows && r.value.escrows[1].deadline == now - 1
            && ReleaseEscrow(r.value, now, JUROR, 1).Ok?
  {
    hide AttestationPurpose;
    StrangerReleasesAtOnceIff(Failed(), now, FOREVER, JUROR);
  }

  // ---- A burned total that wraps ------------------------------------------

  /** A genesis whose first epoch schedules far more than the supply; nothing else is stored. */
  const OVERSCHEDULED: EmissionState := EmissionState(100, 600, 1000, 1, 1, 1, TWO64 - 1, 0, 0, 1)

  function Overscheduled(): GenesisState {
    GenesisState([], [], [], 0, [], 0, [], 0, [], 0, OVERSCHEDULED)
  }

  /** It is valid and loads, and its first epoch boundary wraps the burned total to zero. */
  lemma BurnedTotalWraps(now: UnixTime)
    requires now > 1000
    ensures var s := Loaded(Overscheduled(), now); var e := s.emission.value;
            && ValidGenesis(Overscheduled()) && Genesis(s)
            && EpochDue(e, now) && !BurnFits(First(s.emission)) && Tick(e).totalBurned == 0
  {
    var s := Loaded(Overscheduled(), now);
    assert Supply(s) == 0;
    LoadedIsGenesis(Overscheduled(), now);
  }
}
