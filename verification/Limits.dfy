/** Where the unchecked arithmetic is exact, and exactly when the guards the code lacks would matter. */
module Limits {
  import opened Outcomes
  import opened Integers
  import opened Text
  import opened Sums
  import opened Types
  import opened Emission
  import opened Ledger
  import opened Escrows
  import opened Bonds
  import opened Gates
  import opened Machine
  import opened Conservation
  import opened Conserved
  import opened Settlement
  import opened Rails

  // ---- No addition wraps --------------------------------------------------

  /** Every unchecked addition a handler can form in this state stays below 2^64. */
  ghost predicate AdditionsExact(s: State) {
    && (forall a, id | id in s.bonds :: BalanceAt(s, a) + Collateral(s.bonds[id]) < TWO64)
    && (forall a, id | id in s.escrows :: BalanceAt(s, a) + Holding(s.escrows[id]) < TWO64)
    && (forall a, id | id in s.vouches :: BalanceAt(s, a) + s.vouches[id].stake < TWO64)
    && (forall a, b | a != b :: BalanceAt(s, a) + BalanceAt(s, b) < TWO64)
    && (forall a :: BalanceAt(s, a) + (Cap(s) - Mined(s)) < TWO64)
  }

  lemma TwoBalances(s: State, a: Addr, b: Addr)
    requires a != b
    ensures BalanceAt(s, a) + BalanceAt(s, b) <= Supply(s)
  {
    if a in s.accounts {
      SumTakeOut(s.accounts, a, BalanceOf);
      if b in s.accounts { SumTakeOut(s.accounts - {a}, b, BalanceOf); }
    } else if b in s.accounts {
      SumTakeOut(s.accounts, b, BalanceOf);
    }
  }

  lemma BooksLeaveRoom(s: State)
    requires Books(s)
    ensures AdditionsExact(s)
  {
    BooksBound(s);
    hide Keyed, Parties, Supply;
    forall a, id | id in s.bonds
      ensures BalanceAt(s, a) + Collateral(s.bonds[id]) < TWO64
    {
      BalanceAndBond(s, a, id);
    }
    forall a, id | id in s.escrows
      ensures BalanceAt(s, a) + Holding(s.escrows[id]) < TWO64
    {
      BalanceAndEscrow(s, a, id);
    }
    forall a, id | id in s.vouches
      ensures BalanceAt(s, a) + s.vouches[id].stake < TWO64
    {
      BalanceAndVouch(s, a, id);
    }
    forall a, b | a != b
      ensures BalanceAt(s, a) + BalanceAt(s, b) < TWO64
    {
      TwoBalances(s, a, b);
    }
    forall a
      ensures BalanceAt(s, a) + (Cap(s) - Mined(s)) < TWO64
    {
      RoomToMint(s, a);
    }
  }

  lemma RoomToMint(s: State, a: Addr)
    requires Books(s)
    ensures BalanceAt(s, a) + (Cap(s) - Mined(s)) < TWO64
  {
    if a in s.accounts { SumCovers(s.accounts, a, BalanceOf); }
  }

  // ---- Emission totals ----------------------------------------------------

  /** Neither the next synchronisation nor one after it, had the first been stored, wraps a total. */
  predicate StaysExact(stored: Option<EmissionState>, t: UnixTime, u: UnixTime) {
    SyncExact(stored, t) && SyncExact(Some(Sync(stored, t)), u)
  }

  /** Nor does either leave more mined and burned than there is supply. */
  predicate StaysWithinCap(stored: Option<EmissionState>, t: UnixTime, u: UnixTime) {
    StaysExact(stored, t, u) && WithinCap(Sync(stored, t)) && WithinCap(Sync(Some(Sync(stored, t)), u))
  }

  ghost function Fitting(): Option<EmissionState> -> bool {
    stored => First(stored).totalMined <= First(stored).maxSupply && BurnFits(First(stored))
  }

  ghost function Covered(): Option<EmissionState> -> bool {
    stored => Solvent(First(stored))
  }

  /** From time `start` on no boundary can ever be reached, and supply is not exceeded. */
  ghost function NeverDue(capped: bool, start: UnixTime): Option<EmissionState> -> bool {
    stored =>
      !EpochDue(FirstAt(stored, start), LAST_TIME) && First(stored).totalMined <= First(stored).maxSupply
      && (capped ==> WithinCap(First(stored)))
  }

  /** A synchronised state fits when the stored one does, and filling it again changes no total. */
  lemma SyncFits(stored: Option<EmissionState>, now: UnixTime)
    requires Fitting()(stored)
    ensures SyncExact(stored, now) && Filled(Sync(stored, now)) && Sync(stored, now).totalMined <= Sync(stored, now).maxSupply
    ensures BurnFits(Sync(stored, now)) && Fitting()(Some(Sync(stored, now)))
    ensures Covered()(stored) ==> Solvent(Sync(stored, now)) && Covered()(Some(Sync(stored, now)))
  {
    hide Fill, Fetch, BurnFits, Solvent, WithinCap, CatchUpExact, CatchUp;
    FirstAgrees(stored, now);
    CatchUpFits(Fill(Fetch(stored, now), now), now);
    SyncFilled(stored, now);
    Refilled(Sync(stored, now));
  }

  lemma Refilled(e: EmissionState)
    requires Filled(e)
    ensures SameTotals(First(Some(e)), e) && (BurnFits(First(Some(e))) <==> BurnFits(e)) && (Solvent(First(Some(e))) <==> Solvent(e))
    ensures WithinCap(First(Some(e))) <==> WithinCap(e)
  {
    FilledFirst(e, 1);
    TotalsDecide(First(Some(e)), e);
  }

  lemma FittingKept()
    ensures KeptByMints(Fitting(), 1) && KeptByMints(Covered(), 1)
  {
    hide Sync, First, BurnFits, Solvent, RemainingScheduled, RemainingEpoch;
    forall stored: Option<EmissionState>, now: UnixTime, amount: U64 |
      Fitting()(stored) && amount <= RemainingScheduled(Sync(stored, now)) && amount <= RemainingEpoch(Sync(stored, now))
      ensures Fitting()(Some(Mine(Sync(stored, now), amount)))
      ensures Covered()(stored) ==> Covered()(Some(Mine(Sync(stored, now), amount)))
    {
      SyncFits(stored, now);
      MineFits(Sync(stored, now), amount);
      Refilled(Mine(Sync(stored, now), amount));
    }
    forall stored | Covered()(stored)
      ensures Fitting()(stored)
    {
      CoveredFits(stored);
    }
  }

  lemma CoveredFits(stored: Option<EmissionState>)
    requires Covered()(stored)
    ensures Fitting()(stored)
  {
    hide First;
  }

  /** A clock that is not set starts at the time of the synchronisation. */
  lemma ClockAgrees(stored: Option<EmissionState>, start: UnixTime, now: UnixTime)
    ensures var f, first := FirstAt(stored, now), FirstAt(stored, start);
            f.epochStartedAt == first.epochStartedAt || (f.epochStartedAt == now && first.epochStartedAt == start)
    ensures var f := FirstAt(stored, now); Filled(f) && f.epochStartedAt != 0
  {
    hide Reward, RemainingScheduled, RemainingEpoch;
  }

  lemma NeverDueSync(stored: Option<EmissionState>, start: UnixTime, now: UnixTime, capped: bool)
    requires NeverDue(capped, start)(stored) && start <= now
    ensures var f := FirstAt(stored, now);
            && Sync(stored, now) == f && SyncExact(stored, now) && Filled(f) && f.epochStartedAt != 0
            && !EpochDue(f, LAST_TIME) && f.totalMined <= f.maxSupply && (capped ==> WithinCap(f))
  {
    hide Fill, Fetch;
    FirstAgrees(stored, start);
    FirstAgrees(stored, now);
    ClockAgrees(stored, start, now);
  }

  lemma NeverDueKept(capped: bool, start: UnixTime)
    ensures KeptByMints(NeverDue(capped, start), start)
  {
    hide Sync, RemainingScheduled, RemainingEpoch, WithinCap, Fill, Fetch;
    forall stored: Option<EmissionState>, now: UnixTime, amount: U64 |
      start <= now && NeverDue(capped, start)(stored) && amount <= RemainingScheduled(Sync(stored, now)) && amount <= RemainingEpoch(Sync(stored, now))
      ensures NeverDue(capped, start)(Some(Mine(Sync(stored, now), amount)))
    {
      NeverDueSync(stored, start, now, capped);
      MineFits(Sync(stored, now), amount);
      FilledFirst(Mine(Sync(stored, now), amount), start);
      FilledFirst(Mine(Sync(stored, now), amount), 1);
    }
  }

  lemma NeverDueStays(stored: Option<EmissionState>, start: UnixTime, t: UnixTime, u: UnixTime, capped: bool)
    requires NeverDue(capped, start)(stored) && start <= t <= u
    ensures StaysExact(stored, t, u) && (capped ==> StaysWithinCap(stored, t, u))
  {
    hide Sync, SyncExact, Fill, Fetch, WithinCap;
    NeverDueSync(stored, start, t, capped);
    FilledFirst(Sync(stored, t), start);
    FilledFirst(Sync(stored, t), 1);
    NeverDueSync(Some(Sync(stored, t)), start, u, capped);
  }

  lemma FittingStays(stored: Option<EmissionState>, t: UnixTime, u: UnixTime)
    requires Fitting()(stored)
    ensures StaysExact(stored, t, u) && (Covered()(stored) ==> StaysWithinCap(stored, t, u))
  {
    hide Sync, SyncExact, First, BurnFits;
    SyncFits(stored, t);
    SyncFits(Some(Sync(stored, t)), u);
  }

  /** When a boundary can be reached at all, what happens there decides. */
  lemma FirstBoundaryDecides(stored: Option<EmissionState>, start: UnixTime)
    requires EpochDue(FirstAt(stored, start), LAST_TIME) && First(stored).totalMined <= First(stored).maxSupply
    ensures StaysExact(stored, start, LAST_TIME) ==> BurnFits(First(stored))
    ensures WithinCap(First(stored)) && StaysWithinCap(stored, start, LAST_TIME) ==> Solvent(First(stored))
  {
    hide Fill, Fetch, BurnFits, Solvent, WithinCap, First, FirstAt;
    var f := FirstAt(stored, start);
    ClockAgrees(stored, start, start);
    FirstAgrees(stored, start);
    TotalsDecide(f, First(stored));
    SyncFirst(stored, start);
    if EpochDue(f, start) {
      CatchUpExactIff(f, start);
    } else {
      FilledFirst(f, LAST_TIME);
      SyncFirst(Some(f), LAST_TIME);
      CatchUpExactIff(f, LAST_TIME);
    }
  }

  lemma SyncFirst(stored: Option<EmissionState>, now: UnixTime)
    ensures FirstAt(stored, now).divisor > 0 && Sync(stored, now) == CatchUp(FirstAt(stored, now), now)
    ensures SyncExact(stored, now) == CatchUpExact(FirstAt(stored, now), now)
  {
  }

  /** From any start and over all runs, no emission total wraps if and only if the first burn fits in 64
      bits, or no epoch boundary can ever be reached: a condition on the state the run starts from, which
      the author of a genesis can check. */
  lemma NoWrapIff(env: Env, s: State, start: UnixTime)
    requires Books(s)
    ensures (forall txs: seq<Tx>, t: UnixTime, u: UnixTime | InOrder(start, txs) && Clock(start, txs) <= t <= u ::
               StaysExact(Run(env, s, txs).emission, t, u))
       <==> (EpochDue(FirstAt(s.emission, start), LAST_TIME) ==> BurnFits(First(s.emission)))
  {
    BooksSupply(s);
    hide Keyed, Parties, Supply, StaysExact, First, FirstAt, Run;
    if EpochDue(FirstAt(s.emission, start), LAST_TIME) ==> BurnFits(First(s.emission)) {
      forall txs: seq<Tx>, t: UnixTime, u: UnixTime | InOrder(start, txs) && Clock(start, txs) <= t <= u
        ensures StaysExact(Run(env, s, txs).emission, t, u)
      {
        if BurnFits(First(s.emission)) {
          FittingKept();
          RunKeeps(env, s, txs, Fitting(), 1);
          FittingStays(Run(env, s, txs).emission, t, u);
        } else {
          NeverDueKept(false, start);
          RunKeeps(env, s, txs, NeverDue(false, start), start);
          NeverDueStays(Run(env, s, txs).emission, start, t, u, false);
        }
      }
    } else {
      FirstBoundaryDecides(s.emission, start);
      RunNothing(env, s, start);
    }
  }

  /** From any start and over all runs, no total wraps and mined plus burned stays within the cap, if and
      only if the unspent reward of the first epoch is covered by the remaining supply, or no boundary can
      ever be reached. */
  lemma WithinCapIff(env: Env, s: State, start: UnixTime)
    requires Books(s) && WithinCap(First(s.emission))
    ensures (forall txs: seq<Tx>, t: UnixTime, u: UnixTime | InOrder(start, txs) && Clock(start, txs) <= t <= u ::
               StaysWithinCap(Run(env, s, txs).emission, t, u))
       <==> (EpochDue(FirstAt(s.emission, start), LAST_TIME) ==> Solvent(First(s.emission)))
  {
    BooksSupply(s);
    hide Keyed, Parties, Supply, StaysWithinCap, First, FirstAt, Run;
    if EpochDue(FirstAt(s.emission, start), LAST_TIME) ==> Solvent(First(s.emission)) {
      forall txs: seq<Tx>, t: UnixTime, u: UnixTime | InOrder(start, txs) && Clock(start, txs) <= t <= u
        ensures StaysWithinCap(Run(env, s, txs).emission, t, u)
      {
        if Solvent(First(s.emission)) {
          FittingKept();
          RunKeeps(env, s, txs, Covered(), 1);
          CoveredFits(Run(env, s, txs).emission);
          FittingStays(Run(env, s, txs).emission, t, u);
        } else {
          NeverDueKept(true, start);
          RunKeeps(env, s, txs, NeverDue(true, start), start);
          NeverDueStays(Run(env, s, txs).emission, start, t, u, true);
        }
      }
    } else {
      FirstBoundaryDecides(s.emission, start);
      RunNothing(env, s, start);
    }
  }

  lemma RunNothing(env: Env, s: State, start: int)
    ensures Run(env, s, []) == s && InOrder(start, []) && Clock(start, []) == start
  {
  }

  lemma BooksSupply(s: State)
    requires Books(s)
    ensures First(s.emission).totalMined <= First(s.emission).maxSupply
  {
  }

  /** If the initial supply and what may still be mined are together below 2^64, and the first burn fits
      too, then in every state of every run no balance, stake or emission total can wrap: not now, not
      when the emission state next catches up, and not in a mint that then passes its checks. */
  lemma RunAdditionsExact(env: Env, s: State, txs: seq<Tx>, now: UnixTime, amount: U64)
    requires Books(s) && BurnFits(First(s.emission))
    ensures var t := Run(env, s, txs); var e := Sync(t.emission, now);
            && AdditionsExact(t) && SyncExact(t.emission, now) && BurnFits(e)
            && (amount <= RemainingScheduled(e) && amount <= RemainingEpoch(e) ==>
                  Mine(e, amount).totalMined == e.totalMined + amount <= e.maxSupply && e.epochMined + amount < TWO64)
  {
    BooksSupply(s);
    hide Run, AdditionsExact, Sync, First, RemainingScheduled, Keyed, Parties, Supply;
    RunConserves(env, s, txs);
    FittingKept();
    RunKeeps(env, s, txs, Fitting(), 1);
    var t := Run(env, s, txs);
    BooksLeaveRoom(t);
    SyncFits(t.emission, now);
    var e := Sync(t.emission, now);
    if amount <= RemainingScheduled(e) && amount <= RemainingEpoch(e) { MineFits(e, amount); }
  }

  // ---- What the invariants are needed for ---------------------------------

  lemma WriteMoves(s: State, a: Addr, acct: Account)
    ensures var t := s.(accounts := s.accounts[a := acct]);
            Supply(t) + BalanceAt(s, a) == Supply(s) + acct.balance
  {
    SumUpdate(s.accounts, a, acct, BalanceOf);
  }

  /** A transfer conserves coin exactly when the recipient's balance has room for it; the code itself
      does not check. */
  lemma TransferConservesIff(s: State, c: Addr, to: Addr, amount: U64)
    ensures var r := Transfer(s, c, to, amount);
            r.Ok? ==> (Supply(r.value) == Supply(s) <==> BalanceAt(s, to) + amount < TWO64)
  {
    hide Supply;
    var r := Transfer(s, c, to, amount);
    if r.Ok? {
      var from := s.accounts[c];
      var debited := s.(accounts := s.accounts[c := from.(balance := from.balance - amount)]);
      WriteMoves(s, c, from.(balance := from.balance - amount));
      WriteMoves(debited, to, r.value.accounts[to]);
      assert r.value == debited.(accounts := debited.accounts[to := r.value.accounts[to]]);
      assert BalanceAt(debited, to) == BalanceAt(s, to);
    }
  }

  /** Registering conserves coin exactly when the overwritten record was empty; the code itself does not
      check. */
  lemma RegisterConservesIff(s: State, c: Addr)
    ensures var r := Register(s, c);
            r.Ok? ==> (Supply(r.value) == Supply(s) <==> BalanceAt(s, c) == 0)
  {
    hide Supply;
    WriteMoves(s, c, FreshAccount(c));
  }

  /** The deadline of a new escrow lies ahead exactly when the requested seconds fit a signed 64-bit
      time; a larger request wraps to a deadline that has already passed. */
  lemma DeadlineAheadIff(s: State, now: UnixTime, m: LockRequest)
    ensures var r := LockEscrow(s, now, m);
            r.Ok? ==>
              && s.escrowSeq in r.value.escrows
              && (now + m.disputeSeconds < TWO63 <==> r.value.escrows[s.escrowSeq].deadline >= now)
              && (now + m.disputeSeconds < TWO63 ==> r.value.escrows[s.escrowSeq].deadline == now + m.disputeSeconds)
  {
  }

  lemma LockedTerms(s: State, now: UnixTime, m: LockRequest)
    ensures var r := LockEscrow(s, now, m);
            r.Ok? ==>
              && s.escrowSeq in r.value.escrows && m.payee in r.value.accounts
              && var e := r.value.escrows[s.escrowSeq];
                 e.status == Locked && e.payer == m.payer && e.payee == m.payee && e.amount == m.amount
                 && (e.noAutoRelease <==> m.noAutoRelease || m.verifierAddrs != [])
  {
    hide CheckVerifierTerms;
  }

  /** Whom the clock lets release: in the very block that locks an escrow a stranger may release it exactly
      when neither the payer nor a verifier set forbids release by the clock, and the window is zero or
      wraps. */
  lemma StrangerReleasesAtOnceIff(s: State, now: UnixTime, m: LockRequest, stranger: Addr)
    requires LockEscrow(s, now, m).Ok? && stranger != "" && stranger != m.payer
    ensures ReleaseEscrow(LockEscrow(s, now, m).value, now, stranger, s.escrowSeq).Ok?
       <==> !m.noAutoRelease && m.verifierAddrs == [] && (m.disputeSeconds == 0 || now + m.disputeSeconds >= TWO63)
  {
    hide LockEscrow;
    LockedTerms(s, now, m);
    DeadlineAheadIff(s, now, m);
  }

  // ---- What a commitment pins ---------------------------------------------

  /** No two texts have hashes that are equal up to case. */
  ghost predicate CollisionFree(sha256: string -> string) {
    forall x, y :: EqualFold(sha256(x), sha256(y)) ==> x == y
  }

  /** An answer and a salt that make up `text`. */
  predicate Opens(text: string, answer: string, salt: string) {
    answer + ":" + salt == text
  }

  lemma OpensIff(text: string, answer: string, salt: string)
    ensures Opens(text, answer, salt) <==>
              |answer| < |text| && text[|answer|] == ':' && answer == text[..|answer|] && salt == text[|answer| + 1..]
  {
    if Opens(text, answer, salt) { assert (answer + ":" + salt)[|answer|] == ':'; }
  }

  /** A committed text can be split in one way only exactly when neither part has the separator. */
  lemma SplitUniqueIff(answer: string, salt: string)
    ensures (forall a: string, t: string | Opens(answer + ":" + salt, a, t) :: a == answer && t == salt)
       <==> ':' !in answer && ':' !in salt
  {
    var text := answer + ":" + salt;
    if ':' in answer {
      var i :| 0 <= i < |answer| && answer[i] == ':';
      OpensAt(text, i);
    } else if ':' in salt {
      var i :| 0 <= i < |salt| && salt[i] == ':';
      OpensAt(text, |answer| + 1 + i);
    } else {
      forall a: string, t: string | Opens(text, a, t)
        ensures a == answer && t == salt
      {
        OpensIff(text, a, t);
        assert forall j | 0 <= j < |text| && j != |answer| :: text[j] != ':';
      }
    }
  }

  /** With a collision-free hash, the gold commitment, whose answer may be empty, pins answer and salt
      exactly when neither contains the separator. */
  lemma GoldPinsAnswerIff(env: Env, answer: string, salt: string)
    requires CollisionFree(env.sha256)
    ensures (forall a: string, t: string | EqualFold(Commitment(env, a, t), Commitment(env, answer, salt)) :: a == answer && t == salt)
       <==> ':' !in answer && ':' !in salt
  {
    SplitUniqueIff(answer, salt);
    forall a: string, t: string
      ensures EqualFold(Commitment(env, a, t), Commitment(env, answer, salt)) <==> Opens(answer + ":" + salt, a, t)
    {
    }
  }

  /** The reveals a gate accepts from an agent are the openings of its committed text with an answer that
      is not empty. */
  lemma AcceptedReveals(env: Env, s: State, now: UnixTime, c: Addr, id: nat, answer: string, salt: string, a: string, t: string)
    requires CollisionFree(env.sha256) && RevealAnswer(env, s, now, c, id, answer, salt).Ok?
    ensures RevealAnswer(env, s, now, c, id, a, t).Ok? <==> a != "" && Opens(answer + ":" + salt, a, t)
  {
    hide FindAnswer;
    var g := s.gates[id];
    var commit := g.answers[FindAnswer(g.answers, c, 0).value].commit;
    FoldsAgree(env, answer, salt, a, t, commit);
  }

  lemma FoldsAgree(env: Env, answer: string, salt: string, a: string, t: string, commit: string)
    requires CollisionFree(env.sha256) && EqualFold(Commitment(env, answer, salt), commit)
    ensures EqualFold(Commitment(env, a, t), commit) <==> Opens(answer + ":" + salt, a, t)
  {
    if EqualFold(Commitment(env, a, t), commit) {
      assert EqualFold(Commitment(env, a, t), Commitment(env, answer, salt));
    }
  }

  /** With a collision-free hash, an accepted reveal is the only one the gate would accept exactly when
      neither the salt nor the answer after its first character contains the separator: an opening with
      an empty answer is refused, so a leading separator does no harm. */
  lemma RevealPinsAnswerIff(env: Env, s: State, now: UnixTime, c: Addr, id: nat, answer: string, salt: string)
    requires CollisionFree(env.sha256) && RevealAnswer(env, s, now, c, id, answer, salt).Ok?
    ensures answer != ""
    ensures (forall a: string, t: string | RevealAnswer(env, s, now, c, id, a, t).Ok? :: a == answer && t == salt)
       <==> ':' !in answer[1..] && ':' !in salt
  {
    hide RevealAnswer, CollisionFree, Opens;
    AcceptedReveals(env, s, now, c, id, answer, salt, answer, salt);
    var text := answer + ":" + salt;
    OpensIff(text, answer, salt);
    forall a: string, t: string
      ensures RevealAnswer(env, s, now, c, id, a, t).Ok? <==> a != "" && Opens(text, a, t)
    {
      AcceptedReveals(env, s, now, c, id, answer, salt, a, t);
    }
    NonEmptySplitUniqueIff(answer, salt);
  }

  lemma NonEmptySplitUniqueIff(answer: string, salt: string)
    requires answer != ""
    ensures (forall a: string, t: string | a != "" && Opens(answer + ":" + salt, a, t) :: a == answer && t == salt)
       <==> ':' !in answer[1..] && ':' !in salt
  {
    var text := answer + ":" + salt;
    if ':' in answer[1..] {
      var i :| 1 <= i < |answer| && answer[i] == ':';
      OpensAt(text, i);
      assert text[..i] != "" && text[..i] != answer;
    } else if ':' in salt {
      var i :| 0 <= i < |salt| && salt[i] == ':';
      OpensAt(text, |answer| + 1 + i);
      assert text[..|answer| + 1 + i] != "" && text[..|answer| + 1 + i] != answer;
    } else {
      forall a: string, t: string | a != "" && Opens(text, a, t)
        ensures a == answer && t == salt
      {
        OpensIff(text, a, t);
        assert forall j | 1 <= j < |answer| :: answer[j] == answer[1..][j - 1];
        assert forall j | 1 <= j < |text| && j != |answer| :: text[j] != ':';
      }
    }
  }

  /** Any separator of the committed text will do to open it. */
  lemma OpensAt(text: string, i: nat)
    requires i < |text| && text[i] == ':'
    ensures Opens(text, text[..i], text[i + 1..])
  {
  }

  /** For instance, one commitment opens as "a" and as "a:b". */
  lemma TwoOpenings(env: Env)
    ensures Commitment(env, "a", "b:c") == Commitment(env, "a:b", "c")
  {
    assert "a" + ":" + "b:c" == "a:b" + ":" + "c";
  }
}
